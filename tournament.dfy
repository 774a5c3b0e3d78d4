/**
 * A tournament (class `Tournament`): several ranking models built on the same
 * results, each with a weight; `aggregate` adds up every team's weighted
 * 1-based positions and ranks the teams by that sum. The competitiveness
 * ratio and the tournament's own weight sit beside it.
 */
module TournamentModel {
  import opened Common
  import opened Results
  import StableSort
  import Stats
  import DropsModel
  import SuperScore

  /** The model classes a tournament can be asked to build. */
  datatype ModelKind = IqrKind | StdDeviationKind | MeanKind | SuperScoreKind

  // ----- the `_models` dict, keyed by weight -----

  /**
   * The first components of a list of pairs, in order: the weights of
   * `models_to_use`, or the keys of an ordered dict.
   */
  function Keys<K, V>(reg: seq<(K, V)>): (r: seq<K>)
    ensures |r| == |reg| && forall j :: 0 <= j < |reg| ==> r[j] == reg[j].0
  {
    if |reg| == 0 then [] else Keys(reg[..|reg| - 1]) + [reg[|reg| - 1].0]
  }

  /**
   * `models[w] = m`: an existing key keeps its position and takes the new
   * value, a new key goes last.
   */
  function Register<M>(reg: seq<(real, M)>, w: real, m: M): seq<(real, M)>
  {
    match IndexOf(Keys(reg), w)
    case Some(j) => reg[j := (w, m)]
    case None => reg + [(w, m)]
  }

  /**
   * Registering keeps the keys distinct, adds w once, stores m under w and
   * leaves every other entry where and what it was.
   */
  lemma RegisterFacts<M>(reg: seq<(real, M)>, w: real, m: M)
    requires Distinct(Keys(reg))
    ensures Distinct(Keys(Register(reg, w, m)))
    ensures Keys(Register(reg, w, m)) == if w in Keys(reg) then Keys(reg) else Keys(reg) + [w]
    ensures exists j :: 0 <= j < |Register(reg, w, m)| && Register(reg, w, m)[j] == (w, m)
    ensures forall j :: 0 <= j < |reg| && reg[j].0 != w ==> Register(reg, w, m)[j] == reg[j]
    ensures forall j :: 0 <= j < |Register(reg, w, m)| ==>
              Register(reg, w, m)[j] == (w, m) || (j < |reg| && Register(reg, w, m)[j] == reg[j])
  {
    var r := Register(reg, w, m);
    match IndexOf(Keys(reg), w)
    case Some(j) =>
      assert Keys(r) == Keys(reg);
      assert r[j] == (w, m);
    case None =>
      assert Keys(r) == Keys(reg) + [w];
      assert r[|reg|] == (w, m);
  }

  /** `models[w]`: the entry stored under key w. */
  function ModelAt<M>(reg: seq<(real, M)>, w: real): M
    requires w in Keys(reg)
  {
    reg[IndexOf(Keys(reg), w).value].1
  }

  /** After `models[w] = m`, looking up w gives m back. */
  lemma RegisterAt<M>(reg: seq<(real, M)>, w: real, m: M)
    requires Distinct(Keys(reg))
    ensures w in Keys(Register(reg, w, m)) && ModelAt(Register(reg, w, m), w) == m
  {
    var r := Register(reg, w, m);
    match IndexOf(Keys(reg), w)
    case Some(j) =>
      assert Keys(r) == Keys(reg);
    case None =>
      assert Keys(r) == Keys(reg) + [w];
      assert IndexOf(Keys(r), w) == Some(|reg|);
  }

  /**
   * Models that compare equal share one slot of the registry: storing b
   * after a replaces a exactly when `a == b`, whatever their super scores,
   * and otherwise keeps both, in the order they were stored. The three
   * comparisons are consistent with each other.
   */
  lemma EqualModelsShareSlot(a: SuperScore.SuperScoreModel, b: SuperScore.SuperScoreModel)
    ensures a.EqualTo(b) ==> Register(Register([], a.weight, a), b.weight, b) == [(b.weight, b)]
    ensures !a.EqualTo(b) ==> Register(Register([], a.weight, a), b.weight, b) == [(a.weight, a), (b.weight, b)]
    ensures a.EqualTo(b) <==> !a.LessThan(b) && !a.GreaterThan(b)
    ensures a.LessThan(b) <==> b.GreaterThan(a)
  {
  }

  /** Appending a weight to the list appends it to the distinct weights unless it is already there. */
  lemma DedupStep(ws: seq<real>, w: real)
    ensures Dedup(ws + [w]) == if w in Dedup(ws) then Dedup(ws) else Dedup(ws) + [w]
  {
    assert (ws + [w])[..|ws|] == ws;
  }

  /** The weights of one more requested model. */
  lemma WeightsStep(rm: seq<(real, ModelKind)>, i: nat)
    requires i < |rm|
    ensures Keys(rm[..i + 1]) == Keys(rm[..i]) + [rm[i].0]
  {
    assert rm[..i + 1][..i] == rm[..i];
  }

  // ----- building the models -----

  /**
   * The exception building one model raises, given the one building a
   * SuperScoreModel on these results raises (SuperScore.NewError). Mean, Iqr
   * and StdDeviation pass their `weight` on as the `method` argument of
   * `Drops`, whose rule lookup then fails with KeyError (see Drops.New) if
   * loading the results has not already done so.
   */
  function ModelError(ss: Option<Error>, kind: ModelKind): Option<Error>
  {
    if kind == SuperScoreKind then ss else Some(KeyError)
  }

  /** The exception of the first model in rm whose construction fails. */
  function SetupError(ss: Option<Error>, rm: seq<(real, ModelKind)>): Option<Error>
  {
    if |rm| == 0 then None
    else match SetupError(ss, rm[..|rm| - 1])
      case Some(e) => Some(e)
      case None => ModelError(ss, rm[|rm| - 1].1)
  }

  /**
   * Closed form of the first failure: the first model fails whenever the
   * results cannot be loaded for a SuperScoreModel; otherwise setup fails,
   * with KeyError, exactly when some Mean, Iqr or StdDeviation is requested.
   */
  lemma {:induction false} SetupErrorClosedForm(ss: Option<Error>, rm: seq<(real, ModelKind)>)
    ensures SetupError(ss, rm) ==
      if |rm| == 0 then None
      else if ss.Some? then ModelError(ss, rm[0].1)
      else if exists j :: 0 <= j < |rm| && rm[j].1 != SuperScoreKind then Some(KeyError)
      else None
  {
    if |rm| > 0 {
      var init := rm[..|rm| - 1];
      assert forall j :: 0 <= j < |init| ==> init[j] == rm[j];
      SetupErrorClosedForm(ss, init);
      if ss.None? && rm[|rm| - 1].1 != SuperScoreKind {
        assert exists j :: 0 <= j < |rm| && rm[j].1 != SuperScoreKind;
      }
    }
  }

  /** After a prefix that built, the next model decides. */
  lemma SetupStep(ss: Option<Error>, rm: seq<(real, ModelKind)>, i: nat)
    requires i < |rm| && SetupError(ss, rm[..i]).None?
    ensures SetupError(ss, rm[..i + 1]) == ModelError(ss, rm[i].1)
  {
    assert rm[..i + 1][..i] == rm[..i];
  }

  /** Once a prefix has failed, the later models are never built. */
  lemma {:induction false} SetupStops(ss: Option<Error>, rm: seq<(real, ModelKind)>, i: nat)
    requires i <= |rm| && SetupError(ss, rm[..i]).Some?
    ensures SetupError(ss, rm) == SetupError(ss, rm[..i])
  {
    if i < |rm| {
      var init := rm[..|rm| - 1];
      assert init[..i] == rm[..i];
      SetupStops(ss, init, i);
    } else {
      assert rm[..i] == rm;
    }
  }

  // ----- `aggregate` -----


  /**
   * k copies of w added up. The specification functions below use it in
   * place of `k * w` so that their proofs stay within linear arithmetic;
   * TimesIsProduct connects the two.
   */
  function Times(k: nat, w: real): real
  {
    if k == 0 then 0.0 else Times(k - 1, w) + w
  }

  lemma {:induction false} TimesIsProduct(k: nat, w: real)
    ensures Times(k, w) == k as real * w
  {
    if k > 0 {
      TimesIsProduct(k - 1, w);
      assert k as real * w == (k - 1) as real * w + w;
    }
  }

  /** `(i + 1) * w` summed over the positions i at which t appears in ranking. */
  function PositionSum(ranking: seq<string>, t: string, w: real): real
  {
    if |ranking| == 0 then 0.0
    else PositionSum(ranking[..|ranking| - 1], t, w) + (if ranking[|ranking| - 1] == t then Times(|ranking|, w) else 0.0)
  }

  /** What `aggregate` adds up for t over the (weight, ranking) pairs rs. */
  function Total(rs: seq<(real, seq<string>)>, t: string): real
  {
    if |rs| == 0 then 0.0 else Total(rs[..|rs| - 1], t) + PositionSum(rs[|rs| - 1].1, t, rs[|rs| - 1].0)
  }

  /** The 1-based position of t in a ranking, 0 when it is absent. */
  function Position(ranking: seq<string>, t: string): nat
  {
    match IndexOf(ranking, t) case None => 0 case Some(i) => i + 1
  }

  /** Reference definition: the sum over the models of the team's 1-based position times the weight. */
  function WeightedPositions(rs: seq<(real, seq<string>)>, t: string): real
  {
    if |rs| == 0 then 0.0 else WeightedPositions(rs[..|rs| - 1], t) + Times(Position(rs[|rs| - 1].1, t), rs[|rs| - 1].0)
  }

  /** Appending x leaves an earlier position alone and gives x its own. */
  lemma PositionSnoc(init: seq<string>, x: string, t: string)
    ensures Position(init + [x], t) == if t in init then Position(init, t) else if x == t then |init| + 1 else 0
  {
    var s := init + [x];
    if t in init {
      var k := IndexOf(init, t).value;
      var k' := IndexOf(s, t).value;
      assert s[k] == t;
      assert k' <= k;
      assert init[k'] == t;
      assert k <= k';
    } else if x == t {
      assert s[|init|] == t;
      assert forall j :: 0 <= j < |init| ==> s[j] != t;
    } else {
      assert t !in s;
    }
  }

  /** In a ranking without repeats, PositionSum is weight times the 1-based position. */
  lemma {:induction false} PositionSumDistinct(ranking: seq<string>, t: string, w: real)
    requires Distinct(ranking)
    ensures PositionSum(ranking, t, w) == Times(Position(ranking, t), w)
  {
    if |ranking| == 0 {
      assert Position(ranking, t) == 0;
      assert PositionSum(ranking, t, w) == Times(Position(ranking, t), w);
    } else {
      var init := ranking[..|ranking| - 1];
      var last := ranking[|ranking| - 1];
      assert ranking == init + [last];
      assert Distinct(init);
      PositionSumDistinct(init, t, w);
      PositionSnoc(init, last, t);
      if last == t {
        assert t !in init;
        assert Position(init, t) == 0;
        assert PositionSum(init, t, w) == 0.0;
        assert Position(ranking, t) == |ranking|;
        assert PositionSum(ranking, t, w) == Times(|ranking|, w);
        assert PositionSum(ranking, t, w) == Times(Position(ranking, t), w);
      } else {
        assert Position(ranking, t) == Position(init, t);
        assert PositionSum(ranking, t, w) == PositionSum(init, t, w);
        assert PositionSum(ranking, t, w) == Times(Position(ranking, t), w);
      }
    }
  }

  /**
   * When no ranking repeats a name (they are the keys of dicts), what
   * `aggregate` adds up is the weighted sum of 1-based positions.
   */
  lemma {:induction false} TotalIsWeightedPositions(rs: seq<(real, seq<string>)>, t: string)
    requires forall j :: 0 <= j < |rs| ==> Distinct(rs[j].1)
    ensures Total(rs, t) == WeightedPositions(rs, t)
  {
    if |rs| > 0 {
      var init := rs[..|rs| - 1];
      assert forall j :: 0 <= j < |init| ==> init[j] == rs[j];
      TotalIsWeightedPositions(init, t);
      PositionSumDistinct(rs[|rs| - 1].1, t, rs[|rs| - 1].0);
    }
  }

  /** `{team: 0 for team in first_ranking}`: the keys of `_prelim`, in order. */
  function PrelimKeys(rs: seq<(real, seq<string>)>): (r: seq<string>)
    ensures Distinct(r)
    ensures |rs| > 0 ==> forall x :: x in r <==> x in rs[0].1
  {
    if |rs| == 0 then [] else Dedup(rs[0].1)
  }

  /**
   * The keys of `_prelim` follow the first model's ranking: each name at
   * its first position there, and the ranking itself when it has no repeats.
   */
  lemma PrelimKeysOrder(rs: seq<(real, seq<string>)>)
    requires |rs| > 0
    ensures forall i, j :: 0 <= i < j < |PrelimKeys(rs)| ==>
              IndexOf(rs[0].1, PrelimKeys(rs)[i]).value < IndexOf(rs[0].1, PrelimKeys(rs)[j]).value
    ensures Distinct(rs[0].1) ==> PrelimKeys(rs) == rs[0].1
  {
    DedupOrder(rs[0].1);
    DedupDistinct(rs[0].1);
  }

  /** Every name any model ranks is a key of `_prelim`; otherwise `+=` raises KeyError. */
  predicate AllKnown(rs: seq<(real, seq<string>)>)
  {
    forall j :: 0 <= j < |rs| ==> Within(rs[j].1, KeySet(rs))
  }

  /** The keys of `_prelim` as a set. */
  function KeySet(rs: seq<(real, seq<string>)>): (r: set<string>)
    ensures forall x :: x in r <==> x in PrelimKeys(rs)
  {
    if |rs| == 0 then {} else set x | x in rs[0].1
  }

  /** Every name of the ranking is among the keys. */
  predicate Within(ranking: seq<string>, keys: set<string>)
  {
    forall i :: 0 <= i < |ranking| ==> ranking[i] in keys
  }

  /** One more model's contribution to every total. */
  lemma TotalStep(rs: seq<(real, seq<string>)>, j: nat)
    requires j < |rs|
    ensures forall t :: Total(rs[..j + 1], t) == Total(rs[..j], t) + PositionSum(rs[j].1, t, rs[j].0)
  {
    assert rs[..j + 1][..j] == rs[..j];
  }


  /** The `_prelim` dict `aggregate` computes. */
  function PrelimOf(rs: seq<(real, seq<string>)>): (r: seq<(string, real)>)
    ensures |r| == |PrelimKeys(rs)| && forall i :: 0 <= i < |r| ==> r[i] == (PrelimKeys(rs)[i], Total(rs, PrelimKeys(rs)[i]))
  {
    var keys := PrelimKeys(rs);
    Entries(keys, map t | t in keys :: Total(rs, t))
  }

  function PrelimKey(p: (string, real)): real { p.1 }

  /** The `_ranks` tuple: the keys of `_prelim`, sorted stably by value. */
  function RanksOf(rs: seq<(real, seq<string>)>): seq<string>
  {
    Keys(StableSort.Sort(PrelimOf(rs), PrelimKey))
  }

  /**
   * The ranks hold every key of `_prelim` exactly once, in ascending order of
   * the aggregated sum; teams with equal sums keep the first model's order.
   */
  lemma RanksFacts(rs: seq<(real, seq<string>)>)
    ensures |RanksOf(rs)| == |PrelimKeys(rs)|
    ensures forall x :: x in RanksOf(rs) <==> x in PrelimKeys(rs)
    ensures Distinct(RanksOf(rs))
    ensures forall a, b :: 0 <= a < b < |RanksOf(rs)| ==> Total(rs, RanksOf(rs)[a]) <= Total(rs, RanksOf(rs)[b])
    ensures forall v :: StableSort.KeyBlock(StableSort.Sort(PrelimOf(rs), PrelimKey), PrelimKey, v)
                        == StableSort.KeyBlock(PrelimOf(rs), PrelimKey, v)
  {
    var items := PrelimOf(rs);
    var sorted := StableSort.Sort(items, PrelimKey);
    StableSort.SortFacts(items, PrelimKey);
    SortedItems(rs, items, sorted);
    ItemsDistinct(items, sorted);
  }

  /** Each sorted item is some key with its total, and every key appears. */
  lemma SortedItems(rs: seq<(real, seq<string>)>, items: seq<(string, real)>, sorted: seq<(string, real)>)
    requires items == PrelimOf(rs) && multiset(sorted) == multiset(items)
    ensures forall a :: 0 <= a < |sorted| ==> sorted[a].0 in PrelimKeys(rs) && sorted[a].1 == Total(rs, sorted[a].0)
    ensures forall x :: x in Keys(sorted) <==> x in PrelimKeys(rs)
  {
    var keys := PrelimKeys(rs);
    forall a | 0 <= a < |sorted| ensures sorted[a].0 in keys && sorted[a].1 == Total(rs, sorted[a].0) {
      assert sorted[a] in multiset(items);
      var i :| 0 <= i < |items| && items[i] == sorted[a];
    }
    forall x | x in keys ensures x in Keys(sorted) {
      var i :| 0 <= i < |keys| && keys[i] == x;
      assert items[i] in multiset(sorted);
      var a :| 0 <= a < |sorted| && sorted[a] == items[i];
      assert Keys(sorted)[a] == x;
    }
  }

  /** A sequence without repeats holds each value at most once. */
  lemma {:induction false} DistinctCount<T>(s: seq<T>, x: T)
    requires Distinct(s)
    ensures multiset(s)[x] <= 1
  {
    if |s| > 0 {
      var init := s[..|s| - 1];
      assert s == init + [s[|s| - 1]];
      assert Distinct(init);
      DistinctCount(init, x);
      if s[|s| - 1] == x {
        assert x !in init;
      }
    }
  }

  /** A value at two positions is counted at least twice. */
  lemma PairCount<T>(s: seq<T>, a: nat, b: nat)
    requires a < b < |s|
    ensures s[a] == s[b] ==> multiset(s)[s[a]] >= 2
  {
    assert s == s[..a] + [s[a]] + s[a + 1..b] + [s[b]] + s[b + 1..];
  }

  /** The sorted pairs, and so their names, have no repeats: the names of `_prelim` are its keys. */
  lemma ItemsDistinct(items: seq<(string, real)>, sorted: seq<(string, real)>)
    requires Distinct(Keys(items)) && multiset(sorted) == multiset(items)
    requires forall a, b :: 0 <= a < |sorted| && 0 <= b < |sorted| && sorted[a].0 == sorted[b].0 ==> sorted[a] == sorted[b]
    ensures Distinct(Keys(sorted))
  {
    assert Distinct(items) by {
      forall i, j | 0 <= i < j < |items| ensures items[i] != items[j] {
        assert Keys(items)[i] != Keys(items)[j];
      }
    }
    forall a, b | 0 <= a < b < |sorted| ensures sorted[a].0 != sorted[b].0 {
      PairCount(sorted, a, b);
      DistinctCount(items, sorted[a]);
    }
  }

  // ----- competitiveness -----

  /** A subset has at most the elements of its superset. */
  lemma {:induction false} SubsetSize<T>(a: set<T>, b: set<T>)
    requires a <= b
    ensures |a| <= |b|
  {
    if a != {} {
      var x :| x in a;
      SubsetSize(a - {x}, b - {x});
    }
  }

  /**
   * `set_comp`: the distinct schools here that also went to nationals, over
   * the number of team entries here (ZeroDivisionError without any).
   */
  function Competitiveness(schools: seq<string>, national: seq<string>): (r: Result<real>)
    ensures r.Err? <==> |schools| == 0
    ensures r.Err? ==> r.error == ZeroDivisionError
    ensures r.Ok? ==> 0.0 <= r.value <= 1.0
    ensures r.Ok? && (forall i :: 0 <= i < |schools| ==> schools[i] in national) && Distinct(schools) ==> r.value == 1.0
    ensures r.Ok? && (forall i :: 0 <= i < |schools| ==> schools[i] !in national) ==> r.value == 0.0
  {
    if |schools| == 0 then Err(ZeroDivisionError)
    else
      CommonSchools(schools, national);
      Ratio(|Shared(schools, national)|, |schools|);
      Ok(|Shared(schools, national)| as real / |schools| as real)
  }

  /** `set(comped_tlist).intersection(set(national_tlist))`. */
  function Shared(schools: seq<string>, national: seq<string>): set<string>
  {
    (set x | x in schools) * (set x | x in national)
  }

  /**
   * At most one shared school per entry; all entries when they are distinct
   * national schools, none when no entry is a national school.
   */
  lemma CommonSchools(schools: seq<string>, national: seq<string>)
    ensures |Shared(schools, national)| <= |schools|
    ensures (forall i :: 0 <= i < |schools| ==> schools[i] in national) && Distinct(schools)
            ==> |Shared(schools, national)| == |schools|
    ensures (forall i :: 0 <= i < |schools| ==> schools[i] !in national) ==> Shared(schools, national) == {}
  {
    var here := set x | x in schools;
    SetOfSeqSize(schools);
    SubsetSize(Shared(schools, national), here);
    if Distinct(schools) && forall i :: 0 <= i < |schools| ==> schools[i] in national {
      assert Shared(schools, national) == here;
      DistinctSetSize(schools);
    }
  }

  /** A count over a larger positive count is a fraction in [0, 1], and 1 when they agree. */
  lemma Ratio(a: nat, b: nat)
    requires a <= b && b > 0
    ensures 0.0 <= a as real / b as real <= 1.0
    ensures a == b ==> a as real / b as real == 1.0
    ensures a == 0 ==> a as real / b as real == 0.0
  {
    var q := a as real / b as real;
    assert q * b as real == a as real;
  }

  /** A list without repeats has as many distinct elements as entries. */
  lemma {:induction false} DistinctSetSize<T>(s: seq<T>)
    requires Distinct(s)
    ensures |set x | x in s| == |s|
  {
    if |s| > 0 {
      var init := s[..|s| - 1];
      assert Distinct(init);
      DistinctSetSize(init);
      assert (set x | x in s) == (set x | x in init) + {s[|s| - 1]};
      assert s[|s| - 1] !in init;
    }
  }

  /** The school names of the rankings a model hands over. */
  function RankingsOf(ms: seq<(real, SuperScore.SuperScoreModel)>): (r: seq<(real, seq<string>)>)
    reads (set j | 0 <= j < |ms| :: ms[j].1)`superScores
    ensures |r| == |ms| && forall j :: 0 <= j < |ms| ==> r[j].0 == ms[j].0
  {
    if |ms| == 0 then []
    else
      var last := ms[|ms| - 1];
      RankingsOf(ms[..|ms| - 1]) + [(last.0, Keys(last.1.Ranking()))]
  }

  /**
   * `model(path, weight)` in `__self`: the model, or the exception its
   * constructor raises (see ModelError).
   */
  method MakeModel(raw: RawData, kind: ModelKind, w: real) returns (r: Result<SuperScore.SuperScoreModel>)
    ensures r.Err? <==> ModelError(SuperScore.NewError(raw), kind).Some?
    ensures r.Err? ==> ModelError(SuperScore.NewError(raw), kind) == Some(r.error)
    ensures r.Ok? ==>
      && fresh(r.value) && r.value.weight == w
      && SuperScore.NewError(raw).None? && r.value.superScores == SuperScore.SuperScoresOf(raw)
  {
    if kind == SuperScoreKind {
      r := SuperScore.SuperScoreModel.New(raw, w);
    } else {
      var d := DropsModel.Drops.New(raw, DropsModel.Number(w), None);
      r := Err(d.error);
    }
  }

  /** Every stored model is stored under its own weight (`self._models[_model.weight] = _model`). */
  predicate WeightsMatch(ms: seq<(real, SuperScore.SuperScoreModel)>)
    reads (set j | 0 <= j < |ms| :: ms[j].1)`weight
  {
    forall j :: 0 <= j < |ms| ==> ms[j].1.weight == ms[j].0
  }

  /** Storing a model under its own weight keeps the keys distinct and every weight matching. */
  lemma RegisterWeights(ms: seq<(real, SuperScore.SuperScoreModel)>, w: real, m: SuperScore.SuperScoreModel)
    requires Distinct(Keys(ms)) && WeightsMatch(ms) && m.weight == w
    ensures Distinct(Keys(Register(ms, w, m)))
    ensures Keys(Register(ms, w, m)) == if w in Keys(ms) then Keys(ms) else Keys(ms) + [w]
    ensures WeightsMatch(Register(ms, w, m))
  {
    var r := Register(ms, w, m);
    RegisterFacts(ms, w, m);
    forall j | 0 <= j < |r| ensures r[j].1.weight == r[j].0 {
      if r[j] != (w, m) {
        assert r[j] == ms[j];
      }
    }
  }

  /** `self._models[weight] = model(path, weight)` on the registry ms. */
  method StoreModel(ms: seq<(real, SuperScore.SuperScoreModel)>, raw: RawData, w: real, kind: ModelKind)
    returns (failure: Option<Error>, r: seq<(real, SuperScore.SuperScoreModel)>)
    requires Distinct(Keys(ms)) && WeightsMatch(ms)
    ensures failure == ModelError(SuperScore.NewError(raw), kind)
    ensures failure.Some? ==> r == ms
    ensures failure.None? ==>
      && Distinct(Keys(r)) && WeightsMatch(r)
      && Keys(r) == if w in Keys(ms) then Keys(ms) else Keys(ms) + [w]
    ensures failure.None? ==>
      && w in Keys(r) && ModelAt(r, w).weight == w
      && ModelAt(r, w).superScores == SuperScore.SuperScoresOf(raw)
      && r == Register(ms, w, ModelAt(r, w))
  {
    var built := MakeModel(raw, kind, w);
    if built.Err? {
      return Some(built.error), ms;
    }
    RegisterWeights(ms, w, built.value);
    RegisterAt(ms, w, built.value);
    r := Register(ms, w, built.value);
    failure := None;
  }


  class Tournament {
    const rawModels: seq<(real, ModelKind)>
    var models: seq<(real, SuperScore.SuperScoreModel)>   // `_models`, an ordered dict keyed by weight
    var competitiveness: real
    var recentness: real
    var prelim: seq<(string, real)>                       // `_prelim`, an ordered dict
    var ranks: Option<seq<string>>                        // `_ranks`, None until `aggregate` runs

    constructor Init(rm: seq<(real, ModelKind)>)
      ensures rawModels == rm && models == [] && competitiveness == 0.0 && recentness == 0.0
      ensures prelim == [] && ranks.None?
    {
      rawModels := rm;
      models := [];
      competitiveness := 0.0;
      recentness := 0.0;
      prelim := [];
      ranks := None;
    }

    /**
     * The loop of `setup` over the requested models: each is built on the
     * same results and stored under its weight. Only SuperScoreModel can be
     * built (see ModelError).
     */
    method Setup(raw: RawData) returns (failure: Option<Error>)
      requires models == []
      modifies this`models
      ensures failure == SetupError(SuperScore.NewError(raw), rawModels)
      ensures failure.None? ==> Keys(models) == Dedup(Keys(rawModels))
      ensures failure.None? ==> WeightsMatch(models)
    {
      ghost var ss := SuperScore.NewError(raw);
      var rm := rawModels;
      var i := 0;
      while i < |rm|
        invariant 0 <= i <= |rm|
        invariant SetupError(ss, rm[..i]).None?
        invariant Distinct(Keys(models)) && Keys(models) == Dedup(Keys(rm[..i]))
        invariant WeightsMatch(models)
      {
        failure := SetupOne(raw, ss, rm, i);
        if failure.Some? {
          SetupStops(ss, rm, i + 1);
          return;
        }
        i := i + 1;
      }
      assert rm[..i] == rm;
      failure := None;
    }

    /** One pass of `setup`'s loop, stated against the prefix of requests it completes. */
    method SetupOne(raw: RawData, ghost ss: Option<Error>, rm: seq<(real, ModelKind)>, i: nat)
      returns (failure: Option<Error>)
      requires ss == SuperScore.NewError(raw) && i < |rm| && SetupError(ss, rm[..i]).None?
      requires Distinct(Keys(models)) && Keys(models) == Dedup(Keys(rm[..i])) && WeightsMatch(models)
      modifies this`models
      ensures failure == SetupError(ss, rm[..i + 1])
      ensures failure.None? ==>
        && Distinct(Keys(models)) && Keys(models) == Dedup(Keys(rm[..i + 1])) && WeightsMatch(models)
      ensures failure.None? ==>
        && rm[i].0 in Keys(models) && ModelAt(models, rm[i].0).weight == rm[i].0
        && ModelAt(models, rm[i].0).superScores == SuperScore.SuperScoresOf(raw)
        && models == Register(old(models), rm[i].0, ModelAt(models, rm[i].0))
    {
      var (w, kind) := rm[i];
      SetupStep(ss, rm, i);
      failure := AddModel(raw, w, kind);
      if failure.None? {
        WeightsStep(rm, i);
        DedupStep(Keys(rm[..i]), w);
      }
    }

    /** One step of `setup`'s loop: `__self(model, weight)`. */
    method AddModel(raw: RawData, w: real, kind: ModelKind) returns (failure: Option<Error>)
      requires Distinct(Keys(models)) && WeightsMatch(models)
      modifies this`models
      ensures failure == ModelError(SuperScore.NewError(raw), kind)
      ensures failure.Some? ==> models == old(models)
      ensures failure.None? ==>
        && Distinct(Keys(models)) && WeightsMatch(models)
        && Keys(models) == if w in Keys(old(models)) then Keys(old(models)) else Keys(old(models)) + [w]
      ensures failure.None? ==>
        && w in Keys(models) && ModelAt(models, w).weight == w
        && ModelAt(models, w).superScores == SuperScore.SuperScoresOf(raw)
        && models == Register(old(models), w, ModelAt(models, w))
    {
      var stored;
      failure, stored := StoreModel(models, raw, w, kind);
      models := stored;
    }

    /** The (weight, ranking) pairs of the stored models, in dict order. */
    function Rankings(): seq<(real, seq<string>)>
      reads this`models, (set j | 0 <= j < |models| :: models[j].1)`superScores
    {
      RankingsOf(models)
    }

    /**
     * `aggregate`: `_prelim` starts from the first model's ranking with 0
     * each, every model adds `(i + 1) * weight` for the team at position i
     * of its ranking (KeyError for a team `_prelim` lacks), and `_ranks`
     * is the stable ascending sort of `_prelim`. Nothing but the models is
     * read, so every call gives the same result.
     */
    method Aggregate() returns (r: Result<seq<string>>)
      modifies this`prelim, this`ranks
      ensures var rs := old(Rankings());
        && (r.Err? <==> !AllKnown(rs))
        && (r.Err? ==> r.error == KeyError && prelim == old(prelim) && ranks == old(ranks))
        && (r.Ok? ==> prelim == PrelimOf(rs) && r.value == RanksOf(rs) && ranks == Some(r.value))
    {
      var rs := RankingsOf(models);
      var acc := Accumulate(rs);
      if acc.Err? {
        return Err(KeyError);
      }
      var (order, values) := acc.value;
      prelim := Entries(order, values);
      assert |prelim| == |PrelimOf(rs)|;
      assert forall k :: 0 <= k < |prelim| ==> prelim[k] == PrelimOf(rs)[k];
      r := Ok(Keys(StableSort.Sort(prelim, PrelimKey)));
      ranks := Some(r.value);
    }

    /** `tourney_weight`: competitiveness times recentness. */
    function TourneyWeight(): (tw: real)
      reads this
      ensures 0.0 <= competitiveness <= 1.0 && 0.0 <= recentness ==> 0.0 <= tw <= recentness
    {
      var c, x := competitiveness, recentness;
      MulBounded(c, x);
      c * x
    }

    /**
     * `Tournament(path, models_to_use)` on loaded data: ValueError unless the
     * weights sum to 1, then the models are built in order, then the
     * competitiveness ratio against the national school list is set. The
     * recentness, which the source computes from the tournament date, is
     * taken as given.
     */
    static method New(raw: RawData, rm: seq<(real, ModelKind)>, national: seq<string>, recent: real)
      returns (res: Result<Tournament>)
      ensures RealSum(Keys(rm)) != 1.0 ==> res == Err(ValueError)
      ensures RealSum(Keys(rm)) == 1.0 ==>
        && (res.Err? <==> SetupError(SuperScore.NewError(raw), rm).Some? || |raw.teams| == 0)
        && (res.Err? ==> res.error == if SetupError(SuperScore.NewError(raw), rm).Some? then SetupError(SuperScore.NewError(raw), rm).value else ZeroDivisionError)
      ensures res.Ok? ==>
        && fresh(res.value) && res.value.rawModels == rm
        && Keys(res.value.models) == Dedup(Keys(rm))
        && res.value.competitiveness == Competitiveness(SchoolList(raw.teams), national).value
        && res.value.recentness == recent
        && res.value.prelim == [] && res.value.ranks.None?
        && WeightsMatch(res.value.models)
    {
      if RealSum(Keys(rm)) != 1.0 {
        return Err(ValueError);
      }
      res := Build(raw, rm, national, recent);
    }

    /** The part of the constructor after the weight check: `setup`. */
    static method Build(raw: RawData, rm: seq<(real, ModelKind)>, national: seq<string>, recent: real)
      returns (res: Result<Tournament>)
      ensures res.Err? <==> SetupError(SuperScore.NewError(raw), rm).Some? || |raw.teams| == 0
      ensures res.Err? ==> res.error == if SetupError(SuperScore.NewError(raw), rm).Some? then SetupError(SuperScore.NewError(raw), rm).value else ZeroDivisionError
      ensures res.Ok? ==>
        && fresh(res.value) && res.value.rawModels == rm
        && Keys(res.value.models) == Dedup(Keys(rm))
        && res.value.competitiveness == Competitiveness(SchoolList(raw.teams), national).value
        && res.value.recentness == recent
        && res.value.prelim == [] && res.value.ranks.None?
        && WeightsMatch(res.value.models)
    {
      var t := new Tournament.Init(rm);
      var failure := t.Setup(raw);
      if failure.Some? {
        return Err(failure.value);
      }
      var schools := SchoolList(raw.teams);
      assert t.prelim == [] && t.ranks.None? && WeightsMatch(t.models);
      var comp := t.SetRest(schools, national, recent);
      if comp.Err? {
        return Err(comp.error);
      }
      assert t.prelim == [] && t.ranks.None? && WeightsMatch(t.models);
      res := Ok(t);
    }

    /** The rest of `setup`: the recentness, then `set_comp`. */
    method SetRest(schools: seq<string>, national: seq<string>, recent: real) returns (r: Result<real>)
      modifies this`recentness, this`competitiveness
      ensures r == Competitiveness(schools, national)
      ensures recentness == recent
      ensures competitiveness == if r.Ok? then r.value else old(competitiveness)
    {
      recentness := recent;
      r := SetComp(schools, national);
    }

    /** `set_comp`: stores and returns the competitiveness ratio (see Competitiveness). */
    method SetComp(schools: seq<string>, national: seq<string>) returns (r: Result<real>)
      modifies this`competitiveness
      ensures r == Competitiveness(schools, national)
      ensures competitiveness == if r.Ok? then r.value else old(competitiveness)
    {
      r := Competitiveness(schools, national);
      if r.Ok? {
        competitiveness := r.value;
      }
    }
  }

  /**
   * The loops of `aggregate` over the (weight, ranking) pairs: the keys of
   * `_prelim` in order and their sums, or KeyError.
   */
  method Accumulate(rs: seq<(real, seq<string>)>) returns (r: Result<(seq<string>, map<string, real>)>)
    ensures r.Err? <==> !AllKnown(rs)
    ensures r.Err? ==> r.error == KeyError
    ensures r.Ok? ==> var (order, values) := r.value;
      && order == PrelimKeys(rs)
      && (forall t :: t in values <==> t in order)
      && forall t :: t in values ==> values[t] == Total(rs, t)
  {
    var order: seq<string> := [];
    var values: map<string, real> := map[];
    var j := 0;
    while j < |rs|
      invariant 0 <= j <= |rs|
      invariant order == if j == 0 then [] else PrelimKeys(rs)
      invariant j == 0 ==> values == map[]
      invariant j > 0 ==> values.Keys == KeySet(rs)
      invariant forall t :: t in values ==> values[t] == Total(rs[..j], t)
      invariant forall jj :: 0 <= jj < j ==> Within(rs[jj].1, KeySet(rs))
    {
      if j == 0 {
        order := Dedup(rs[0].1);
        values := map t | t in rs[0].1 :: 0.0;
      }
      var added := AccumulateModel(rs, j, values);
      if added.Err? {
        return Err(KeyError);
      }
      values := added.value;
      j := j + 1;
    }
    assert rs[..j] == rs;
    r := Ok((order, values));
  }

  /** Model j's pass over the running totals of the models before it. */
  method AccumulateModel(rs: seq<(real, seq<string>)>, j: nat, values: map<string, real>)
    returns (r: Result<map<string, real>>)
    requires j < |rs| && values.Keys == KeySet(rs)
    requires forall t :: t in values ==> values[t] == Total(rs[..j], t)
    ensures r.Err? <==> !Within(rs[j].1, KeySet(rs))
    ensures r.Err? ==> r.error == KeyError
    ensures r.Ok? ==> r.value.Keys == KeySet(rs)
    ensures r.Ok? ==> forall t :: t in r.value ==> r.value[t] == Total(rs[..j + 1], t)
  {
    r := AddPositions(values, rs[j].1, rs[j].0);
    TotalStep(rs, j);
  }

  /**
   * One pass `for i, team in enumerate(rankings): prelim[team] += (i + 1) * w`,
   * on a copy: the result, or KeyError at the first team the dict lacks.
   */
  method AddPositions(values: map<string, real>, ranking: seq<string>, w: real) returns (r: Result<map<string, real>>)
    ensures r.Err? <==> !Within(ranking, values.Keys)
    ensures r.Err? ==> r.error == KeyError
    ensures r.Ok? ==> r.value.Keys == values.Keys
                      && forall t :: t in values ==> r.value[t] == values[t] + PositionSum(ranking, t, w)
  {
    var acc := values;
    var i := 0;
    while i < |ranking|
      invariant 0 <= i <= |ranking|
      invariant acc.Keys == values.Keys
      invariant Within(ranking[..i], values.Keys)
      invariant forall t :: t in values ==> acc[t] == values[t] + PositionSum(ranking[..i], t, w)
    {
      var team := ranking[i];
      if team !in acc {
        return Err(KeyError);
      }
      var next := acc[team := acc[team] + (i + 1) as real * w];
      forall t | t in values ensures next[t] == values[t] + PositionSum(ranking[..i + 1], t, w) {
        PositionSumStep(ranking, i, t, w);
      }
      acc := next;
      i := i + 1;
    }
    assert ranking[..i] == ranking;
    r := Ok(acc);
  }

  /** Position i + 1 adds (i + 1) * w for the team standing there. */
  lemma PositionSumStep(ranking: seq<string>, i: nat, t: string, w: real)
    requires i < |ranking|
    ensures PositionSum(ranking[..i + 1], t, w)
            == PositionSum(ranking[..i], t, w) + (if ranking[i] == t then (i + 1) as real * w else 0.0)
  {
    assert ranking[..i + 1][..i] == ranking[..i];
    TimesIsProduct(i + 1, w);
  }

  lemma MulBounded(c: real, x: real)
    ensures 0.0 <= c <= 1.0 && 0.0 <= x ==> 0.0 <= c * x <= x
  {
    if 0.0 <= c <= 1.0 && 0.0 <= x {
      assert x - c * x == (1.0 - c) * x;
      Stats.MulNonNegative(1.0 - c, x);
      Stats.MulNonNegative(c, x);
    }
  }
}
