/**
 * The drop-scores model (class `Drops`): flag each team's "bombed" events
 * with one of the outlier rules, drop as many of every team's worst places
 * as the average number of bombed events per team, and rank the teams, and
 * then the schools, by what remains.
 */
module DropsModel {
  import opened Common
  import opened Results
  import StableSort
  import Stats
  import Detectors

  /** The largest entry of a non-empty list (Python's `max`). */
  function Max(s: seq<int>): (m: int)
    requires |s| > 0
    ensures m in s && forall i :: 0 <= i < |s| ==> s[i] <= m
  {
    if |s| == 1 then s[0]
    else
      var rest := Max(s[1..]);
      assert forall i :: 1 <= i < |s| ==> s[i] == s[1..][i - 1];
      if s[0] >= rest then s[0] else rest
  }

  /** `s.remove(max(s))`: the first occurrence of the largest entry is taken out. */
  function RemoveFirstMax(s: seq<int>): (r: seq<int>)
    requires |s| > 0
    ensures |r| == |s| - 1
    ensures multiset(r) + multiset{Max(s)} == multiset(s)
  {
    var i := IndexOf(s, Max(s)).value;
    assert s == s[..i] + [s[i]] + s[i + 1..];
    s[..i] + s[i + 1..]
  }

  /** The entry removed is the first occurrence of the maximum; the rest keep their order. */
  lemma RemoveFirstMaxIsFirst(s: seq<int>)
    requires |s| > 0
    ensures exists i :: 0 <= i < |s| && s[i] == Max(s) && (forall j :: 0 <= j < i ==> s[j] < Max(s))
                        && RemoveFirstMax(s) == s[..i] + s[i + 1..]
  {
    var i := IndexOf(s, Max(s)).value;
    assert RemoveFirstMax(s) == s[..i] + s[i + 1..];
    assert s[i] == Max(s);
    assert forall j :: 0 <= j < i ==> s[j] < Max(s);
  }

  /** The list after k rounds of removing its maximum. */
  function DropMaxima(s: seq<int>, k: nat): (r: seq<int>)
    requires k <= |s|
    ensures |r| == |s| - k
  {
    if k == 0 then s else RemoveFirstMax(DropMaxima(s, k - 1))
  }

  /** The entries the k rounds remove, in removal order. */
  function Dropped(s: seq<int>, k: nat): (r: seq<int>)
    requires k <= |s|
    ensures |r| == k
  {
    if k == 0 then [] else Dropped(s, k - 1) + [Max(DropMaxima(s, k - 1))]
  }

  /**
   * Dropping k maxima splits the list into the kept entries and the k
   * removed ones: together they are exactly the original entries.
   */
  lemma {:induction false} DropMaximaSplits(s: seq<int>, k: nat)
    requires k <= |s|
    ensures multiset(DropMaxima(s, k)) + multiset(Dropped(s, k)) == multiset(s)
  {
    if k > 0 {
      DropMaximaSplits(s, k - 1);
      var prev := DropMaxima(s, k - 1);
      var m := Max(prev);
      var kept := DropMaxima(s, k);
      var d, d' := Dropped(s, k), Dropped(s, k - 1);
      assert kept == RemoveFirstMax(prev);
      assert d == d' + [m];
      var a, b, c, one := multiset(kept), multiset(d'), multiset(prev), multiset{m};
      assert a + one == c && c + b == multiset(s);
      assert multiset(d) == b + one;
      assert a + (b + one) == (a + one) + b;
    }
  }

  /** No kept entry exceeds any removed one: the k removed entries are k largest ones. */
  lemma {:induction false} DropMaximaLargest(s: seq<int>, k: nat)
    requires k <= |s|
    ensures forall i, x :: 0 <= i < k && x in DropMaxima(s, k) ==> x <= Dropped(s, k)[i]
  {
    if k > 0 {
      DropMaximaLargest(s, k - 1);
      var prev := DropMaxima(s, k - 1);
      var m := Max(prev);
      var d, d' := Dropped(s, k), Dropped(s, k - 1);
      assert d == d' + [m];
      forall i, x | 0 <= i < k && x in DropMaxima(s, k) ensures x <= d[i] {
        KeptWasThere(prev, x);
        if i < k - 1 {
          assert d[i] == d'[i];
        }
      }
    }
  }

  /** An entry left after removing the maximum was in the list, and is at most the maximum. */
  lemma KeptWasThere(s: seq<int>, x: int)
    requires |s| > 0 && x in RemoveFirstMax(s)
    ensures x in s && x <= Max(s)
  {
    assert x in multiset(RemoveFirstMax(s));
    assert x in multiset(s);
  }

  /** So the kept entries add up to the original total less the removed ones. */
  lemma {:induction false} DropMaximaSum(s: seq<int>, k: nat)
    requires k <= |s|
    ensures Sum(DropMaxima(s, k)) == Sum(s) - Sum(Dropped(s, k))
  {
    if k == 0 {
      assert Dropped(s, 0) == [];
    } else {
      DropMaximaSum(s, k - 1);
      RemoveFirstMaxSum(DropMaxima(s, k - 1));
      DroppedSumStep(s, k);
    }
  }

  /** With places that are never negative, dropping can only lower a team's total. */
  lemma DropMaximaSumBounded(s: seq<int>, k: nat)
    requires k <= |s|
    requires forall i :: 0 <= i < |s| ==> s[i] >= 0
    ensures 0 <= Sum(DropMaxima(s, k)) <= Sum(s)
  {
    var d, kept := Dropped(s, k), DropMaxima(s, k);
    DropMaximaSum(s, k);
    DropMaximaSplits(s, k);
    forall i | 0 <= i < |d| ensures d[i] >= 0 {
      assert d[i] in multiset(s);
    }
    forall i | 0 <= i < |kept| ensures kept[i] >= 0 {
      assert kept[i] in multiset(s);
    }
    SumNonNegative(d);
    SumNonNegative(kept);
  }

  lemma DroppedSumStep(s: seq<int>, k: nat)
    requires 0 < k <= |s|
    ensures Sum(Dropped(s, k)) == Sum(Dropped(s, k - 1)) + Max(DropMaxima(s, k - 1))
  {
    var m := Max(DropMaxima(s, k - 1));
    assert Dropped(s, k) == Dropped(s, k - 1) + [m];
    SumAppend(Dropped(s, k - 1), [m]);
    SumSingle(m);
  }

  lemma {:induction false} RemoveFirstMaxSum(s: seq<int>)
    requires |s| > 0
    ensures Sum(RemoveFirstMax(s)) == Sum(s) - Max(s)
  {
    var i := IndexOf(s, Max(s)).value;
    SumWithout(s, i);
  }

  lemma SumSingle(x: int)
    ensures Sum([x]) == x
  {
    assert [x][..0] == [];
  }

  /** Taking out entry i lowers the sum by that entry. */
  lemma {:induction false} SumWithout(s: seq<int>, i: nat)
    requires i < |s|
    ensures Sum(s[..i] + s[i + 1..]) == Sum(s) - s[i]
  {
    var front, back := s[..i], s[i + 1..];
    var mid := s[i..];
    assert front + mid == s;
    SumAppend(front, mid);
    SumFront(mid);
    assert mid[1..] == back;
    SumAppend(front, back);
  }

  /** The sum of a non-empty list is its head plus the sum of its tail. */
  lemma {:induction false} SumFront(s: seq<int>)
    requires |s| > 0
    ensures Sum(s) == s[0] + Sum(s[1..])
  {
    assert s == [s[0]] + s[1..];
    SumAppend([s[0]], s[1..]);
    assert [s[0]][..0] == [];
  }

  /** `sum([len(bombed_events[t]) for t in bombed_events])`, over the keys in dict order. */
  function BombedTotal<K>(b: map<K, seq<string>>, order: seq<K>): (r: int)
    requires forall i :: 0 <= i < |order| ==> order[i] in b
    ensures r >= 0
  {
    if |order| == 0 then 0
    else BombedTotal(b, order[..|order| - 1]) + |b[order[|order| - 1]]|
  }

  /** `{t: sum(scores[t]) for t in scores}`, in key order. */
  function Totals(order: seq<int>, fs: map<int, seq<int>>): (r: seq<(int, int)>)
    requires forall i :: 0 <= i < |order| ==> order[i] in fs
    ensures |r| == |order|
    ensures forall i :: 0 <= i < |order| ==> r[i] == (order[i], Sum(fs[order[i]]))
  {
    if |order| == 0 then []
    else Totals(order[..|order| - 1], fs) + [(order[|order| - 1], Sum(fs[order[|order| - 1]]))]
  }

  function TotalKey(p: (int, int)): real { p.1 as real }

  /**
   * The value `__handle_model` leaves for school `name` after visiting the
   * teams in `order`: it starts at `cap` and takes the minimum with the
   * total of every team of that school.
   */
  function SchoolBest(order: seq<int>, sums: map<int, int>, schoolOf: map<int, string>,
                      name: string, cap: int): int
    requires forall i :: 0 <= i < |order| ==> order[i] in sums && order[i] in schoolOf
  {
    if |order| == 0 then cap
    else
      var t := order[|order| - 1];
      var m := SchoolBest(order[..|order| - 1], sums, schoolOf, name, cap);
      if schoolOf[t] == name && sums[t] < m then sums[t] else m
  }

  /**
   * SchoolBest is the minimum of `cap` and the totals of the school's teams:
   * it is at most each of them, and it is one of them.
   */
  lemma {:induction false} SchoolBestIsMinimum(order: seq<int>, sums: map<int, int>,
                                               schoolOf: map<int, string>, name: string, cap: int)
    requires forall i :: 0 <= i < |order| ==> order[i] in sums && order[i] in schoolOf
    ensures SchoolBest(order, sums, schoolOf, name, cap) <= cap
    ensures forall t :: t in order && schoolOf[t] == name ==> SchoolBest(order, sums, schoolOf, name, cap) <= sums[t]
    ensures SchoolBest(order, sums, schoolOf, name, cap) == cap
            || exists t :: t in order && schoolOf[t] == name && SchoolBest(order, sums, schoolOf, name, cap) == sums[t]
  {
    if |order| > 0 {
      var init := order[..|order| - 1];
      assert order == init + [order[|order| - 1]];
      SchoolBestIsMinimum(init, sums, schoolOf, name, cap);
    }
  }

  /**
   * The loop of `ret_scores`: `{school: cap for school in names}`, then for
   * each team in order its school's entry becomes the smaller of itself and
   * the team's total.
   */
  method BestTotals(order: seq<int>, sums: map<int, int>, schoolOf: map<int, string>, names: seq<string>, cap: int)
    returns (best: map<string, int>)
    requires forall i :: 0 <= i < |order| ==> order[i] in sums && order[i] in schoolOf && schoolOf[order[i]] in names
    ensures forall x :: x in best <==> x in names
    ensures forall x :: x in best ==> best[x] == SchoolBest(order, sums, schoolOf, x, cap)
  {
    best := map x | x in names :: cap;
    var i := 0;
    while i < |order|
      invariant 0 <= i <= |order|
      invariant forall x :: x in best <==> x in names
      invariant forall x :: x in best ==> best[x] == SchoolBest(order[..i], sums, schoolOf, x, cap)
    {
      var t := order[i];
      var name := schoolOf[t];
      assert order[..i + 1][..i] == order[..i];
      best := best[name := if sums[t] < best[name] then sums[t] else best[name]];
      i := i + 1;
    }
    assert order[..i] == order;
  }

  /** The `method` argument: a rule name, or a number (what the subclasses pass in its place). */
  datatype MethodArg = Name(name: string) | Number(x: real)

  /** `{"std_deviation": ..., "mean": ..., "iqr": ...}[method]`. */
  function RuleOf(m: MethodArg): (r: Result<Detectors.Rule>)
    ensures r.Err? ==> r.error == KeyError
    ensures r.Ok? <==> m.Name? && (m.name == "std_deviation" || m.name == "mean" || m.name == "iqr")
    ensures m == Name("std_deviation") ==> r == Ok(Detectors.StdRule)
    ensures m == Name("mean") ==> r == Ok(Detectors.MeanRule)
    ensures m == Name("iqr") ==> r == Ok(Detectors.IqrRule)
  {
    match m
    case Number(_) => Err(KeyError)
    case Name(n) =>
      if n == "std_deviation" then Ok(Detectors.StdRule)
      else if n == "mean" then Ok(Detectors.MeanRule)
      else if n == "iqr" then Ok(Detectors.IqrRule)
      else Err(KeyError)
  }

  /** `alpha or 2`: a missing or zero alpha becomes 2. */
  function AlphaOf(a: Option<real>): (r: real)
    ensures r != 0.0
    ensures a.Some? && a.value != 0.0 ==> r == a.value
    ensures a.None? || a.value == 0.0 ==> r == 2.0
  {
    if a.None? || a.value == 0.0 then 2.0 else a.value
  }

  /** A placing finds its team by number. */
  function TeamOf(p: Placing): Result<int> { Ok(p.team) }

  /**
   * The loop of `method` for one rule, on a copy of `bombed_events`: each
   * placing of a team is looked up and, when flagged, its event is appended
   * to the team's list; the first failed lookup stops the loop.
   */
  method RunRule(d: Detectors.Detection<int>, b0: map<int, seq<string>>, ps: seq<Placing>)
    returns (b: map<int, seq<string>>, failure: Option<Error>)
    requires forall p :: d.keyOf(p) == Ok(p.team)
    requires forall t :: t in d.averages || t in d.fullScores ==> t in b0
    ensures Detectors.Run(d, b0, ps) == Detectors.Progress(b, failure)
  {
    b := b0;
    var i := 0;
    while i < |ps|
      invariant 0 <= i <= |ps|
      invariant b.Keys == b0.Keys
      invariant Detectors.Run(d, b0, ps[..i]) == Detectors.Progress(b, None)
    {
      assert ps[..i + 1][..i] == ps[..i];
      b, failure := RuleStep(d, b, ps[i]);
      if failure.Some? {
        Detectors.RunStopsAtFailure(d, b0, ps, i + 1);
        return;
      }
      i := i + 1;
    }
    assert ps[..i] == ps;
    failure := None;
  }

  /** One turn of RunRule's loop: decide for the placing's team and append its event when flagged. */
  method RuleStep(d: Detectors.Detection<int>, b0: map<int, seq<string>>, p: Placing)
    returns (b: map<int, seq<string>>, failure: Option<Error>)
    requires forall p :: d.keyOf(p) == Ok(p.team)
    requires forall t :: t in d.averages || t in d.fullScores ==> t in b0
    ensures b.Keys == b0.Keys
    ensures Detectors.Step(d, b0, p) == Detectors.Progress(b, failure)
  {
    var flag := Detectors.Flag(d, p.team, p);
    if flag.Err? {
      return b0, Some(flag.error);
    }
    b := b0;
    if flag.value {
      assert p.team in d.averages || p.team in d.fullScores;
      b := b0[p.team := b0[p.team] + [p.event]];
    }
    failure := None;
  }

  /** What the object relies on in the populated view and the school maps. */
  ghost predicate Ready(v: View, tws: map<int, string>, order: seq<string>)
  {
    && |v.teamNumbers| > 0
    && Distinct(v.teamNumbers)
    && (forall i :: 0 <= i < |v.teamNumbers| ==> v.teamNumbers[i] in v.teams && v.teamNumbers[i] in v.averages)
    && (forall i :: 0 <= i < |v.teamNumbers| ==> v.teamNumbers[i] in tws)
    && (forall t :: t in v.teams ==> t in v.teamNumbers)
    && (forall t :: t in v.averages ==> t in v.teamNumbers)
    && (forall t :: t in tws ==> t in v.teamNumbers)
    && |v.teams| == |v.teamNumbers|
    && (forall t :: t in tws ==> tws[t] in order)
    && Distinct(order)
    && (forall x :: x in order <==> x in v.teamNames)
  }

  /**
   * The loop of one drop round on a copy of the scores, in team order: the
   * first maximum leaves each list, and an empty list stops the round
   * (Python's `max` of an empty list raises ValueError).
   */
  method RemoveMaxEach(orig: map<int, seq<int>>, order: seq<int>) returns (scores: map<int, seq<int>>, failed: bool)
    requires Distinct(order) && forall t :: t in orig <==> t in order
    ensures scores.Keys == orig.Keys
    ensures failed <==> exists t :: t in orig && |orig[t]| == 0
    ensures !failed ==> forall t :: t in scores ==> |orig[t]| > 0 && scores[t] == RemoveFirstMax(orig[t])
  {
    scores := orig;
    var j := 0;
    while j < |order|
      invariant 0 <= j <= |order|
      invariant scores.Keys == orig.Keys
      invariant forall t :: t in orig && t in order[..j] ==> |orig[t]| > 0 && scores[t] == RemoveFirstMax(orig[t])
      invariant forall t :: t in orig && t !in order[..j] ==> scores[t] == orig[t]
    {
      var t := order[j];
      assert t !in order[..j];
      if |scores[t]| == 0 {
        return scores, true;
      }
      scores := scores[t := RemoveFirstMax(scores[t])];
      assert order[..j + 1] == order[..j] + [t];
      j := j + 1;
    }
    assert order[..j] == order;
    failed := false;
  }

  /**
   * `for _ in range(k): ...` on the lists: k rounds of RemoveMaxEach,
   * failing when some list has fewer than k entries.
   */
  method RemoveRounds(orig: map<int, seq<int>>, order: seq<int>, k: nat) returns (scores: map<int, seq<int>>, failed: bool)
    requires Distinct(order) && forall t :: t in orig <==> t in order
    ensures scores.Keys == orig.Keys
    ensures failed <==> exists t :: t in orig && |orig[t]| < k
    ensures !failed ==> forall t :: t in orig ==> k <= |orig[t]| && scores[t] == DropMaxima(orig[t], k)
  {
    scores := orig;
    var round := 0;
    while round < k
      invariant 0 <= round <= k
      invariant scores.Keys == orig.Keys
      invariant forall t :: t in orig ==> round <= |orig[t]|
      invariant forall t :: t in orig ==> scores[t] == DropMaxima(orig[t], round)
    {
      var before := scores;
      scores, failed := RemoveMaxEach(scores, order);
      if failed {
        var t :| t in before && |before[t]| == 0;
        assert t in orig && |orig[t]| < k;
        return;
      }
      round := round + 1;
    }
    failed := false;
  }

  class Drops {
    const view: View
    const rule: Detectors.Rule
    const alpha: real
    const averagedBombedEvents: real
    const teamsWithoutSuffix: map<int, string>
    const nonTrials: seq<string>
    const schoolOrder: seq<string>          // the iteration order of `team_names`
    var fullScores: map<int, seq<int>>      // the `full_scores` lists, which `drop` shortens in place
    var bombedEvents: map<int, seq<string>>
    var dropped: bool
    var droppedScores: seq<(int, int)>      // `dropped_scores`, an ordered dict of team totals
    var toDrop: int
    var retScores: seq<(string, int)>       // `_ret_scores`, an ordered dict of school scores

    ghost predicate Valid()
      reads this`fullScores, this`bombedEvents
    {
      && Ready(view, teamsWithoutSuffix, schoolOrder)
      && (forall i :: 0 <= i < |view.teamNumbers| ==>
            view.teamNumbers[i] in fullScores && view.teamNumbers[i] in bombedEvents)
      && (forall t :: t in fullScores ==> t in view.teamNumbers)
      && (forall t :: t in bombedEvents ==> t in view.teamNumbers)
      && nonTrials == NonTrial(view.events, view.trialEvents)
    }

    /** The rule as configured, applied to the current `full_scores`. */
    function Det(r: Detectors.Rule): Detectors.Detection<int>
      reads this`fullScores
    {
      Detectors.Detection(r, alpha, |view.teams|, view.trialEvents, view.averages, fullScores, TeamOf)
    }

    constructor Init(v: View, r: Detectors.Rule, a: real, tws: map<int, string>, order: seq<string>)
      requires Ready(v, tws, order)
      requires forall i :: 0 <= i < |v.teamNumbers| ==> v.teamNumbers[i] in v.fullScores
      requires forall t :: t in v.fullScores ==> t in v.teamNumbers
      ensures Valid()
      ensures view == v && rule == r && alpha == a && teamsWithoutSuffix == tws && schoolOrder == order
      ensures averagedBombedEvents == 0.0
      ensures nonTrials == NonTrial(v.events, v.trialEvents)
      ensures fullScores == v.fullScores
      ensures bombedEvents == map t | t in v.teams :: []
      ensures !dropped && droppedScores == [] && toDrop == 0 && retScores == []
    {
      view := v;
      rule := r;
      alpha := a;
      averagedBombedEvents := 0.0;
      teamsWithoutSuffix := tws;
      nonTrials := NonTrial(v.events, v.trialEvents);
      schoolOrder := order;
      fullScores := v.fullScores;
      bombedEvents := map t | t in v.teams :: [];
      dropped := false;
      droppedScores := [];
      toDrop := 0;
      retScores := [];
    }

    /**
     * `Drops(file, method, alpha)` on loaded data: `_populate` (KeyError for
     * a scored placing of an unknown team), then the rule lookup (KeyError for
     * any other method, including the number the subclasses pass), then the
     * average number of bombed events per team (ZeroDivisionError without teams).
     */
    static method New(raw: RawData, m: MethodArg, a: Option<real>) returns (res: Result<Drops>)
      ensures res.Err? <==> UnknownScoredTeam(raw) || RuleOf(m).Err? || |raw.teams| == 0
      ensures res.Err? ==> res.error == (if UnknownScoredTeam(raw) || RuleOf(m).Err? then KeyError else ZeroDivisionError)
      ensures res.Ok? ==> fresh(res.value) && res.value.Built(raw, RuleOf(m).value, AlphaOf(a))
    {
      var pr := Populate(raw);
      if pr.Err? {
        return Err(pr.error);
      }
      var v := pr.value;
      assert TeamFieldsFrom(raw, v);
      assert v.averages.Keys == v.teams.Keys && v.fullScores.Keys == v.teams.Keys by {
        assert ScoreFieldsFrom(raw, v);
      }
      res := Configure(raw, v, m, a);
    }

    /**
     * `self._method()`: a rule's loop over `raw_placements`,
     * appending each flagged placing's event to its team's list and stopping
     * at the first exception.
     */
    method Detect(r: Detectors.Rule) returns (failure: Option<Error>)
      requires Valid()
      modifies this`bombedEvents
      ensures Valid()
      ensures Detectors.Run(Det(r), old(bombedEvents), view.rawPlacements) == Detectors.Progress(bombedEvents, failure)
    {
      Detectors.RunKeys(Det(r), bombedEvents, view.rawPlacements);
      bombedEvents, failure := RunRule(Det(r), bombedEvents, view.rawPlacements);
    }

    /**
     * `method` of the subclasses Mean, Iqr and StdDeviation: the same loop
     * with the subclass's own rule, then `super().method()`, which `Drops`
     * does not define, so a loop that does not fail ends in AttributeError.
     */
    method SubclassMethod(r: Detectors.Rule) returns (failure: Option<Error>)
      requires Valid()
      modifies this`bombedEvents
      ensures Valid()
      ensures failure.Some?
      ensures var run := Detectors.Run(Det(r), old(bombedEvents), view.rawPlacements);
        && bombedEvents == run.bombed
        && failure == if run.failure.Some? then run.failure else Some(AttributeError)
    {
      failure := Detect(r);
      if failure.None? {
        failure := Some(AttributeError);
      }
    }

    /**
     * `drop()`: runs the rule, sets `to_drop` to the rounded average number
     * of bombed events per team, removes that many maxima from every team's
     * list in place (ValueError, from `max([])`, when a list runs out), and
     * stores the teams' remaining totals sorted ascending.
     */
    method Drop() returns (failure: Option<Error>)
      requires Valid()
      modifies this`bombedEvents, this`fullScores, this`toDrop, this`droppedScores, this`dropped
      ensures Valid()
      ensures var run := Detectors.Run(old(Det(rule)), old(bombedEvents), view.rawPlacements);
        && bombedEvents == run.bombed
        && (run.failure.Some? ==>
              && failure == run.failure && fullScores == old(fullScores)
              && toDrop == old(toDrop) && droppedScores == old(droppedScores) && dropped == old(dropped))
        && (run.failure.None? ==>
              && toDrop == Stats.RoundHalfEven(BombedTotal(bombedEvents, view.teamNumbers), |view.teams|)
              && (failure.Some? <==> exists t :: t in old(fullScores) && |old(fullScores)[t]| < toDrop)
              && (failure.Some? ==> failure == Some(ValueError)))
      ensures failure.Some? ==> droppedScores == old(droppedScores) && dropped == old(dropped)
      ensures failure.None? ==>
        && dropped
        && (forall t :: t in fullScores ==> toDrop <= |old(fullScores)[t]| && fullScores[t] == DropMaxima(old(fullScores)[t], toDrop))
        && droppedScores == StableSort.Sort(Totals(view.teamNumbers, fullScores), TotalKey)
    {
      failure := Detect(rule);
      if failure.Some? {
        return;
      }
      failure := DropCounted();
    }

    /** The part of `drop()` after the rule has run, on the `bombed_events` it left. */
    method DropCounted() returns (failure: Option<Error>)
      requires Valid()
      modifies this`fullScores, this`toDrop, this`droppedScores, this`dropped
      ensures Valid()
      ensures toDrop == Stats.RoundHalfEven(BombedTotal(bombedEvents, view.teamNumbers), |view.teams|)
      ensures failure.Some? <==> exists t :: t in old(fullScores) && |old(fullScores)[t]| < toDrop
      ensures failure.Some? ==> failure == Some(ValueError) && droppedScores == old(droppedScores) && dropped == old(dropped)
      ensures failure.None? ==>
        && dropped
        && (forall t :: t in fullScores ==> toDrop <= |old(fullScores)[t]| && fullScores[t] == DropMaxima(old(fullScores)[t], toDrop))
        && droppedScores == StableSort.Sort(Totals(view.teamNumbers, fullScores), TotalKey)
    {
      toDrop := Stats.RoundHalfEven(BombedTotal(bombedEvents, view.teamNumbers), |view.teams|);
      failure := RemoveMaxima(toDrop);
      if failure.Some? {
        return;
      }
      StoreDropped();
    }

    /** `self.dropped_scores = dict(sorted(score_with_drops.items(), ...))`, then `self.__dropped = True`. */
    method StoreDropped()
      requires forall i :: 0 <= i < |view.teamNumbers| ==> view.teamNumbers[i] in fullScores
      modifies this`droppedScores, this`dropped
      ensures dropped && droppedScores == StableSort.Sort(Totals(view.teamNumbers, fullScores), TotalKey)
    {
      droppedScores := StableSort.Sort(Totals(view.teamNumbers, fullScores), TotalKey);
      dropped := true;
    }

    /** `for _ in range(k): ...`: k rounds of taking every team's maximum out (see RemoveRounds). */
    method RemoveMaxima(k: int) returns (failure: Option<Error>)
      requires Valid() && k >= 0
      modifies this`fullScores
      ensures Valid()
      ensures failure.Some? <==> exists t :: t in old(fullScores) && |old(fullScores)[t]| < k
      ensures failure.Some? ==> failure == Some(ValueError)
      ensures failure.None? ==>
        forall t :: t in fullScores ==> k <= |old(fullScores)[t]| && fullScores[t] == DropMaxima(old(fullScores)[t], k)
    {
      var scores, failed := RemoveRounds(fullScores, view.teamNumbers, k);
      fullScores := scores;
      failure := if failed then Some(ValueError) else None;
    }

    /**
     * The `ret_scores` property: every school starts at the number of scored
     * events times the number of teams and takes the minimum with each of its
     * teams' current totals; the result is stored, then NotImplementedError
     * is raised if `drop()` has not completed, else the schools are returned
     * sorted ascending by that value.
     */
    method RetScores() returns (r: Result<seq<(string, int)>>)
      requires Valid()
      modifies this`retScores
      ensures Valid()
      ensures |retScores| == |schoolOrder|
      ensures forall i :: 0 <= i < |schoolOrder| ==>
        retScores[i] == (schoolOrder[i], SchoolBest(view.teamNumbers, SumsOf(fullScores), teamsWithoutSuffix,
                                                    schoolOrder[i], |nonTrials| * |view.teams|))
      ensures !dropped ==> r == Err(NotImplementedError)
      ensures dropped ==> r == Ok(StableSort.Sort(retScores, SchoolKey))
    {
      var cap := |nonTrials| * |view.teams|;
      var order, sums := view.teamNumbers, SumsOf(fullScores);
      forall i | 0 <= i < |order|
        ensures order[i] in sums && order[i] in teamsWithoutSuffix && teamsWithoutSuffix[order[i]] in schoolOrder
      {
        var t := order[i];
        assert t in fullScores && t in teamsWithoutSuffix;
        assert Ready(view, teamsWithoutSuffix, schoolOrder);
        assert teamsWithoutSuffix[t] in schoolOrder;
      }
      var best := BestTotals(order, sums, teamsWithoutSuffix, schoolOrder, cap);
      retScores := Entries(schoolOrder, best);
      if !dropped {
        return Err(NotImplementedError);
      }
      r := Ok(StableSort.Sort(retScores, SchoolKey));
    }

    /** Valid, populated from `raw` and in its initial state. */
    ghost predicate Built(raw: RawData, r: Detectors.Rule, a: real)
      reads this
    {
      Valid() && PopulatedFrom(raw, view) && Initial(r, a)
    }

    /** The state right after construction. */
    ghost predicate Initial(r: Detectors.Rule, a: real)
      reads this
    {
      && rule == r && alpha == a
      && fullScores == view.fullScores && averagedBombedEvents == 0.0
      && (forall t :: t in bombedEvents ==> bombedEvents[t] == [])
      && !dropped && droppedScores == [] && toDrop == 0 && retScores == []
    }

    /** The part of the constructor after `_populate`. */
    static method Configure(raw: RawData, v: View, m: MethodArg, a: Option<real>) returns (res: Result<Drops>)
      requires TeamFieldsFrom(raw, v)
      requires v.averages.Keys == v.teams.Keys && v.fullScores.Keys == v.teams.Keys
      ensures res.Err? <==> RuleOf(m).Err? || |raw.teams| == 0
      ensures res.Err? ==> res.error == (if RuleOf(m).Err? then KeyError else ZeroDivisionError)
      ensures res.Ok? ==> fresh(res.value) && res.value.Valid() && res.value.view == v
      ensures res.Ok? ==> res.value.Initial(RuleOf(m).value, AlphaOf(a))
    {
      var rr := RuleOf(m);
      if rr.Err? {
        return Err(rr.error);
      }
      TeamsPresent(raw, v);
      if |v.teams| == 0 {
        return Err(ZeroDivisionError);
      }
      var tws := KeyedByNumber(v.teamsData, School);
      var order := SchoolOrder(v.teamsData);
      ViewReady(raw, v);
      var d := new Drops.Init(v, rr.value, AlphaOf(a), tws, order);
      res := Ok(d);
    }
  }

  /** A populated view with at least one team is ready for the drop model. */
  lemma ViewReady(raw: RawData, v: View)
    requires TeamFieldsFrom(raw, v) && v.averages.Keys == v.teams.Keys && |raw.teams| > 0
    requires v.fullScores.Keys == v.teams.Keys
    ensures Ready(v, KeyedByNumber(v.teamsData, School), SchoolOrder(v.teamsData))
    ensures forall i :: 0 <= i < |v.teamNumbers| ==> v.teamNumbers[i] in v.fullScores
    ensures forall t :: t in v.fullScores ==> t in v.teamNumbers
  {
    TeamsPresent(raw, v);
    NumbersReady(raw, v);
    SchoolsReady(raw, v);
  }

  lemma NumbersReady(raw: RawData, v: View)
    requires TeamFieldsFrom(raw, v) && v.averages.Keys == v.teams.Keys && |raw.teams| > 0
    ensures |v.teamNumbers| > 0 && Distinct(v.teamNumbers)
    ensures forall i :: 0 <= i < |v.teamNumbers| ==> v.teamNumbers[i] in v.teams && v.teamNumbers[i] in v.averages
    ensures forall t :: t in v.teams ==> t in v.teamNumbers
    ensures forall t :: t in v.averages ==> t in v.teamNumbers
  {
    TeamsPresent(raw, v);
  }

  lemma SchoolsReady(raw: RawData, v: View)
    requires TeamFieldsFrom(raw, v)
    ensures var tws := KeyedByNumber(v.teamsData, School);
      && (forall i :: 0 <= i < |v.teamNumbers| ==> v.teamNumbers[i] in tws)
      && (forall t :: t in tws ==> t in v.teamNumbers)
      && (forall t :: t in tws ==> tws[t] in SchoolOrder(v.teamsData))
      && Distinct(SchoolOrder(v.teamsData))
      && (forall x :: x in SchoolOrder(v.teamsData) <==> x in v.teamNames)
  {
    SchoolKeys(raw, v);
    SchoolNames(raw, v);
    SchoolOfTeam(v);
  }

  lemma SchoolKeys(raw: RawData, v: View)
    requires TeamFieldsFrom(raw, v)
    ensures forall t :: t in KeyedByNumber(v.teamsData, School) <==> t in v.teamNumbers
  {
    TeamsPresent(raw, v);
    var tws := KeyedByNumber(v.teamsData, School);
    forall k ensures k in tws <==> k in v.teamNumbers {
      assert k in tws <==> k in Numbers(v.teamsData);
    }
  }

  lemma SchoolNames(raw: RawData, v: View)
    requires TeamFieldsFrom(raw, v)
    ensures forall x :: x in SchoolOrder(v.teamsData) <==> x in v.teamNames
  {
    SchoolsPresent(raw.teams);
  }

  /** The team dict is empty exactly when there are no team records, and its keys are the numbers. */
  lemma TeamsPresent(raw: RawData, v: View)
    requires TeamFieldsFrom(raw, v)
    ensures |v.teams| == 0 <==> |raw.teams| == 0
    ensures Distinct(v.teamNumbers) && v.teams.Keys == (set t | t in v.teamNumbers)
    ensures |v.teamNumbers| == 0 <==> |raw.teams| == 0
    ensures forall k :: k in Numbers(v.teamsData) <==> k in v.teamNumbers
  {
    TeamKeys(raw.teams);
    if |raw.teams| > 0 {
      assert Numbers(raw.teams)[0] in Numbers(raw.teams);
    }
  }

}
