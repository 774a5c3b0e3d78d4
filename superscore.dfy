/**
 * The super-score model (class `SuperScoreModel`): every school keeps, for
 * each scored event, the best place any of its teams took there, and its
 * super score is the sum of those best places (lower is better).
 */
module SuperScore {
  import opened Common
  import opened Results
  import StableSort

  /**
   * What the `_aggregate_scores` loop consults: each team's school
   * (`teams_without_suffix`), the trial events, the scored events in order
   * (`_non_trials`) and the place a placing without one counts as.
   */
  datatype Context = Context(tws: map<int, string>, trial: seq<string>, nonTrials: seq<string>, missing: int)

  /** One list of `slots` entries, all `missing`, per school name. */
  function Blank(names: set<string>, slots: nat, missing: int): (m: map<string, seq<int>>)
    ensures m.Keys == names
    ensures forall s :: s in m ==> |m[s]| == slots
    ensures forall s, k :: s in m && 0 <= k < slots ==> m[s][k] == missing
  {
    map s | s in names :: seq(slots, _ => missing)
  }

  /**
   * One iteration of the `_aggregate_scores` loop. The school of the team is
   * looked up first (KeyError for an unknown team number); a trial placing
   * changes nothing; otherwise the right-hand side `min(data[school][i], place)`
   * is evaluated left to right: the school's list (KeyError), the index of the
   * event among the scored events (`list.index`, ValueError when absent), the
   * entry (IndexError). The entry becomes the place when that is smaller.
   */
  function Place(c: Context, data: map<string, seq<int>>, p: Placing): (r: Result<map<string, seq<int>>>)
    ensures r.Ok? ==> r.value.Keys == data.Keys && forall s :: s in data ==> |r.value[s]| == |data[s]|
    ensures r.Err? ==> r.error == KeyError || r.error == ValueError || r.error == IndexError
  {
    if p.team !in c.tws then Err(KeyError)
    else if p.event in c.trial then Ok(data)
    else
      var s := c.tws[p.team];
      if s !in data then Err(KeyError)
      else match IndexOf(c.nonTrials, p.event)
        case None => Err(ValueError)
        case Some(k) =>
          if k >= |data[s]| then Err(IndexError)
          else
            var place := EffectivePlace(p, c.missing);
            Ok(data[s := data[s][k := if place < data[s][k] then place else data[s][k]]])
  }

  /** The body of the `_aggregate_scores` loop, statement by statement. */
  method PlaceOne(c: Context, data: map<string, seq<int>>, p: Placing) returns (r: Result<map<string, seq<int>>>)
    ensures r == Place(c, data, p)
  {
    if p.team !in c.tws {
      return Err(KeyError);
    }
    var school := c.tws[p.team];
    if p.event in c.trial {
      return Ok(data);
    }
    if school !in data {
      return Err(KeyError);
    }
    var k := IndexOf(c.nonTrials, p.event);
    if k.None? {
      return Err(ValueError);
    }
    if k.value >= |data[school]| {
      return Err(IndexError);
    }
    var place := EffectivePlace(p, c.missing);
    var best := if place < data[school][k.value] then place else data[school][k.value];
    r := Ok(data[school := data[school][k.value := best]]);
  }

  /** The whole loop over the placings, stopping at the first exception. */
  function Aggregate(c: Context, ps: seq<Placing>, init: map<string, seq<int>>): (r: Result<map<string, seq<int>>>)
    ensures r.Ok? ==> r.value.Keys == init.Keys && forall s :: s in init ==> |r.value[s]| == |init[s]|
    ensures r.Err? ==> r.error == KeyError || r.error == ValueError || r.error == IndexError
  {
    if |ps| == 0 then Ok(init)
    else match Aggregate(c, ps[..|ps| - 1], init)
      case Err(e) => Err(e)
      case Ok(data) => Place(c, data, ps[|ps| - 1])
  }

  /** The exception a placing raises in the loop once the school lists fit (see Fits). */
  function Fault(c: Context, p: Placing): (r: Option<Error>)
    ensures r.Some? <==> p.team !in c.tws || (p.event !in c.trial && p.event !in c.nonTrials)
    ensures r.Some? ==> r.value == (if p.team !in c.tws then KeyError else ValueError)
  {
    if p.team !in c.tws then Some(KeyError)
    else if p.event !in c.trial && p.event !in c.nonTrials then Some(ValueError)
    else None
  }

  /** Every school a team maps to has a list, with a slot for every scored event. */
  ghost predicate Fits(c: Context, data: map<string, seq<int>>)
  {
    && (forall t :: t in c.tws ==> c.tws[t] in data)
    && (forall s :: s in data ==> |data[s]| >= |c.nonTrials|)
  }

  /** Placing p counts towards slot k of school s. */
  predicate Counts(c: Context, p: Placing, s: string, k: nat)
  {
    && p.team in c.tws && c.tws[p.team] == s
    && p.event !in c.trial
    && IndexOf(c.nonTrials, p.event) == Some(k)
  }

  /** `cap`, lowered to the place of every placing in ps that counts towards slot k of s. */
  function BestPlace(c: Context, ps: seq<Placing>, s: string, k: nat, cap: int): int
  {
    if |ps| == 0 then cap
    else
      var m := BestPlace(c, ps[..|ps| - 1], s, k, cap);
      var p := ps[|ps| - 1];
      if Counts(c, p, s, k) && EffectivePlace(p, c.missing) < m then EffectivePlace(p, c.missing) else m
  }

  /**
   * BestPlace is the minimum of `cap` and the places of the placings that
   * count: at most each of them, and equal to one of them.
   */
  lemma {:induction false} BestPlaceIsMinimum(c: Context, ps: seq<Placing>, s: string, k: nat, cap: int)
    ensures BestPlace(c, ps, s, k, cap) <= cap
    ensures forall i :: 0 <= i < |ps| && Counts(c, ps[i], s, k) ==> BestPlace(c, ps, s, k, cap) <= EffectivePlace(ps[i], c.missing)
    ensures BestPlace(c, ps, s, k, cap) == cap
            || exists i :: 0 <= i < |ps| && Counts(c, ps[i], s, k) && BestPlace(c, ps, s, k, cap) == EffectivePlace(ps[i], c.missing)
  {
    if |ps| > 0 {
      var init := ps[..|ps| - 1];
      BestPlaceIsMinimum(c, init, s, k, cap);
      assert forall i :: 0 <= i < |init| ==> init[i] == ps[i];
    }
  }

  /** One more placing never raises a best place. */
  lemma BestPlaceAntitone(c: Context, ps: seq<Placing>, p: Placing, s: string, k: nat, cap: int)
    ensures BestPlace(c, ps + [p], s, k, cap) <= BestPlace(c, ps, s, k, cap)
  {
    assert (ps + [p])[..|ps|] == ps;
  }

  /** Place raises exactly the exception Fault names, once the lists fit. */
  lemma PlaceFault(c: Context, data: map<string, seq<int>>, p: Placing)
    requires Fits(c, data)
    ensures Place(c, data, p).Err? <==> Fault(c, p).Some?
    ensures Place(c, data, p).Err? ==> Fault(c, p) == Some(Place(c, data, p).error)
  {
    if p.team in c.tws && p.event !in c.trial {
      var s := c.tws[p.team];
      assert s in data;
      match IndexOf(c.nonTrials, p.event)
      case None =>
      case Some(k) => assert k < |c.nonTrials| <= |data[s]|;
    }
  }

  /** The entry a successful Place leaves in slot k of school s. */
  lemma PlaceValue(c: Context, data: map<string, seq<int>>, p: Placing, s: string, k: nat)
    requires Place(c, data, p).Ok? && s in data && k < |data[s]|
    ensures Place(c, data, p).value[s][k]
            == if Counts(c, p, s, k) && EffectivePlace(p, c.missing) < data[s][k] then EffectivePlace(p, c.missing) else data[s][k]
  {
  }

  /**
   * The loop fails exactly when some placing has a fault, and then with the
   * exception of the first such placing.
   */
  lemma {:induction false} AggregateFaults(c: Context, ps: seq<Placing>, init: map<string, seq<int>>)
    requires Fits(c, init)
    ensures Aggregate(c, ps, init).Ok? <==> forall i :: 0 <= i < |ps| ==> Fault(c, ps[i]).None?
    ensures Aggregate(c, ps, init).Err? ==> FirstFault(c, ps, Aggregate(c, ps, init).error)
  {
    if |ps| > 0 {
      var prefix := ps[..|ps| - 1];
      AggregateFaults(c, prefix, init);
      var r := Aggregate(c, prefix, init);
      if r.Err? {
        PrefixFault(c, ps, r.error);
      } else {
        LastFault(c, ps, r.value);
      }
    }
  }

  /** A fault of the prefix is a first fault of the whole list. */
  lemma PrefixFault(c: Context, ps: seq<Placing>, e: Error)
    requires |ps| > 0 && FirstFault(c, ps[..|ps| - 1], e)
    ensures FirstFault(c, ps, e)
    ensures !forall i :: 0 <= i < |ps| ==> Fault(c, ps[i]).None?
  {
    var prefix := ps[..|ps| - 1];
    var i :| 0 <= i < |prefix| && Fault(c, prefix[i]) == Some(e)
             && forall j :: 0 <= j < i ==> Fault(c, prefix[j]).None?;
    assert ps[i] == prefix[i];
    forall j | 0 <= j < i ensures Fault(c, ps[j]).None? {
      assert ps[j] == prefix[j];
    }
    assert Fault(c, ps[i]) == Some(e);
  }

  /** With a fault-free prefix, the last placing decides. */
  lemma LastFault(c: Context, ps: seq<Placing>, m: map<string, seq<int>>)
    requires |ps| > 0 && Fits(c, m)
    requires forall i :: 0 <= i < |ps| - 1 ==> Fault(c, ps[i]).None?
    ensures Place(c, m, ps[|ps| - 1]).Ok? <==> forall i :: 0 <= i < |ps| ==> Fault(c, ps[i]).None?
    ensures Place(c, m, ps[|ps| - 1]).Err? ==> FirstFault(c, ps, Place(c, m, ps[|ps| - 1]).error)
  {
    PlaceFault(c, m, ps[|ps| - 1]);
  }

  /** Some placing of ps has fault e, and no earlier one has any. */
  ghost predicate FirstFault(c: Context, ps: seq<Placing>, e: Error)
  {
    exists i :: 0 <= i < |ps| && Fault(c, ps[i]) == Some(e) && forall j :: 0 <= j < i ==> Fault(c, ps[j]).None?
  }

  /** Once the loop has failed on a prefix, later placings are never reached. */
  lemma {:induction false} AggregateStops(c: Context, ps: seq<Placing>, init: map<string, seq<int>>, j: nat)
    requires j <= |ps| && Aggregate(c, ps[..j], init).Err?
    ensures Aggregate(c, ps, init) == Aggregate(c, ps[..j], init)
  {
    if j < |ps| {
      var prefix := ps[..|ps| - 1];
      assert prefix[..j] == ps[..j];
      AggregateStops(c, prefix, init, j);
    } else {
      assert ps[..j] == ps;
    }
  }

  /**
   * On success every slot holds the best place of the school in that event:
   * the starting entry lowered by every placing that counts towards it.
   */
  lemma {:induction false} AggregateIsBest(c: Context, ps: seq<Placing>, init: map<string, seq<int>>)
    requires Aggregate(c, ps, init).Ok?
    ensures forall s, k :: s in init && 0 <= k < |init[s]| ==>
              Aggregate(c, ps, init).value[s][k] == BestPlace(c, ps, s, k, init[s][k])
  {
    if |ps| > 0 {
      var init' := ps[..|ps| - 1];
      var p := ps[|ps| - 1];
      var data := Aggregate(c, init', init).value;
      AggregateIsBest(c, init', init);
      forall s, k | s in init && 0 <= k < |init[s]|
        ensures Aggregate(c, ps, init).value[s][k] == BestPlace(c, ps, s, k, init[s][k])
      {
        PlaceValue(c, data, p, s, k);
      }
    }
  }

  /** Reordering the placings gives the same best place: it depends only on which placings count. */
  lemma BestPlaceOrderFree(c: Context, ps: seq<Placing>, qs: seq<Placing>, s: string, k: nat, cap: int)
    requires multiset(ps) == multiset(qs)
    ensures BestPlace(c, ps, s, k, cap) == BestPlace(c, qs, s, k, cap)
  {
    BestPlaceNoHigher(c, ps, qs, s, k, cap);
    BestPlaceNoHigher(c, qs, ps, s, k, cap);
  }

  /** The best place over qs is at most the one over ps when qs holds every placing of ps. */
  lemma BestPlaceNoHigher(c: Context, ps: seq<Placing>, qs: seq<Placing>, s: string, k: nat, cap: int)
    requires multiset(ps) == multiset(qs)
    ensures BestPlace(c, qs, s, k, cap) <= BestPlace(c, ps, s, k, cap)
  {
    BestPlaceIsMinimum(c, ps, s, k, cap);
    BestPlaceIsMinimum(c, qs, s, k, cap);
    var x := BestPlace(c, ps, s, k, cap);
    if x != cap {
      var i :| 0 <= i < |ps| && Counts(c, ps[i], s, k) && x == EffectivePlace(ps[i], c.missing);
      assert ps[i] in multiset(qs);
      var j :| 0 <= j < |qs| && qs[j] == ps[i];
    }
  }

  /**
   * The loop's outcome does not depend on the order of the placings: it
   * fails for one order exactly when it fails for the other, and otherwise
   * leaves the same lists.
   */
  lemma AggregateOrderFree(c: Context, ps: seq<Placing>, qs: seq<Placing>, init: map<string, seq<int>>)
    requires Fits(c, init) && multiset(ps) == multiset(qs)
    ensures Aggregate(c, ps, init).Ok? <==> Aggregate(c, qs, init).Ok?
    ensures Aggregate(c, ps, init).Ok? ==> Aggregate(c, ps, init).value == Aggregate(c, qs, init).value
  {
    AggregateFaults(c, ps, init);
    AggregateFaults(c, qs, init);
    if forall i :: 0 <= i < |ps| ==> Fault(c, ps[i]).None? {
      FaultFreeOrderFree(c, ps, qs);
    }
    if forall j :: 0 <= j < |qs| ==> Fault(c, qs[j]).None? {
      FaultFreeOrderFree(c, qs, ps);
    }
    if Aggregate(c, ps, init).Ok? {
      var a, b := Aggregate(c, ps, init).value, Aggregate(c, qs, init).value;
      AggregateIsBest(c, ps, init);
      AggregateIsBest(c, qs, init);
      forall s | s in init ensures a[s] == b[s] {
        forall k | 0 <= k < |init[s]| ensures a[s][k] == b[s][k] {
          BestPlaceOrderFree(c, ps, qs, s, k, init[s][k]);
        }
      }
      assert a.Keys == b.Keys;
    }
  }

  /** When no placing of ps has a fault, neither has any placing of a reordering of ps. */
  lemma FaultFreeOrderFree(c: Context, ps: seq<Placing>, qs: seq<Placing>)
    requires multiset(ps) == multiset(qs)
    requires forall i :: 0 <= i < |ps| ==> Fault(c, ps[i]).None?
    ensures forall j :: 0 <= j < |qs| ==> Fault(c, qs[j]).None?
  {
    forall j | 0 <= j < |qs| ensures Fault(c, qs[j]).None? {
      assert qs[j] in multiset(ps);
      var i :| 0 <= i < |ps| && ps[i] == qs[j];
    }
  }

  /** Every name in order has a list in data. */
  predicate Covers(order: seq<string>, data: map<string, seq<int>>)
  {
    forall i :: 0 <= i < |order| ==> order[i] in data
  }

  /** `{t: np.sum(data[t]) for t in team_names}` as a map. */
  function Totals(data: map<string, seq<int>>): (m: map<string, int>)
    ensures m.Keys == data.Keys && forall s :: s in m ==> m[s] == Sum(data[s])
  {
    map s | s in data :: Sum(data[s])
  }

  /**
   * Starting from the blank lists, a school's super score is at most
   * `slots * missing`, and in each slot it is no worse than any of its teams'
   * places in that event.
   */
  lemma SuperScoreBounded(c: Context, ps: seq<Placing>, names: set<string>, slots: nat, s: string)
    requires Aggregate(c, ps, Blank(names, slots, c.missing)).Ok? && s in names
    ensures Totals(Aggregate(c, ps, Blank(names, slots, c.missing)).value)[s] <= slots * c.missing
    ensures forall k, i :: 0 <= k < slots && 0 <= i < |ps| && Counts(c, ps[i], s, k) ==>
              Aggregate(c, ps, Blank(names, slots, c.missing)).value[s][k] <= EffectivePlace(ps[i], c.missing)
  {
    var init := Blank(names, slots, c.missing);
    var data := Aggregate(c, ps, init).value;
    AggregateIsBest(c, ps, init);
    forall k | 0 <= k < slots
      ensures data[s][k] == BestPlace(c, ps, s, k, c.missing)
      ensures data[s][k] <= c.missing
      ensures forall i :: 0 <= i < |ps| && Counts(c, ps[i], s, k) ==> data[s][k] <= EffectivePlace(ps[i], c.missing)
    {
      BestPlaceIsMinimum(c, ps, s, k, c.missing);
    }
    SumBounded(data[s], c.missing);
  }

  /** Every trial event record is left out of the scored list, so it has no more names than there are slots. */
  lemma {:induction false} NonTrialCount(es: seq<EventRecord>, trial: seq<string>)
    requires forall i :: 0 <= i < |es| && es[i].trial ==> es[i].name in trial
    ensures |NonTrial(EventNames(es), trial)| + |TrialNames(es)| <= |es|
  {
    if |es| > 0 {
      var init := es[..|es| - 1];
      var last := es[|es| - 1];
      assert forall i :: 0 <= i < |init| ==> init[i] == es[i];
      NonTrialCount(init, trial);
      var names := EventNames(es);
      assert names[..|names| - 1] == EventNames(init);
      assert names[|names| - 1] == last.name;
    }
  }

  /** The context `_populate` derives from the loaded lists. */
  function ContextOf(raw: RawData): Context
  {
    var sorted := StableSort.Sort(raw.teams, NumberKey);
    var trial := TrialNames(raw.events);
    Context(KeyedByNumber(sorted, School), trial, NonTrial(EventNames(raw.events), trial),
            |KeyedByNumber(sorted, DisplayName)| + 1)
  }

  /** `{t: [len(teams) + 1] * (len(events) - len(trial_events)) for t in team_names}`. */
  function BlankOf(raw: RawData): map<string, seq<int>>
  {
    Blank(Schools(raw.teams), |raw.events| - |TrialNames(raw.events)|, ContextOf(raw).missing)
  }

  /** The blank lists fit the context: every team's school has one, long enough. */
  lemma BlankFits(raw: RawData)
    ensures Fits(ContextOf(raw), BlankOf(raw))
  {
    var c := ContextOf(raw);
    var sorted := StableSort.Sort(raw.teams, NumberKey);
    forall t | t in c.tws ensures c.tws[t] in Schools(raw.teams) {
      KeyedByNumberLastWins(sorted, School, t);
      SchoolsPresent(raw.teams);
    }
    NonTrialCount(raw.events, TrialNames(raw.events));
  }

  /** The context the object builds from its populated view. */
  function ContextOfView(v: View): Context
  {
    Context(KeyedByNumber(v.teamsData, School), v.trialEvents, NonTrial(v.events, v.trialEvents), |v.teams| + 1)
  }

  /** The blank lists the object builds from its populated view. */
  function BlankOfView(v: View): map<string, seq<int>>
    requires |v.events| >= |v.trialEvents|
  {
    Blank(v.teamNames, |v.events| - |v.trialEvents|, |v.teams| + 1)
  }

  /**
   * The populated view yields the same context, blank lists and school
   * names as the loaded lists do.
   */
  lemma ViewMatchesRaw(raw: RawData, v: View)
    requires PopulatedFrom(raw, v)
    ensures |v.events| >= |v.trialEvents|
    ensures ContextOfView(v) == ContextOf(raw) && BlankOfView(v) == BlankOf(raw)
    ensures v.rawPlacements == raw.placings
    ensures forall x :: x in SchoolOrder(v.teamsData) <==> x in v.teamNames
    ensures |SchoolOrder(v.teamsData)| > 0 <==> |raw.teams| > 0
  {
    assert ScoreFieldsFrom(raw, v);
    assert EventFieldsFrom(raw, v);
    assert TeamFieldsFrom(raw, v);
    assert |v.events| - |v.trialEvents| == |raw.events| - |TrialNames(raw.events)|;
    assert |v.teams| + 1 == ContextOf(raw).missing;
    SameBlank(raw, v);
    SchoolsPresent(raw.teams);
    if |raw.teams| > 0 {
      assert raw.teams[0].school in Schools(raw.teams);
    }
  }

  lemma SameBlank(raw: RawData, v: View)
    requires |v.events| >= |v.trialEvents|
    requires v.teamNames == Schools(raw.teams)
    requires |v.events| - |v.trialEvents| == |raw.events| - |TrialNames(raw.events)|
    requires |v.teams| + 1 == ContextOf(raw).missing
    ensures BlankOfView(v) == BlankOf(raw)
  {
  }

  /** After a successful loop every school name still has its list. */
  lemma BlankCovered(v: View)
    requires |v.events| >= |v.trialEvents|
    requires forall x :: x in SchoolOrder(v.teamsData) <==> x in v.teamNames
    requires Aggregate(ContextOfView(v), v.rawPlacements, BlankOfView(v)).Ok?
    ensures Covers(SchoolOrder(v.teamsData), Aggregate(ContextOfView(v), v.rawPlacements, BlankOfView(v)).value)
  {
  }

  /**
   * The exception `SuperScoreModel(path, weight)` raises on the loaded lists,
   * if any: KeyError from `_populate` for a scored placing of an unknown team,
   * then the aggregation loop's (see AggregateFaults), then AttributeError
   * when there are teams but no placing ever assigned `_pre_aggregate_scores`.
   */
  function NewError(raw: RawData): (r: Option<Error>)
    ensures r == Some(AttributeError) ==> |raw.placings| == 0 && |raw.teams| > 0
    ensures |raw.placings| == 0 && |raw.teams| == 0 ==> r.None?
  {
    var agg := Aggregate(ContextOf(raw), raw.placings, BlankOf(raw));
    if UnknownScoredTeam(raw) then Some(KeyError)
    else if agg.Err? then Some(agg.error)
    else if |raw.placings| == 0 && |raw.teams| > 0 then Some(AttributeError)
    else None
  }

  /** The `_super_scores` dict the constructor leaves: each school's summed slots, in `team_names` order. */
  function SuperScoresOf(raw: RawData): (r: seq<(string, int)>)
    requires NewError(raw).None?
    ensures var data := Aggregate(ContextOf(raw), raw.placings, BlankOf(raw)).value;
      var order := SchoolOrder(StableSort.Sort(raw.teams, NumberKey));
      && |r| == |order|
      && forall i :: 0 <= i < |r| ==> r[i].0 == order[i] && r[i].0 in data && r[i].1 == Sum(data[r[i].0])
  {
    RawCovered(raw);
    Entries(SchoolOrder(StableSort.Sort(raw.teams, NumberKey)), Totals(Aggregate(ContextOf(raw), raw.placings, BlankOf(raw)).value))
  }

  /** Every school name of the loaded teams has a list once the loop succeeds. */
  lemma RawCovered(raw: RawData)
    requires Aggregate(ContextOf(raw), raw.placings, BlankOf(raw)).Ok?
    ensures Covers(SchoolOrder(StableSort.Sort(raw.teams, NumberKey)), Aggregate(ContextOf(raw), raw.placings, BlankOf(raw)).value)
  {
    SchoolsPresent(raw.teams);
  }

  class SuperScoreModel {
    const view: View
    const teamsWithoutSuffix: map<int, string>
    const nonTrials: seq<string>
    const schoolOrder: seq<string>                      // the iteration order of `team_names`
    var weight: real
    var preAggregate: Option<map<string, seq<int>>>     // `_pre_aggregate_scores`; None while never assigned
    var superScores: seq<(string, int)>                 // `_super_scores`, an ordered dict

    /** `__lt__`, `__gt__` and `__eq__`: result objects compare by weight alone. */
    predicate LessThan(other: SuperScoreModel)
      reads this, other
    {
      weight < other.weight
    }

    predicate GreaterThan(other: SuperScoreModel)
      reads this, other
    {
      weight > other.weight
    }

    predicate EqualTo(other: SuperScoreModel)
      reads this, other
    {
      weight == other.weight
    }

    function Ctx(): Context
    {
      Context(teamsWithoutSuffix, view.trialEvents, nonTrials, |view.teams| + 1)
    }

    constructor Init(v: View, w: real)
      ensures view == v && weight == w && Ctx() == ContextOfView(v)
      ensures teamsWithoutSuffix == KeyedByNumber(v.teamsData, School)
      ensures nonTrials == NonTrial(v.events, v.trialEvents)
      ensures schoolOrder == SchoolOrder(v.teamsData)
      ensures preAggregate.None? && superScores == []
    {
      view := v;
      weight := w;
      teamsWithoutSuffix := KeyedByNumber(v.teamsData, School);
      nonTrials := NonTrial(v.events, v.trialEvents);
      schoolOrder := SchoolOrder(v.teamsData);
      preAggregate := None;
      superScores := [];
    }

    /**
     * `_aggregate_scores`: the loop over `raw_placements`, which assigns the
     * lists to `_pre_aggregate_scores` at the end of every iteration (so not
     * at all when there is no placing).
     */
    method AggregateScores(init: map<string, seq<int>>) returns (failure: Option<Error>)
      modifies this`preAggregate
      ensures var r := Aggregate(Ctx(), view.rawPlacements, init);
        && (failure.Some? <==> r.Err?)
        && (r.Err? ==> failure == Some(r.error))
        && (r.Ok? ==> preAggregate == if |view.rawPlacements| == 0 then old(preAggregate) else Some(r.value))
    {
      var c := Ctx();
      var ps := view.rawPlacements;
      var data := init;
      var i := 0;
      while i < |ps|
        invariant 0 <= i <= |ps|
        invariant Aggregate(c, ps[..i], init) == Ok(data)
        invariant preAggregate == if i == 0 then old(preAggregate) else Some(data)
      {
        assert ps[..i + 1][..i] == ps[..i];
        var step := PlaceOne(c, data, ps[i]);
        if step.Err? {
          AggregateStops(c, ps, init, i + 1);
          return Some(step.error);
        }
        data := step.value;
        preAggregate := Some(data);
        i := i + 1;
      }
      assert ps[..i] == ps;
      failure := None;
    }

    /**
     * `_calculate_super_scores`: each school's summed list, in `team_names`
     * order. Reading `_pre_aggregate_scores` before it was ever assigned
     * raises AttributeError, a school without a list KeyError.
     */
    method CalculateSuperScores() returns (failure: Option<Error>)
      modifies this`superScores
      ensures failure.Some? <==> |schoolOrder| > 0 && (preAggregate.None? || !Covers(schoolOrder, preAggregate.value))
      ensures failure.Some? ==> failure == Some(if preAggregate.None? then AttributeError else KeyError) && superScores == old(superScores)
      ensures failure.None? && |schoolOrder| > 0 ==>
        superScores == Entries(schoolOrder, Totals(preAggregate.value))
      ensures failure.None? && |schoolOrder| == 0 ==> superScores == []
    {
      if |schoolOrder| == 0 {
        superScores := [];
        return None;
      }
      if preAggregate.None? {
        return Some(AttributeError);
      }
      var data := preAggregate.value;
      if !Covers(schoolOrder, data) {
        return Some(KeyError);
      }
      superScores := Entries(schoolOrder, Totals(data));
      failure := None;
    }

    /** The `super_scores` property: the ordered dict sorted by score, ties kept in order. */
    function Ranking(): (r: seq<(string, int)>)
      reads this`superScores
      ensures multiset(r) == multiset(superScores) && |r| == |superScores|
      ensures StableSort.SortedBy(r, SchoolKey)
      ensures forall v :: StableSort.KeyBlock(r, SchoolKey, v) == StableSort.KeyBlock(superScores, SchoolKey, v)
    {
      StableSort.SortFacts(superScores, SchoolKey);
      StableSort.Sort(superScores, SchoolKey)
    }

    /**
     * The object built on a populated view, with the part of `_populate`
     * this class adds run: the aggregation loop, then the sums.
     */
    static method Build(v: View, w: real) returns (res: Result<SuperScoreModel>)
      requires |v.events| >= |v.trialEvents|
      requires forall x :: x in SchoolOrder(v.teamsData) <==> x in v.teamNames
      ensures var agg := Aggregate(ContextOfView(v), v.rawPlacements, BlankOfView(v));
        && (res.Err? <==> agg.Err? || (|v.rawPlacements| == 0 && |SchoolOrder(v.teamsData)| > 0))
        && (res.Err? ==> res.error == if agg.Err? then agg.error else AttributeError)
        && (res.Ok? ==>
              && fresh(res.value) && res.value.weight == w && res.value.view == v
              && res.value.schoolOrder == SchoolOrder(v.teamsData)
              && Covers(res.value.schoolOrder, agg.value)
              && res.value.superScores == Entries(res.value.schoolOrder, Totals(agg.value)))
    {
      ghost var agg := Aggregate(ContextOfView(v), v.rawPlacements, BlankOfView(v));
      var m := new SuperScoreModel.Init(v, w);
      var f := m.AggregateScores(BlankOfView(v));
      if f.Some? {
        return Err(f.value);
      }
      assert agg.Ok?;
      BlankCovered(v);
      assert m.preAggregate == if |v.rawPlacements| == 0 then None else Some(agg.value);
      f := m.CalculateSuperScores();
      if f.Some? {
        return Err(f.value);
      }
      res := Ok(m);
    }

    /**
     * `SuperScoreModel(path, weight)` on loaded data: `_populate` (KeyError
     * for a scored placing of an unknown team), the aggregation loop (the
     * first faulty placing's exception, see AggregateFaults), then the sums,
     * which fail with AttributeError when there are teams but no placings.
     * (The constructor runs `_populate` a second time, on the same data and
     * with the same outcome.)
     */
    static method New(raw: RawData, w: real) returns (res: Result<SuperScoreModel>)
      ensures res.Err? <==> NewError(raw).Some?
      ensures res.Err? ==> res.error == NewError(raw).value
      ensures res.Ok? ==>
        && fresh(res.value) && res.value.weight == w && PopulatedFrom(raw, res.value.view)
        && res.value.schoolOrder == SchoolOrder(res.value.view.teamsData)
        && res.value.superScores == SuperScoresOf(raw)
    {
      var pr := Populate(raw);
      if pr.Err? {
        return Err(pr.error);
      }
      ViewMatchesRaw(raw, pr.value);
      res := Build(pr.value, w);
      if res.Ok? {
        assert PopulatedFrom(raw, pr.value);
        RawCovered(raw);
      }
    }
  }
}
