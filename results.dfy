/**
 * The read model every scoring model is built on (class `Results`): the
 * tournament's teams, events and placings, already loaded, and the per-team
 * aggregates `_populate` derives from them.
 */
module Results {
  import opened Common
  import StableSort

  /** One entry of the `Teams` list: a number, a school and an optional division suffix. */
  datatype TeamRecord = TeamRecord(number: int, school: string, suffix: Option<string>)

  /** One entry of the `Events` list; a missing `trial` flag reads as false. */
  datatype EventRecord = EventRecord(name: string, trial: bool)

  /** One entry of the `Placings` list; `place` may be absent. */
  datatype Placing = Placing(team: int, event: string, place: Option<int>)

  /** The three lists of a tournament file, as the loader hands them over. */
  datatype RawData = RawData(teams: seq<TeamRecord>, events: seq<EventRecord>, placings: seq<Placing>)

  /**
   * A value computed by numpy's division `score_sum / count`: a finite
   * number, or an infinity or NaN when the count is zero (numpy warns but
   * does not raise).
   */
  datatype Average = Finite(value: real) | PosInf | NegInf | NaN

  /** The fields `_populate` fills in. */
  datatype View = View(
    teamsData: seq<TeamRecord>,
    teamNumbers: seq<int>,             // the keys of `teams`, in dict order
    teams: map<int, string>,
    events: seq<string>,
    trialEvents: seq<string>,
    fullScores: map<int, seq<int>>,
    scoreSum: map<int, int>,
    averages: map<int, Average>,
    rawPlacements: seq<Placing>,
    teamNames: set<string>)

  function NumberKey(t: TeamRecord): real { t.number as real }

  /** `school + " " + suffix`, with "" for a missing suffix. */
  function DisplayName(t: TeamRecord): (name: string)
    ensures |name| >= |t.school| + 1 && name[..|t.school| + 1] == t.school + " "
    ensures t.suffix.None? ==> name == t.school + " "
    ensures t.suffix.Some? ==> name[|t.school| + 1..] == t.suffix.value
  {
    t.school + " " + (match t.suffix case None => "" case Some(x) => x)
  }

  function School(t: TeamRecord): string { t.school }

  /** `set([g["school"] for g in teams_data])`. */
  function Schools(ts: seq<TeamRecord>): (r: set<string>)
    ensures forall x :: x in r <==> exists i :: 0 <= i < |ts| && ts[i].school == x
  {
    set i | 0 <= i < |ts| :: ts[i].school
  }

  function Numbers(ts: seq<TeamRecord>): (r: seq<int>)
    ensures |r| == |ts| && forall i :: 0 <= i < |ts| ==> r[i] == ts[i].number
  {
    if |ts| == 0 then [] else Numbers(ts[..|ts| - 1]) + [ts[|ts| - 1].number]
  }

  /**
   * The dict comprehension `{t["number"]: f(t) for t in ts}`: one key per
   * number, and a later record with the same number overwrites an earlier one.
   */
  function KeyedByNumber(ts: seq<TeamRecord>, f: TeamRecord -> string): (m: map<int, string>)
    ensures forall k :: k in m <==> k in Numbers(ts)
  {
    if |ts| == 0 then map[]
    else
      var init := ts[..|ts| - 1];
      assert Numbers(ts) == Numbers(init) + [ts[|ts| - 1].number];
      KeyedByNumber(init, f)[ts[|ts| - 1].number := f(ts[|ts| - 1])]
  }

  /** The value kept for a number is that of the LAST record carrying it. */
  lemma {:induction false} KeyedByNumberLastWins(ts: seq<TeamRecord>, f: TeamRecord -> string, k: int)
    requires k in KeyedByNumber(ts, f)
    ensures exists i :: 0 <= i < |ts| && ts[i].number == k && KeyedByNumber(ts, f)[k] == f(ts[i])
                        && forall j :: i < j < |ts| ==> ts[j].number != k
  {
    var init := ts[..|ts| - 1];
    var last := ts[|ts| - 1];
    if last.number != k {
      KeyedByNumberLastWins(init, f, k);
      var i :| 0 <= i < |init| && init[i].number == k && KeyedByNumber(init, f)[k] == f(init[i])
               && forall j :: i < j < |init| ==> init[j].number != k;
      assert ts[i] == init[i];
      assert forall j :: i < j < |ts| ==> ts[j].number != k by {
        forall j | i < j < |ts| ensures ts[j].number != k {
          if j < |init| { assert ts[j] == init[j]; }
        }
      }
    }
  }

  /** `[e["name"] for e in events]`. */
  function EventNames(es: seq<EventRecord>): (r: seq<string>)
    ensures |r| == |es| && forall i :: 0 <= i < |es| ==> r[i] == es[i].name
  {
    if |es| == 0 then [] else EventNames(es[..|es| - 1]) + [es[|es| - 1].name]
  }

  /** `[e["name"] for e in events if e.get("trial", False)]`. */
  function TrialNames(es: seq<EventRecord>): (r: seq<string>)
    ensures |r| <= |es|
    ensures forall x :: x in r <==> exists i :: 0 <= i < |es| && es[i].trial && es[i].name == x
  {
    if |es| == 0 then []
    else
      var init := TrialNames(es[..|es| - 1]);
      var last := es[|es| - 1];
      assert forall i :: 0 <= i < |es| - 1 ==> es[..|es| - 1][i] == es[i];
      if last.trial then init + [last.name] else init
  }

  /** The list comprehension of `walk_events`: the names not in `trial`, in order. */
  function NonTrial(names: seq<string>, trial: seq<string>): (r: seq<string>)
    ensures |r| <= |names|
    ensures forall x :: x in r <==> x in names && x !in trial
  {
    if |names| == 0 then []
    else
      var init := NonTrial(names[..|names| - 1], trial);
      var last := names[|names| - 1];
      assert names == names[..|names| - 1] + [last];
      if last !in trial then init + [last] else init
  }

  /** A placing counts towards the scores unless its event is a trial event. */
  predicate Scored(p: Placing, trial: seq<string>)
  {
    p.event !in trial
  }

  /** `placement.get("place", missing)`. */
  function EffectivePlace(p: Placing, missing: int): int
  {
    match p.place case Some(x) => x case None => missing
  }

  /**
   * The places team t collects, in placing order: every scored placing of t
   * contributes its place, a missing place counting as `missing`.
   */
  function ScoresOf(ps: seq<Placing>, t: int, trial: seq<string>, missing: int): (r: seq<int>)
    ensures |r| <= |ps|
    ensures forall k :: 0 <= k < |r| ==>
      exists i :: 0 <= i < |ps| && ps[i].team == t && Scored(ps[i], trial)
                  && r[k] == EffectivePlace(ps[i], missing)
  {
    if |ps| == 0 then []
    else
      var init := ps[..|ps| - 1];
      var p := ps[|ps| - 1];
      var r0 := ScoresOf(init, t, trial, missing);
      assert forall i :: 0 <= i < |init| ==> init[i] == ps[i];
      r0 + (if p.team == t && Scored(p, trial) then [EffectivePlace(p, missing)] else [])
  }

  /**
   * The three filters work element by element: filtering a concatenation
   * concatenates the filtered parts, and one element contributes at most
   * itself. Together these fix the order and the multiplicity of the output.
   */
  lemma {:induction false} TrialNamesAppend(a: seq<EventRecord>, b: seq<EventRecord>)
    ensures TrialNames(a + b) == TrialNames(a) + TrialNames(b)
    ensures |b| == 1 ==> TrialNames(b) == if b[0].trial then [b[0].name] else []
  {
    if |b| > 0 {
      var b0 := b[..|b| - 1];
      TrialNamesAppend(a, b0);
      assert (a + b)[..|a + b| - 1] == a + b0;
      if |b| == 1 {
        assert b0 == [];
      }
    }
    else {
      assert a + b == a;
    }
  }

  lemma {:induction false} NonTrialAppend(a: seq<string>, b: seq<string>, trial: seq<string>)
    ensures NonTrial(a + b, trial) == NonTrial(a, trial) + NonTrial(b, trial)
    ensures |b| == 1 ==> NonTrial(b, trial) == if b[0] !in trial then [b[0]] else []
  {
    if |b| > 0 {
      var b0 := b[..|b| - 1];
      NonTrialAppend(a, b0, trial);
      assert (a + b)[..|a + b| - 1] == a + b0;
      if |b| == 1 {
        assert b0 == [];
      }
    }
    else {
      assert a + b == a;
    }
  }

  /** Conversely, every scored placing of t contributes its place. */
  lemma {:induction false} ScoresOfComplete(ps: seq<Placing>, t: int, trial: seq<string>, missing: int)
    ensures forall i :: 0 <= i < |ps| && ps[i].team == t && Scored(ps[i], trial) ==>
              EffectivePlace(ps[i], missing) in ScoresOf(ps, t, trial, missing)
  {
    if |ps| > 0 {
      var init := ps[..|ps| - 1];
      ScoresOfComplete(init, t, trial, missing);
      assert forall i :: 0 <= i < |init| ==> init[i] == ps[i];
    }
  }

  lemma {:induction false} ScoresOfAppend(a: seq<Placing>, b: seq<Placing>, t: int, trial: seq<string>, missing: int)
    ensures ScoresOf(a + b, t, trial, missing) == ScoresOf(a, t, trial, missing) + ScoresOf(b, t, trial, missing)
    ensures |b| == 1 ==>
              ScoresOf(b, t, trial, missing) ==
              if b[0].team == t && Scored(b[0], trial) then [EffectivePlace(b[0], missing)] else []
  {
    if |b| > 0 {
      var b0 := b[..|b| - 1];
      ScoresOfAppend(a, b0, t, trial, missing);
      assert (a + b)[..|a + b| - 1] == a + b0;
      if |b| == 1 {
        assert b0 == [];
      }
    }
    else {
      assert a + b == a;
    }
  }

  /** The list of t over one more placing gains that placing's place when it is a scored placing of t. */
  lemma ScoresOfLast(ps: seq<Placing>, i: int, t: int, trial: seq<string>, missing: int)
    requires 0 <= i < |ps|
    ensures ScoresOf(ps[..i + 1], t, trial, missing) ==
            ScoresOf(ps[..i], t, trial, missing)
            + (if ps[i].team == t && Scored(ps[i], trial) then [EffectivePlace(ps[i], missing)] else [])
  {
    assert ps[..i + 1][..i] == ps[..i];
  }

  /**
   * One turn of the placement loop: placing i's place is appended to its
   * team's list, or the lookup fails (None) for a scored placing of an
   * unknown team.
   */
  method RecordPlacing(fs: map<int, seq<int>>, ps: seq<Placing>, i: nat, trial: seq<string>, missing: int)
    returns (r: Option<map<int, seq<int>>>)
    requires i < |ps|
    requires forall t :: t in fs ==> fs[t] == ScoresOf(ps[..i], t, trial, missing)
    ensures r.None? <==> Scored(ps[i], trial) && ps[i].team !in fs
    ensures r.Some? ==> r.value.Keys == fs.Keys
    ensures r.Some? ==> forall t :: t in r.value ==> r.value[t] == ScoresOf(ps[..i + 1], t, trial, missing)
  {
    var p := ps[i];
    if Scored(p, trial) && p.team !in fs {
      return None;
    }
    var next := if Scored(p, trial) then fs[p.team := fs[p.team] + [EffectivePlace(p, missing)]] else fs;
    forall t | t in next
      ensures next[t] == ScoresOf(ps[..i + 1], t, trial, missing)
    {
      ScoresOfLast(ps, i, t, trial, missing);
    }
    r := Some(next);
  }

  /**
   * `full_scores`: one list per known team, built by appending in placing
   * order. A scored placing of an unknown team number fails the dict lookup.
   */
  method BuildFullScores(teamNumbers: seq<int>, trial: seq<string>, ps: seq<Placing>)
    returns (r: Result<map<int, seq<int>>>)
    ensures r.Err? <==> exists i :: 0 <= i < |ps| && Scored(ps[i], trial) && ps[i].team !in teamNumbers
    ensures r.Err? ==> r.error == KeyError
    ensures r.Ok? ==> r.value.Keys == (set t | t in teamNumbers)
    ensures r.Ok? ==> forall t :: t in r.value ==> r.value[t] == ScoresOf(ps, t, trial, |teamNumbers|)
  {
    var missing := |teamNumbers|;
    var keys := set t | t in teamNumbers;
    var fs: map<int, seq<int>> := map t | t in keys :: [];
    var i := 0;
    while i < |ps|
      invariant 0 <= i <= |ps|
      invariant fs.Keys == keys
      invariant forall t :: t in fs ==> fs[t] == ScoresOf(ps[..i], t, trial, missing)
      invariant forall j :: 0 <= j < i && Scored(ps[j], trial) ==> ps[j].team in teamNumbers
    {
      var next := RecordPlacing(fs, ps, i, trial, missing);
      if next.None? {
        return Err(KeyError);
      }
      fs := next.value;
      i := i + 1;
    }
    assert ps[..i] == ps;
    r := Ok(fs);
  }

  /** numpy's `score_sum / count`. */
  function Divide(sum: int, count: int): (a: Average)
    requires count >= 0
  {
    if count > 0 then Finite(sum as real / count as real)
    else if sum > 0 then PosInf
    else if sum < 0 then NegInf
    else NaN
  }

  /** `{t: np.sum(full_scores[t]) for t in teams}`. */
  function SumsOf(fs: map<int, seq<int>>): (m: map<int, int>)
    ensures m.Keys == fs.Keys && forall t :: t in m ==> m[t] == Sum(fs[t])
  {
    map t | t in fs :: Sum(fs[t])
  }

  /** `{t: score_sum[t] / count for t in teams}`. */
  function AveragesOf(sums: map<int, int>, count: int): (m: map<int, Average>)
    requires count >= 0
    ensures m.Keys == sums.Keys && forall t :: t in m ==> m[t] == Divide(sums[t], count)
  {
    map t | t in sums :: Divide(sums[t], count)
  }

  /** What `_populate` leaves in each field, given the loaded lists. */
  ghost predicate PopulatedFrom(raw: RawData, v: View)
  {
    TeamFieldsFrom(raw, v) && EventFieldsFrom(raw, v) && ScoreFieldsFrom(raw, v)
  }

  /** `teams_data` sorted by number, the `teams` dict, its key order and the school names. */
  ghost predicate TeamFieldsFrom(raw: RawData, v: View)
  {
    && v.teamsData == StableSort.Sort(raw.teams, NumberKey)
    && v.teamNumbers == Dedup(Numbers(v.teamsData))
    && v.teams == KeyedByNumber(v.teamsData, DisplayName)
    && |v.teams| == |v.teamNumbers|
    && v.teamNames == Schools(raw.teams)
  }

  ghost predicate EventFieldsFrom(raw: RawData, v: View)
  {
    && v.events == EventNames(raw.events)
    && v.trialEvents == TrialNames(raw.events)
    && v.rawPlacements == raw.placings
  }

  /** `full_scores`, `score_sum` and `averages`, one entry per team. */
  ghost predicate ScoreFieldsFrom(raw: RawData, v: View)
  {
    && v.fullScores.Keys == v.teams.Keys == v.scoreSum.Keys == v.averages.Keys
    && |v.events| >= |v.trialEvents|
    && (forall t :: t in v.fullScores ==>
          && v.fullScores[t] == ScoresOf(raw.placings, t, v.trialEvents, |v.teams|)
          && v.scoreSum[t] == Sum(v.fullScores[t])
          && v.averages[t] == Divide(v.scoreSum[t], |v.events| - |v.trialEvents|))
  }

  /** Sorting the team records keeps the same team numbers. */
  lemma SortedNumbers(ts: seq<TeamRecord>, k: int)
    ensures k in Numbers(StableSort.Sort(ts, NumberKey)) <==> k in Numbers(ts)
  {
    var sorted := StableSort.Sort(ts, NumberKey);
    StableSort.SortFacts(ts, NumberKey);
    if k in Numbers(sorted) {
      var i :| 0 <= i < |sorted| && Numbers(sorted)[i] == k;
      assert sorted[i] in multiset(ts);
      var j :| 0 <= j < |ts| && ts[j] == sorted[i];
      assert Numbers(ts)[j] == k;
    }
    if k in Numbers(ts) {
      var j :| 0 <= j < |ts| && Numbers(ts)[j] == k;
      assert ts[j] in multiset(sorted);
      var i :| 0 <= i < |sorted| && sorted[i] == ts[j];
      assert Numbers(sorted)[i] == k;
    }
  }

  /**
   * `_populate`: sorts the teams by number, derives the name maps and the
   * event lists, builds `full_scores` and from it the sums and averages.
   * A scored placing whose team number is not among the teams raises KeyError.
   */
  method Populate(raw: RawData) returns (r: Result<View>)
    ensures r.Err? <==> UnknownScoredTeam(raw)
    ensures r.Err? ==> r.error == KeyError
    ensures r.Ok? ==> PopulatedFrom(raw, r.value)
  {
    var sorted := StableSort.Sort(raw.teams, NumberKey);
    var numbers := Dedup(Numbers(sorted));
    TeamKeys(raw.teams);
    var trial := TrialNames(raw.events);
    var fsr := BuildFullScores(numbers, trial, raw.placings);
    if fsr.Err? {
      return Err(fsr.error);
    }
    r := Ok(Assemble(raw, fsr.value));
  }

  /** Some placing of a scored event names a team number that no team record has. */
  predicate UnknownScoredTeam(raw: RawData)
  {
    exists i :: 0 <= i < |raw.placings| && Scored(raw.placings[i], TrialNames(raw.events))
                && raw.placings[i].team !in Numbers(raw.teams)
  }

  /** The team numbers survive sorting and de-duplication, one dict key each. */
  lemma TeamKeys(ts: seq<TeamRecord>)
    ensures var sorted := StableSort.Sort(ts, NumberKey);
      var numbers := Dedup(Numbers(sorted));
      && (forall k :: k in numbers <==> k in Numbers(ts))
      && KeyedByNumber(sorted, DisplayName).Keys == (set k | k in numbers)
      && |KeyedByNumber(sorted, DisplayName)| == |numbers|
  {
    var sorted := StableSort.Sort(ts, NumberKey);
    var numbers := Dedup(Numbers(sorted));
    forall k ensures k in numbers <==> k in Numbers(ts) { SortedNumbers(ts, k); }
    DistinctCard(numbers);
  }

  /** The view `_populate` assembles once `full_scores` is built. */
  function Assemble(raw: RawData, fs: map<int, seq<int>>): (v: View)
    requires var numbers := Dedup(Numbers(StableSort.Sort(raw.teams, NumberKey)));
      && fs.Keys == (set t | t in numbers)
      && forall t :: t in fs ==> fs[t] == ScoresOf(raw.placings, t, TrialNames(raw.events), |numbers|)
    ensures PopulatedFrom(raw, v)
  {
    AssembledTeams(raw, fs);
    AssembledScores(raw, fs);
    Layout(raw, fs)
  }

  /** The fields of the view, each computed from the loaded lists and the scores. */
  function Layout(raw: RawData, fs: map<int, seq<int>>): View
  {
    var sorted := StableSort.Sort(raw.teams, NumberKey);
    var events := EventNames(raw.events);
    var trial := TrialNames(raw.events);
    var sums := SumsOf(fs);
    View(sorted, Dedup(Numbers(sorted)), KeyedByNumber(sorted, DisplayName), events, trial, fs, sums,
         AveragesOf(sums, |events| - |trial|), raw.placings, Schools(raw.teams))
  }

  lemma AssembledTeams(raw: RawData, fs: map<int, seq<int>>)
    ensures TeamFieldsFrom(raw, Layout(raw, fs))
    ensures EventFieldsFrom(raw, Layout(raw, fs))
  {
    TeamKeys(raw.teams);
  }

  lemma AssembledScores(raw: RawData, fs: map<int, seq<int>>)
    requires var numbers := Dedup(Numbers(StableSort.Sort(raw.teams, NumberKey)));
      && fs.Keys == (set t | t in numbers)
      && forall t :: t in fs ==> fs[t] == ScoresOf(raw.placings, t, TrialNames(raw.events), |numbers|)
    ensures ScoreFieldsFrom(raw, Layout(raw, fs))
  {
    TeamKeys(raw.teams);
  }

  /** The set of a duplicate-free list has exactly as many elements as the list. */
  lemma {:induction false} DistinctCard(s: seq<int>)
    requires Distinct(s)
    ensures |set t | t in s| == |s|
  {
    if |s| > 0 {
      var init := s[..|s| - 1];
      DistinctCard(init);
      assert (set t | t in s) == (set t | t in init) + {s[|s| - 1]};
      assert s[|s| - 1] !in init;
    }
  }

  /** `walk_events`: the events that are not trial events, in event order. */
  function WalkEvents(v: View): (r: seq<string>)
    ensures forall e :: e in r <==> e in v.events && e !in v.trialEvents
  {
    NonTrial(v.events, v.trialEvents)
  }

  /** An event is walked exactly when some event has that name and none of that name is a trial. */
  lemma WalkedEventsAreNonTrial(raw: RawData, e: string)
    ensures e in NonTrial(EventNames(raw.events), TrialNames(raw.events)) <==>
      (exists i :: 0 <= i < |raw.events| && raw.events[i].name == e)
      && (forall i :: 0 <= i < |raw.events| && raw.events[i].name == e ==> !raw.events[i].trial)
  {
    var names := EventNames(raw.events);
    if e in names {
      var i :| 0 <= i < |names| && names[i] == e;
      assert raw.events[i].name == e;
    }
  }

  function SchoolKey(p: (string, int)): real { p.1 as real }

  /** The school names in first-occurrence order over the (sorted) team records. */
  function SchoolOrder(ts: seq<TeamRecord>): (r: seq<string>)
    ensures Distinct(r)
    ensures forall x :: x in r <==> exists i :: 0 <= i < |ts| && ts[i].school == x
  {
    var names := SchoolList(ts);
    Dedup(names)
  }

  function SchoolList(ts: seq<TeamRecord>): (r: seq<string>)
    ensures |r| == |ts| && forall i :: 0 <= i < |ts| ==> r[i] == ts[i].school
  {
    if |ts| == 0 then [] else SchoolList(ts[..|ts| - 1]) + [ts[|ts| - 1].school]
  }

  /** `[(x, m[x]) for x in order]`: a dict's items in the order its keys were inserted. */
  function Entries<V>(order: seq<string>, m: map<string, V>): (r: seq<(string, V)>)
    requires forall i :: 0 <= i < |order| ==> order[i] in m
    ensures |r| == |order| && forall i :: 0 <= i < |order| ==> r[i] == (order[i], m[order[i]])
  {
    if |order| == 0 then [] else Entries(order[..|order| - 1], m) + [(order[|order| - 1], m[order[|order| - 1]])]
  }

  /** The school names of the sorted records are those of the loaded ones. */
  lemma SchoolsPresent(ts: seq<TeamRecord>)
    ensures forall x :: x in SchoolOrder(StableSort.Sort(ts, NumberKey)) <==> x in Schools(ts)
  {
    var sorted := StableSort.Sort(ts, NumberKey);
    StableSort.SortFacts(ts, NumberKey);
    forall x ensures x in SchoolOrder(sorted) <==> x in Schools(ts) {
      if x in SchoolOrder(sorted) {
        var i :| 0 <= i < |sorted| && sorted[i].school == x;
        assert sorted[i] in multiset(ts);
        var j :| 0 <= j < |ts| && ts[j] == sorted[i];
      }
      if x in Schools(ts) {
        var j :| 0 <= j < |ts| && ts[j].school == x;
        assert ts[j] in multiset(sorted);
        var i :| 0 <= i < |sorted| && sorted[i] == ts[j];
      }
    }
  }

  /** Every team's school (`teams_without_suffix`) is one of the school names. */
  lemma SchoolOfTeam(v: View)
    ensures forall t :: t in KeyedByNumber(v.teamsData, School) ==> KeyedByNumber(v.teamsData, School)[t] in SchoolOrder(v.teamsData)
  {
    forall t | t in KeyedByNumber(v.teamsData, School)
      ensures KeyedByNumber(v.teamsData, School)[t] in SchoolOrder(v.teamsData)
    {
      KeyedByNumberLastWins(v.teamsData, School, t);
    }
  }
}
