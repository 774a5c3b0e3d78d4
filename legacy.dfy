/**
 * The older standalone script `drops.py`: the same detect-and-drop idea as
 * the class `Drops`, but keyed by school name. Team number n is the school
 * at list index n - 1 (with Python's negative indexing), so the divisions of
 * one school pool into one entry; the rule is chosen by name, every other
 * name meaning the Mean rule; each school then loses the rounded average
 * number of flagged placings from its list of places.
 */
module LegacyDrops {
  import opened Common
  import opened Results
  import Stats
  import Detectors
  import DropsModel

  /** Whether `teams[n - 1]` is a valid index expression in Python. */
  predicate InRange(teams: seq<string>, n: int)
  {
    -|teams| < n <= |teams|
  }

  /** Whether the team numbers of the first n placings are all in range. */
  predicate AllFound(teams: seq<string>, ps: seq<Placing>, n: nat)
    requires n <= |ps|
  {
    forall j :: 0 <= j < n ==> InRange(teams, ps[j].team)
  }

  /** `teams[n - 1]` on the list of school names, with Python's negative indices. */
  function SchoolAt(teams: seq<string>, n: int): (r: Result<string>)
    ensures r.Ok? <==> InRange(teams, n)
    ensures r.Ok? ==> r.value in teams
    ensures 1 <= n <= |teams| ==> r == Ok(teams[n - 1])
    ensures r.Err? ==> r.error == IndexError
  {
    var i := n - 1;
    if 0 <= i < |teams| then Ok(teams[i])
    else if -|teams| <= i < 0 then Ok(teams[|teams| + i])
    else Err(IndexError)
  }

  /** Team number 0 and the negative numbers count back from the end of the list. */
  lemma NegativeNumbersWrap(teams: seq<string>, n: int)
    requires -|teams| < n <= 0
    ensures SchoolAt(teams, n) == Ok(teams[|teams| + n - 1])
  {
  }

  /**
   * The places school s collects from the first n placings, in placing
   * order: every scored placing of any team number that names s, a missing
   * place counting as the length of the team list.
   */
  function SchoolScores(ps: seq<Placing>, n: nat, teams: seq<string>, trial: seq<string>, s: string): (r: seq<int>)
    requires n <= |ps|
    ensures |r| <= n
  {
    if n == 0 then []
    else
      var p := ps[n - 1];
      SchoolScores(ps, n - 1, teams, trial, s)
        + (if SchoolAt(teams, p.team) == Ok(s) && Scored(p, trial) then [EffectivePlace(p, |teams|)] else [])
  }

  /** `full_scores` after the first n placings: one list per school. */
  function FullScores(ps: seq<Placing>, n: nat, teams: seq<string>, trial: seq<string>): (m: map<string, seq<int>>)
    requires n <= |ps|
    ensures forall s :: s in m <==> s in teams
  {
    map s | s in teams :: SchoolScores(ps, n, teams, trial, s)
  }

  /** `total_scores[s]` after the first n placings: what the scored placings of s add up to. */
  function SchoolTotal(ps: seq<Placing>, n: nat, teams: seq<string>, trial: seq<string>, s: string): int
    requires n <= |ps|
  {
    if n == 0 then 0
    else
      var p := ps[n - 1];
      SchoolTotal(ps, n - 1, teams, trial, s)
        + (if SchoolAt(teams, p.team) == Ok(s) && Scored(p, trial) then EffectivePlace(p, |teams|) else 0)
  }

  /** `total_scores` after the first n placings. */
  function Totals(ps: seq<Placing>, n: nat, teams: seq<string>, trial: seq<string>): (m: map<string, int>)
    requires n <= |ps|
    ensures forall s :: s in m <==> s in teams
  {
    map s | s in teams :: SchoolTotal(ps, n, teams, trial, s)
  }

  /** Each school's total is the sum of its list of places. */
  lemma {:induction false} TotalIsSum(ps: seq<Placing>, n: nat, teams: seq<string>, trial: seq<string>, s: string)
    requires n <= |ps|
    ensures SchoolTotal(ps, n, teams, trial, s) == Sum(SchoolScores(ps, n, teams, trial, s))
  {
    if n > 0 {
      TotalIsSum(ps, n - 1, teams, trial, s);
      var p := ps[n - 1];
      var last := if SchoolAt(teams, p.team) == Ok(s) && Scored(p, trial) then [EffectivePlace(p, |teams|)] else [];
      SumAppend(SchoolScores(ps, n - 1, teams, trial, s), last);
      if last != [] {
        DropsModel.SumSingle(last[0]);
      }
    }
  }

  /** One more placing appends its place to its school's list, if it is scored. */
  lemma FullScoresStep(ps: seq<Placing>, i: nat, teams: seq<string>, trial: seq<string>)
    requires i < |ps| && InRange(teams, ps[i].team)
    ensures !Scored(ps[i], trial) ==> FullScores(ps, i + 1, teams, trial) == FullScores(ps, i, teams, trial)
    ensures Scored(ps[i], trial) ==>
      var s, before := SchoolAt(teams, ps[i].team).value, FullScores(ps, i, teams, trial);
      FullScores(ps, i + 1, teams, trial) == before[s := before[s] + [EffectivePlace(ps[i], |teams|)]]
  {
    var s, before := SchoolAt(teams, ps[i].team).value, FullScores(ps, i, teams, trial);
    var after := FullScores(ps, i + 1, teams, trial);
    var expected := if Scored(ps[i], trial) then before[s := before[s] + [EffectivePlace(ps[i], |teams|)]] else before;
    assert after.Keys == expected.Keys;
    forall x | x in after
      ensures after[x] == expected[x]
    {
    }
  }

  /** One more placing adds its place to its school's total, if it is scored. */
  lemma TotalsStep(ps: seq<Placing>, i: nat, teams: seq<string>, trial: seq<string>)
    requires i < |ps| && InRange(teams, ps[i].team)
    ensures !Scored(ps[i], trial) ==> Totals(ps, i + 1, teams, trial) == Totals(ps, i, teams, trial)
    ensures Scored(ps[i], trial) ==>
      var s, before := SchoolAt(teams, ps[i].team).value, Totals(ps, i, teams, trial);
      Totals(ps, i + 1, teams, trial) == before[s := before[s] + EffectivePlace(ps[i], |teams|)]
  {
  }

  /** Both dicts of the placings loop. */
  datatype Tallies = Tallies(totals: map<string, int>, full: map<string, seq<int>>)

  /**
   * The placings loop: every placing, trial or not, looks up its school
   * (IndexError for a number outside the list); a scored one adds its place
   * to the school's total and appends it to the school's list.
   */
  method Tally(teams: seq<string>, trial: seq<string>, ps: seq<Placing>) returns (r: Result<Tallies>)
    ensures r.Err? <==> !AllFound(teams, ps, |ps|)
    ensures r.Err? ==> r.error == IndexError
    ensures r.Ok? ==> r.value == Tallies(Totals(ps, |ps|, teams, trial), FullScores(ps, |ps|, teams, trial))
  {
    var tallies := Tallies(map s | s in teams :: 0, map s | s in teams :: []);
    TalliesStart(ps, teams, trial);
    var i := 0;
    while i < |ps|
      invariant 0 <= i <= |ps|
      invariant tallies.totals == Totals(ps, i, teams, trial)
      invariant tallies.full == FullScores(ps, i, teams, trial)
      invariant AllFound(teams, ps, i)
    {
      var school := SchoolAt(teams, ps[i].team);
      if school.Err? {
        return Err(IndexError);
      }
      tallies := AddPlacing(tallies, ps, i, teams, trial);
      i := i + 1;
    }
    r := Ok(tallies);
  }

  /** Before the loop, every school has a zero total and an empty list. */
  lemma TalliesStart(ps: seq<Placing>, teams: seq<string>, trial: seq<string>)
    ensures Tallies(map s | s in teams :: 0, map s | s in teams :: [])
            == Tallies(Totals(ps, 0, teams, trial), FullScores(ps, 0, teams, trial))
  {
    var totals, full := Totals(ps, 0, teams, trial), FullScores(ps, 0, teams, trial);
    assert forall s :: s in totals ==> totals[s] == 0;
    assert forall s :: s in full ==> full[s] == [];
  }

  /** The body of the placings loop for a placing whose school was found. */
  method AddPlacing(tallies: Tallies, ps: seq<Placing>, i: nat, teams: seq<string>, trial: seq<string>)
    returns (next: Tallies)
    requires i < |ps| && InRange(teams, ps[i].team)
    requires tallies == Tallies(Totals(ps, i, teams, trial), FullScores(ps, i, teams, trial))
    ensures next == Tallies(Totals(ps, i + 1, teams, trial), FullScores(ps, i + 1, teams, trial))
  {
    FullScoresStep(ps, i, teams, trial);
    TotalsStep(ps, i, teams, trial);
    var p := ps[i];
    var s := SchoolAt(teams, p.team).value;
    next := tallies;
    if Scored(p, trial) {
      var place := EffectivePlace(p, |teams|);
      next := Tallies(next.totals[s := next.totals[s] + place], next.full[s := next.full[s] + [place]]);
    }
  }

  /** `{t: total_scores[t] / count for t in teams}`; with no teams there is nothing to divide. */
  function Averages(totals: map<string, int>, count: int): (m: map<string, Average>)
    requires count > 0 || totals == map[]
    ensures m.Keys == totals.Keys
    ensures forall s :: s in m ==> m[s].Finite? && m[s].value * count as real == totals[s] as real
  {
    if count == 0 then map[] else map s | s in totals :: Finite(totals[s] as real / count as real)
  }

  /** The dispatch on `call`. */
  function RuleFor(call: string): (r: Detectors.Rule)
    ensures r == Detectors.StdRule <==> call == "std_deviation"
    ensures r == Detectors.IqrRule <==> call == "iqr"
    ensures r == Detectors.MeanRule <==> call != "std_deviation" && call != "iqr"
  {
    if call == "std_deviation" then Detectors.StdRule
    else if call == "iqr" then Detectors.IqrRule
    else Detectors.MeanRule
  }

  /** A placing finds its school through its team number. */
  function KeyOf(teams: seq<string>): Placing -> Result<string>
  {
    (p: Placing) => SchoolAt(teams, p.team)
  }

  /** The chosen rule, called with `alpha`, over the school-keyed dicts. */
  function Detection(call: string, alpha: real, teams: seq<string>, trial: seq<string>,
                     averages: map<string, Average>, full: map<string, seq<int>>): Detectors.Detection<string>
  {
    Detectors.Detection(RuleFor(call), alpha, |teams|, trial, averages, full, KeyOf(teams))
  }

  /** `bombed_events = {t: [] for t in teams}`. */
  function Empty(teams: seq<string>): (m: map<string, seq<string>>)
    ensures forall s :: s in m <==> s in teams
    ensures forall s :: s in m ==> m[s] == []
  {
    map s | s in teams :: []
  }

  /**
   * The detector's loop over the placings: each flagged placing appends its
   * event to its school's list, and the loop stops at the first exception.
   */
  method Detect(d: Detectors.Detection<string>, b0: map<string, seq<string>>, ps: seq<Placing>)
    returns (b: map<string, seq<string>>, failure: Option<Error>)
    ensures Detectors.Run(d, b0, ps) == Detectors.Progress(b, failure)
  {
    b := b0;
    var i := 0;
    while i < |ps|
      invariant 0 <= i <= |ps|
      invariant Detectors.Run(d, b0, ps[..i]) == Detectors.Progress(b, None)
    {
      var p := ps[i];
      assert ps[..i + 1][..i] == ps[..i];
      var key := d.keyOf(p);
      if key.Err? {
        Detectors.RunStopsAtFailure(d, b0, ps, i + 1);
        return b, Some(key.error);
      }
      var flag := Detectors.Flag(d, key.value, p);
      if flag.Err? {
        Detectors.RunStopsAtFailure(d, b0, ps, i + 1);
        return b, Some(flag.error);
      }
      if flag.value {
        if key.value !in b {
          Detectors.RunStopsAtFailure(d, b0, ps, i + 1);
          return b, Some(KeyError);
        }
        b := b[key.value := b[key.value] + [p.event]];
      }
      i := i + 1;
    }
    assert ps[..i] == ps;
    failure := None;
  }

  /** One pass of `for team in score_copy: score_copy[team].remove(max(score_copy[team]))`. */
  method RemoveRound(scores0: map<string, seq<int>>, order: seq<string>)
    returns (scores: map<string, seq<int>>, failure: Option<Error>)
    requires Distinct(order) && forall s :: s in scores0 <==> s in order
    ensures failure.Some? <==> exists s :: s in scores0 && |scores0[s]| == 0
    ensures failure.Some? ==> failure == Some(ValueError)
    ensures failure.None? ==> scores.Keys == scores0.Keys
    ensures failure.None? ==> forall s :: s in scores0 ==> |scores0[s]| > 0 && scores[s] == DropsModel.RemoveFirstMax(scores0[s])
  {
    scores := scores0;
    var j := 0;
    while j < |order|
      invariant 0 <= j <= |order|
      invariant scores.Keys == scores0.Keys
      invariant forall s :: s in scores0 && s in order[..j] ==>
        |scores0[s]| > 0 && scores[s] == DropsModel.RemoveFirstMax(scores0[s])
      invariant forall s :: s in scores0 && s !in order[..j] ==> scores[s] == scores0[s]
    {
      var s := order[j];
      assert s !in order[..j];
      if |scores[s]| == 0 {
        return scores, Some(ValueError);
      }
      scores := scores[s := DropsModel.RemoveFirstMax(scores[s])];
      assert order[..j + 1] == order[..j] + [s];
      j := j + 1;
    }
    assert order[..j] == order;
    failure := None;
  }

  /** `for _ in range(drops): ...`: k passes, each taking every school's maximum out. */
  method RemoveMaxima(scores0: map<string, seq<int>>, order: seq<string>, k: nat)
    returns (scores: map<string, seq<int>>, failure: Option<Error>)
    requires Distinct(order) && forall s :: s in scores0 <==> s in order
    ensures failure.Some? <==> exists s :: s in scores0 && |scores0[s]| < k
    ensures failure.Some? ==> failure == Some(ValueError)
    ensures failure.None? ==> scores.Keys == scores0.Keys
    ensures failure.None? ==> forall s :: s in scores0 ==> k <= |scores0[s]| && scores[s] == DropsModel.DropMaxima(scores0[s], k)
  {
    scores := scores0;
    var round := 0;
    while round < k
      invariant 0 <= round <= k
      invariant scores.Keys == scores0.Keys
      invariant forall s :: s in scores0 ==> round <= |scores0[s]| && scores[s] == DropsModel.DropMaxima(scores0[s], round)
    {
      var before := scores;
      scores, failure := RemoveRound(scores, order);
      if failure.Some? {
        var s :| s in before && |before[s]| == 0;
        assert s in scores0 && |scores0[s]| < k;
        return;
      }
      round := round + 1;
    }
    failure := None;
  }

  /** The number of events that are not trial events, as `main` counts them. */
  function ScoredCount(raw: RawData): (n: nat)
  {
    |raw.events| - |TrialNames(raw.events)|
  }

  /** Whether every placing's team number names a school of the list. */
  predicate TeamsFound(raw: RawData)
  {
    AllFound(SchoolList(raw.teams), raw.placings, |raw.placings|)
  }

  /** The `full_scores` the placings loop leaves. */
  function Full(raw: RawData): map<string, seq<int>>
  {
    FullScores(raw.placings, |raw.placings|, SchoolList(raw.teams), TrialNames(raw.events))
  }

  /** The `total_scores` the placings loop leaves. */
  function TotalScores(raw: RawData): map<string, int>
  {
    Totals(raw.placings, |raw.placings|, SchoolList(raw.teams), TrialNames(raw.events))
  }

  /** The rule's run over the placings, once the averages exist. */
  function Detected(raw: RawData, call: string, alpha: real): Detectors.Progress<string>
    requires |raw.teams| == 0 || ScoredCount(raw) > 0
  {
    var teams := SchoolList(raw.teams);
    var full := Full(raw);
    var averages := Averages(TotalScores(raw), ScoredCount(raw));
    Detectors.Run(Detection(call, alpha, teams, TrialNames(raw.events), averages, full), Empty(teams), raw.placings)
  }

  /** `sum([len(bombed_events[t]) for t in bombed_events])` after the rule has run. */
  function Bombed(raw: RawData, call: string, alpha: real): (n: nat)
    requires |raw.teams| == 0 || ScoredCount(raw) > 0
  {
    var teams := SchoolList(raw.teams);
    var full := Full(raw);
    var d := Detection(call, alpha, teams, TrialNames(raw.events), Averages(TotalScores(raw), ScoredCount(raw)), full);
    Detectors.RunKeys(d, Empty(teams), raw.placings);
    DropsModel.BombedTotal(Detected(raw, call, alpha).bombed, Dedup(teams))
  }

  /**
   * `drops = round(total bombed / len(teams))`: the divisor is the length of
   * the team list, divisions included, not the number of schools.
   */
  function DropCount(raw: RawData, call: string, alpha: real): (k: nat)
    requires |raw.teams| > 0 && ScoredCount(raw) > 0
    ensures 2 * (k * |raw.teams| - Bombed(raw, call, alpha)) <= |raw.teams|
    ensures 2 * (Bombed(raw, call, alpha) - k * |raw.teams|) <= |raw.teams|
  {
    Stats.RoundHalfEven(Bombed(raw, call, alpha), |raw.teams|)
  }

  /** The drop loop's outcome: ValueError if some list runs out, else every list without its k largest places. */
  function Trimmed(full: map<string, seq<int>>, k: nat): Result<map<string, seq<int>>>
  {
    if exists s :: s in full && |full[s]| < k then Err(ValueError)
    else Ok(map s | s in full :: DropsModel.DropMaxima(full[s], k))
  }

  /** Lists each shortened by k largest places are what the drop loop leaves. */
  lemma TrimmedOk(full: map<string, seq<int>>, k: nat, scores: map<string, seq<int>>)
    requires scores.Keys == full.Keys
    requires forall s :: s in full ==> k <= |full[s]| && scores[s] == DropsModel.DropMaxima(full[s], k)
    ensures Trimmed(full, k) == Ok(scores)
  {
    assert !exists s :: s in full && |full[s]| < k;
    var m := map s | s in full :: DropsModel.DropMaxima(full[s], k);
    assert Trimmed(full, k) == Ok(m);
    assert m.Keys == scores.Keys;
    forall s | s in m
      ensures m[s] == scores[s]
    {
    }
    assert m == scores;
  }

  /** What `main` returns, or the exception it raises, once the averages exist. */
  function Dropping(raw: RawData, call: string, alpha: real): Result<map<string, seq<int>>>
    requires |raw.teams| == 0 || ScoredCount(raw) > 0
  {
    var run := Detected(raw, call, alpha);
    if run.failure.Some? then Err(run.failure.value)
    else if |raw.teams| == 0 then Err(ZeroDivisionError)
    else Trimmed(Full(raw), DropCount(raw, call, alpha))
  }

  /** What `main` returns, or the exception it raises. */
  function Outcome(raw: RawData, call: string, alpha: real): Result<map<string, seq<int>>>
  {
    if !TeamsFound(raw) then Err(IndexError)
    else if |raw.teams| > 0 && ScoredCount(raw) == 0 then Err(ZeroDivisionError)
    else Dropping(raw, call, alpha)
  }

  /**
   * `main(file_path, call, alpha)` on loaded data: tally, average, detect,
   * drop, and return the school lists. `score_copy` is a shallow copy, so its
   * lists are those of `full_scores`: one map stands for both.
   */
  method ScoresAfterDrops(raw: RawData, call: string, alpha: real) returns (r: Result<map<string, seq<int>>>)
    ensures r == Outcome(raw, call, alpha)
  {
    var teams := SchoolList(raw.teams);
    var trial := TrialNames(raw.events);
    var tally := Tally(teams, trial, raw.placings);
    if tally.Err? {
      return Err(tally.error);
    }
    var full := tally.value.full;
    assert full == Full(raw);
    var count := ScoredCount(raw);
    if |teams| > 0 && count == 0 {
      return Err(ZeroDivisionError);
    }
    r := DetectAndDrop(raw, call, alpha, full, tally.value.totals);
  }

  /** The part of `main` after the placings loop: averages, the rule, the drop count and the drop loop. */
  method DetectAndDrop(raw: RawData, call: string, alpha: real, full: map<string, seq<int>>, totals: map<string, int>)
    returns (r: Result<map<string, seq<int>>>)
    requires |raw.teams| == 0 || ScoredCount(raw) > 0
    requires full == Full(raw) && totals == TotalScores(raw)
    ensures r == Dropping(raw, call, alpha)
  {
    var teams := SchoolList(raw.teams);
    assert |teams| == 0 ==> totals == map[];
    var averages := Averages(totals, ScoredCount(raw));
    var d := Detection(call, alpha, teams, TrialNames(raw.events), averages, full);
    var bombed, failure := Detect(d, Empty(teams), raw.placings);
    assert Detected(raw, call, alpha) == Detectors.Progress(bombed, failure);
    if failure.Some? {
      return Err(failure.value);
    }
    if |teams| == 0 {
      return Err(ZeroDivisionError);
    }
    r := DropStage(raw, call, alpha, full, bombed);
  }

  /** `drops = round(...)` and the drop loop, once the rule has run without an exception. */
  method DropStage(raw: RawData, call: string, alpha: real, full: map<string, seq<int>>, bombed: map<string, seq<string>>)
    returns (r: Result<map<string, seq<int>>>)
    requires |raw.teams| > 0 && ScoredCount(raw) > 0
    requires full == Full(raw) && bombed == Detected(raw, call, alpha).bombed
    ensures r == Trimmed(full, DropCount(raw, call, alpha))
  {
    var teams := SchoolList(raw.teams);
    var d := Detection(call, alpha, teams, TrialNames(raw.events), Averages(TotalScores(raw), ScoredCount(raw)), full);
    Detectors.RunKeys(d, Empty(teams), raw.placings);
    var order := Dedup(teams);
    var k := Stats.RoundHalfEven(DropsModel.BombedTotal(bombed, order), |teams|);
    assert k == DropCount(raw, call, alpha);
    var scores, lost := RemoveMaxima(full, order, k);
    if lost.Some? {
      return Err(ValueError);
    }
    TrimmedOk(full, k, scores);
    r := Ok(scores);
  }

  /**
   * Every call name other than "std_deviation" and "iqr" runs the Mean
   * rule, so `main` behaves as it does for "mean".
   */
  lemma OtherCallsAreMean(raw: RawData, call: string, alpha: real)
    requires call != "std_deviation" && call != "iqr"
    ensures Outcome(raw, call, alpha) == Outcome(raw, "mean", alpha)
  {
    if TeamsFound(raw) && (|raw.teams| == 0 || ScoredCount(raw) > 0) {
      assert RuleFor(call) == RuleFor("mean");
      var teams := SchoolList(raw.teams);
      var full := Full(raw);
      var averages := Averages(TotalScores(raw), ScoredCount(raw));
      var trial := TrialNames(raw.events);
      assert Detection(call, alpha, teams, trial, averages, full) == Detection("mean", alpha, teams, trial, averages, full);
      assert Detected(raw, call, alpha) == Detected(raw, "mean", alpha);
    }
  }

  /**
   * Neither the Mean nor the Std rule can raise once every team number was
   * found: the averages and the lists have a key for every school.
   */
  lemma MeanAndStdNeverRaise(raw: RawData, call: string, alpha: real)
    requires TeamsFound(raw) && (|raw.teams| == 0 || ScoredCount(raw) > 0)
    requires call != "iqr"
    ensures Detected(raw, call, alpha).failure.None?
  {
    var teams := SchoolList(raw.teams);
    var full := Full(raw);
    var d := Detection(call, alpha, teams, TrialNames(raw.events), Averages(TotalScores(raw), ScoredCount(raw)), full);
    var ps := raw.placings;
    forall i | 0 <= i < |ps|
      ensures !Detectors.Fails(d, ps[i])
    {
      assert InRange(teams, ps[i].team);
    }
    Detectors.RunMeaning(d, Empty(teams), ps);
  }

  /**
   * The IQR rule raises IndexError, numpy's quantile of an empty list,
   * exactly when some placing belongs to a school with no scored placing.
   */
  lemma IqrRaisesOnEmptyList(raw: RawData, alpha: real)
    requires TeamsFound(raw) && (|raw.teams| == 0 || ScoredCount(raw) > 0)
    ensures Detected(raw, "iqr", alpha).failure.Some?
      <==> exists i :: 0 <= i < |raw.placings|
                       && |Full(raw)[SchoolAt(SchoolList(raw.teams), raw.placings[i].team).value]| == 0
    ensures Detected(raw, "iqr", alpha).failure.Some? ==> Detected(raw, "iqr", alpha).failure == Some(IndexError)
  {
    var teams := SchoolList(raw.teams);
    var full := Full(raw);
    var d := Detection("iqr", alpha, teams, TrialNames(raw.events), Averages(TotalScores(raw), ScoredCount(raw)), full);
    var ps := raw.placings;
    forall i | 0 <= i < |ps|
      ensures Detectors.Fails(d, ps[i]) <==> |full[SchoolAt(teams, ps[i].team).value]| == 0
    {
      assert InRange(teams, ps[i].team);
    }
    Detectors.RunMeaning(d, Empty(teams), ps);
    if Detected(raw, "iqr", alpha).failure.Some? {
      IqrFailureIsIndexError(d, Empty(teams), ps);
    }
  }

  /** The IQR rule's only exception here is IndexError. */
  lemma {:induction false} IqrFailureIsIndexError(d: Detectors.Detection<string>, b: map<string, seq<string>>, ps: seq<Placing>)
    requires d.rule == Detectors.IqrRule
    requires forall i :: 0 <= i < |ps| ==> d.keyOf(ps[i]).Ok? && d.keyOf(ps[i]).value in d.fullScores
    requires forall i :: 0 <= i < |ps| ==> d.keyOf(ps[i]).value in b
    requires Detectors.Run(d, b, ps).failure.Some?
    ensures Detectors.Run(d, b, ps).failure == Some(IndexError)
  {
    var init := ps[..|ps| - 1];
    Detectors.RunKeys(d, b, init);
    if Detectors.Run(d, b, init).failure.Some? {
      IqrFailureIsIndexError(d, b, init);
    }
  }

  /**
   * How `main` ends for the Mean and Std rules: IndexError exactly when a
   * team number is outside the list; otherwise ZeroDivisionError when there
   * are no teams or every event is a trial event; otherwise ValueError
   * exactly when some school has fewer places than the drop count.
   */
  lemma OutcomeErrors(raw: RawData, call: string, alpha: real)
    requires call != "iqr"
    ensures Outcome(raw, call, alpha) == Err(IndexError) <==> !TeamsFound(raw)
    ensures TeamsFound(raw) && (|raw.teams| == 0 || ScoredCount(raw) == 0) ==> Outcome(raw, call, alpha) == Err(ZeroDivisionError)
    ensures TeamsFound(raw) && |raw.teams| > 0 && ScoredCount(raw) > 0 ==>
      var full, k := Full(raw), DropCount(raw, call, alpha);
      && (Outcome(raw, call, alpha).Err? <==> exists s :: s in full && |full[s]| < k)
      && (Outcome(raw, call, alpha).Err? ==> Outcome(raw, call, alpha) == Err(ValueError))
  {
    if TeamsFound(raw) && (|raw.teams| == 0 || ScoredCount(raw) > 0) {
      MeanAndStdNeverRaise(raw, call, alpha);
    }
  }

  /**
   * What `main` returns: one list per school; every list has lost the same
   * number k of entries, the drop count; the kept entries and the k dropped
   * ones are together the school's places, and no kept entry exceeds a
   * dropped one.
   */
  lemma OutcomeLists(raw: RawData, call: string, alpha: real)
    requires Outcome(raw, call, alpha).Ok?
    ensures |raw.teams| > 0 && ScoredCount(raw) > 0
    ensures var out, full, k := Outcome(raw, call, alpha).value, Full(raw), DropCount(raw, call, alpha);
      && (forall s :: s in out <==> s in SchoolList(raw.teams))
      && forall s :: s in out ==>
           && k <= |full[s]| && |out[s]| == |full[s]| - k
           && multiset(out[s]) + multiset(DropsModel.Dropped(full[s], k)) == multiset(full[s])
           && forall i, x :: 0 <= i < k && x in out[s] ==> x <= DropsModel.Dropped(full[s], k)[i]
  {
    assert TeamsFound(raw) && |raw.teams| > 0 && ScoredCount(raw) > 0;
    assert Outcome(raw, call, alpha) == Trimmed(Full(raw), DropCount(raw, call, alpha));
    TrimmedLists(Full(raw), DropCount(raw, call, alpha));
  }

  /** The lists the drop loop leaves, against the lists it started from. */
  lemma TrimmedLists(full: map<string, seq<int>>, k: nat)
    requires Trimmed(full, k).Ok?
    ensures var out := Trimmed(full, k).value;
      && out.Keys == full.Keys
      && forall s :: s in out ==>
           && k <= |full[s]| && |out[s]| == |full[s]| - k
           && multiset(out[s]) + multiset(DropsModel.Dropped(full[s], k)) == multiset(full[s])
           && forall i, x :: 0 <= i < k && x in out[s] ==> x <= DropsModel.Dropped(full[s], k)[i]
  {
    var out := Trimmed(full, k).value;
    forall s | s in out
      ensures k <= |full[s]| && |out[s]| == |full[s]| - k
      ensures multiset(out[s]) + multiset(DropsModel.Dropped(full[s], k)) == multiset(full[s])
      ensures forall i, x :: 0 <= i < k && x in out[s] ==> x <= DropsModel.Dropped(full[s], k)[i]
    {
      assert out[s] == DropsModel.DropMaxima(full[s], k);
      DropsModel.DropMaximaSplits(full[s], k);
      DropsModel.DropMaximaLargest(full[s], k);
    }
  }

  /**
   * What `Results` keeps for team number t, added up, after the first n
   * placings: the places of the scored placings that name t.
   */
  function TeamTotal(ps: seq<Placing>, n: nat, t: int, trial: seq<string>, missing: int): int
    requires n <= |ps|
  {
    if n == 0 then 0
    else TeamTotal(ps, n - 1, t, trial, missing)
         + (if ps[n - 1].team == t && Scored(ps[n - 1], trial) then EffectivePlace(ps[n - 1], missing) else 0)
  }

  /** A number's total depends only on the placings counted so far. */
  lemma {:induction false} TeamTotalPrefix(ps: seq<Placing>, qs: seq<Placing>, n: nat, t: int, trial: seq<string>,
                                           missing: int)
    requires n <= |ps| && n <= |qs| && ps[..n] == qs[..n]
    ensures TeamTotal(ps, n, t, trial, missing) == TeamTotal(qs, n, t, trial, missing)
  {
    if n > 0 {
      assert ps[n - 1] == ps[..n][n - 1] == qs[n - 1];
      assert ps[..n - 1] == ps[..n][..n - 1];
      assert qs[..n - 1] == qs[..n][..n - 1];
      TeamTotalPrefix(ps, qs, n - 1, t, trial, missing);
    }
  }

  /** The total of a number is the sum of the list of places `Results` keeps for it. */
  lemma {:induction false} TeamTotalIsSum(ps: seq<Placing>, t: int, trial: seq<string>, missing: int)
    ensures TeamTotal(ps, |ps|, t, trial, missing) == Sum(ScoresOf(ps, t, trial, missing))
  {
    if |ps| > 0 {
      var init := ps[..|ps| - 1];
      TeamTotalIsSum(init, t, trial, missing);
      TeamTotalPrefix(ps, init, |ps| - 1, t, trial, missing);
      ScoresOfStep(ps, t, trial, missing);
    }
  }

  /** One more placing adds its place to the total of its team number, if it is scored. */
  lemma ScoresOfStep(ps: seq<Placing>, t: int, trial: seq<string>, missing: int)
    requires |ps| > 0
    ensures var p := ps[|ps| - 1];
      Sum(ScoresOf(ps, t, trial, missing))
      == Sum(ScoresOf(ps[..|ps| - 1], t, trial, missing)) + (if p.team == t && Scored(p, trial) then EffectivePlace(p, missing) else 0)
  {
    var p := ps[|ps| - 1];
    var last := if p.team == t && Scored(p, trial) then [EffectivePlace(p, missing)] else [];
    var before := ScoresOf(ps[..|ps| - 1], t, trial, missing);
    assert ScoresOf(ps, t, trial, missing) == before + last;
    SumAppend(before, last);
    if last != [] {
      DropsModel.SumSingle(last[0]);
    }
  }

  /** The totals of the numbers 1..m after the first n placings; entry k is number k + 1. */
  function TeamTotals(ps: seq<Placing>, n: nat, trial: seq<string>, count: nat, m: nat): (r: seq<int>)
    requires n <= |ps|
    ensures |r| == m
    ensures forall k :: 0 <= k < m ==> r[k] == TeamTotal(ps, n, k + 1, trial, count)
  {
    if m == 0 then [] else TeamTotals(ps, n, trial, count, m - 1) + [TeamTotal(ps, n, m, trial, count)]
  }

  /** The values of the numbers 1..m that name school s, added up. */
  function Pooled(vals: seq<int>, teams: seq<string>, s: string, m: nat): int
    requires m <= |teams| && m <= |vals|
  {
    if m == 0 then 0 else Pooled(vals, teams, s, m - 1) + (if teams[m - 1] == s then vals[m - 1] else 0)
  }

  /** The per-number totals after the first n placings, added up over the numbers that name school s. */
  function DivisionTotal(ps: seq<Placing>, n: nat, teams: seq<string>, trial: seq<string>, s: string): int
    requires n <= |ps|
  {
    Pooled(TeamTotals(ps, n, trial, |teams|, |teams|), teams, s, |teams|)
  }

  /** What one placing adds to the division total of school s. */
  function Contribution(p: Placing, teams: seq<string>, trial: seq<string>, s: string): int
  {
    if 1 <= p.team <= |teams| && teams[p.team - 1] == s && Scored(p, trial) then EffectivePlace(p, |teams|) else 0
  }

  /** Raising the value of one number by d raises the pooled value by d exactly when that number is counted. */
  lemma {:induction false} PooledShift(a: seq<int>, b: seq<int>, teams: seq<string>, s: string, m: nat, j: int, d: int)
    requires m <= |teams| && m <= |a| == |b|
    requires forall k :: 0 <= k < |a| ==> a[k] == b[k] + (if k == j then d else 0)
    ensures Pooled(a, teams, s, m) == Pooled(b, teams, s, m) + (if 0 <= j < m && teams[j] == s then d else 0)
  {
    if m > 0 {
      PooledShift(a, b, teams, s, m - 1, j, d);
    }
  }

  /** All-zero values pool to zero. */
  lemma {:induction false} PooledZero(vals: seq<int>, teams: seq<string>, s: string, m: nat)
    requires m <= |teams| && m <= |vals| && forall k :: 0 <= k < |vals| ==> vals[k] == 0
    ensures Pooled(vals, teams, s, m) == 0
  {
    if m > 0 {
      PooledZero(vals, teams, s, m - 1);
    }
  }

  /** Placing n adds its place to the division total of its school, if it is scored. */
  lemma DivisionStep(ps: seq<Placing>, n: nat, teams: seq<string>, trial: seq<string>, s: string)
    requires n < |ps|
    ensures DivisionTotal(ps, n + 1, teams, trial, s) == DivisionTotal(ps, n, teams, trial, s) + Contribution(ps[n], teams, trial, s)
  {
    var p := ps[n];
    var a, b := TeamTotals(ps, n + 1, trial, |teams|, |teams|), TeamTotals(ps, n, trial, |teams|, |teams|);
    var d := if Scored(p, trial) then EffectivePlace(p, |teams|) else 0;
    assert forall k :: 0 <= k < |a| ==> a[k] == b[k] + (if k == p.team - 1 then d else 0);
    PooledShift(a, b, teams, s, |teams|, p.team - 1, d);
  }

  /**
   * Divisions pool: when every team number is one of 1..len(teams), a
   * school's total is the sum of the totals of all team numbers that name it.
   */
  lemma {:induction false} SchoolPoolsDivisions(ps: seq<Placing>, n: nat, teams: seq<string>, trial: seq<string>, s: string)
    requires n <= |ps| && forall i :: 0 <= i < n ==> 1 <= ps[i].team <= |teams|
    ensures SchoolTotal(ps, n, teams, trial, s) == DivisionTotal(ps, n, teams, trial, s)
  {
    if n == 0 {
      PooledZero(TeamTotals(ps, 0, trial, |teams|, |teams|), teams, s, |teams|);
    } else {
      SchoolPoolsDivisions(ps, n - 1, teams, trial, s);
      DivisionStep(ps, n - 1, teams, trial, s);
    }
  }
}
