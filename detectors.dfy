/**
 * The three "bombed event" rules (Mean, StdDeviation, IQR) and the loop that
 * applies one of them to every placing. The loop is shared by the class
 * `Drops` (teams keyed by number) and the older script `drops.py` (teams keyed
 * by school name), so it is generic in the key type; what differs between
 * the two is how a placing finds its key, which the caller passes in.
 */
module Detectors {
  import opened Common
  import opened Results
  import Stats
  import StableSort

  datatype Rule = MeanRule | StdRule | IqrRule

  /** `averages[team] * alpha < place`, with numpy's infinities and NaN. */
  predicate AboveScaledAverage(place: int, avg: Average, alpha: real)
  {
    match avg
    case Finite(a) => place as real > a * alpha
    case PosInf => alpha < 0.0      // inf * alpha is -inf only for a negative alpha
    case NegInf => alpha > 0.0
    case NaN => false
  }

  /** The rules compare a placing's effective place against the team's statistics. */
  datatype Detection<K> = Detection(
    rule: Rule,
    alpha: real,
    missing: int,                       // the place that stands for a missing one
    trial: seq<string>,
    averages: map<K, Average>,
    fullScores: map<K, seq<int>>,
    keyOf: Placing -> Result<K>)        // how a placing finds its team's key

  /**
   * Whether one placing is flagged, or the error its lookups raise. Each rule
   * evaluates its statistic before it looks at the trial flag, so a lookup
   * error is raised for trial placings too; numpy's quantile of an empty list
   * raises IndexError, its mean and std of an empty list are NaN.
   */
  function Flag<K>(d: Detection<K>, k: K, p: Placing): Result<bool>
  {
    var place := EffectivePlace(p, d.missing);
    match d.rule
    case MeanRule =>
      if k !in d.averages then Err(KeyError)
      else Ok(AboveScaledAverage(place, d.averages[k], d.alpha) && Scored(p, d.trial))
    case StdRule =>
      if k !in d.fullScores then Err(KeyError)
      else Ok(Stats.AboveStdFence(place, d.fullScores[k], d.alpha) && Scored(p, d.trial))
    case IqrRule =>
      if k !in d.fullScores then Err(KeyError)
      else if |d.fullScores[k]| == 0 then Err(IndexError)
      else Ok(place as real > Stats.IqrFence(d.fullScores[k], d.alpha) && Scored(p, d.trial))
  }

  /** The bombed-event lists after a prefix of the placings, and the error that stopped the loop, if any. */
  datatype Progress<K> = Progress(bombed: map<K, seq<string>>, failure: Option<Error>)

  /** One turn of the loop: look up the key, decide, append the event name. */
  function Step<K>(d: Detection<K>, b: map<K, seq<string>>, p: Placing): Progress<K>
  {
    match d.keyOf(p)
    case Err(e) => Progress(b, Some(e))
    case Ok(k) =>
      match Flag(d, k, p)
      case Err(e) => Progress(b, Some(e))
      case Ok(flagged) =>
        if !flagged then Progress(b, None)
        else if k !in b then Progress(b, Some(KeyError))
        else Progress(b[k := b[k] + [p.event]], None)
  }

  /** The loop over `raw_placements`, stopping at the first exception. */
  function Run<K>(d: Detection<K>, b: map<K, seq<string>>, ps: seq<Placing>): Progress<K>
  {
    if |ps| == 0 then Progress(b, None)
    else
      var prev := Run(d, b, ps[..|ps| - 1]);
      if prev.failure.Some? then prev else Step(d, prev.bombed, ps[|ps| - 1])
  }

  /** Whether a placing belongs to key k and is flagged. */
  predicate FlaggedFor<K>(d: Detection<K>, p: Placing, k: K)
  {
    d.keyOf(p) == Ok(k) && Flag(d, k, p) == Ok(true)
  }

  /** The event names of the placings flagged for key k, in placing order. */
  function FlaggedEvents<K>(d: Detection<K>, ps: seq<Placing>, k: K): seq<string>
  {
    if |ps| == 0 then []
    else FlaggedEvents(d, ps[..|ps| - 1], k)
         + (if FlaggedFor(d, ps[|ps| - 1], k) then [ps[|ps| - 1].event] else [])
  }

  /** Whether some placing makes a lookup fail. */
  predicate Fails<K>(d: Detection<K>, p: Placing)
  {
    match d.keyOf(p)
    case Err(_) => true
    case Ok(k) => Flag(d, k, p).Err?
  }

  /**
   * What the loop computes: when the keys of the lists include every key a
   * placing can reach, it fails exactly when some placing's lookups fail, and
   * otherwise each list has the flagged events of its key appended, in
   * placing order, and nothing else.
   */
  lemma {:induction false} RunMeaning<K>(d: Detection<K>, b: map<K, seq<string>>, ps: seq<Placing>)
    requires forall i, k :: 0 <= i < |ps| && d.keyOf(ps[i]) == Ok(k) && Flag(d, k, ps[i]).Ok? ==> k in b
    ensures Run(d, b, ps).failure.Some? <==> exists i :: 0 <= i < |ps| && Fails(d, ps[i])
    ensures Run(d, b, ps).failure.None? ==>
      Run(d, b, ps).bombed.Keys == b.Keys
      && forall k :: k in b ==> Run(d, b, ps).bombed[k] == b[k] + FlaggedEvents(d, ps, k)
  {
    if |ps| > 0 {
      var init := ps[..|ps| - 1];
      var p := ps[|ps| - 1];
      assert forall i :: 0 <= i < |init| ==> init[i] == ps[i];
      RunMeaning(d, b, init);
      var prev := Run(d, b, init);
      if prev.failure.None? {
        StepMeaning(d, prev.bombed, p);
        var next := Step(d, prev.bombed, p);
        assert next == Run(d, b, ps);
        if next.failure.None? {
          forall k | k in b
            ensures next.bombed[k] == b[k] + FlaggedEvents(d, ps, k)
          {
            var tail := if FlaggedFor(d, p, k) then [p.event] else [];
            assert FlaggedEvents(d, ps, k) == FlaggedEvents(d, init, k) + tail;
            assert next.bombed[k] == (b[k] + FlaggedEvents(d, init, k)) + tail;
          }
        }
      }
    }
  }

  /** One turn of the loop fails exactly when the placing's lookups fail, and otherwise appends its flagged event. */
  lemma StepMeaning<K>(d: Detection<K>, b: map<K, seq<string>>, p: Placing)
    requires forall k :: d.keyOf(p) == Ok(k) && Flag(d, k, p).Ok? ==> k in b
    ensures Step(d, b, p).failure.Some? <==> Fails(d, p)
    ensures Step(d, b, p).failure.None? ==>
      Step(d, b, p).bombed.Keys == b.Keys
      && forall k :: k in b ==> Step(d, b, p).bombed[k] == b[k] + (if FlaggedFor(d, p, k) then [p.event] else [])
  {
  }

  /** The loop only appends to lists already present: the keys never change. */
  lemma {:induction false} RunKeys<K>(d: Detection<K>, b: map<K, seq<string>>, ps: seq<Placing>)
    ensures Run(d, b, ps).bombed.Keys == b.Keys
  {
    if |ps| > 0 {
      RunKeys(d, b, ps[..|ps| - 1]);
    }
  }

  /** Once the loop has failed on a prefix, the later placings change nothing. */
  lemma {:induction false} RunStopsAtFailure<K>(d: Detection<K>, b: map<K, seq<string>>, ps: seq<Placing>, j: nat)
    requires j <= |ps| && Run(d, b, ps[..j]).failure.Some?
    ensures Run(d, b, ps) == Run(d, b, ps[..j])
  {
    if j < |ps| {
      var init := ps[..|ps| - 1];
      assert init[..j] == ps[..j];
      RunStopsAtFailure(d, b, init, j);
    } else {
      assert ps[..j] == ps;
    }
  }

  /** No rule ever flags a placing of a trial event, whatever alpha is. */
  lemma {:induction false} TrialNeverFlagged<K>(d: Detection<K>, ps: seq<Placing>, k: K)
    ensures forall e :: e in FlaggedEvents(d, ps, k) ==> e !in d.trial
  {
    if |ps| > 0 {
      TrialNeverFlagged(d, ps[..|ps| - 1], k);
    }
  }

  /**
   * Raising alpha never flags a placing that a smaller alpha does not. For
   * the Mean rule this needs the averages not to be negative.
   */
  lemma FlagAntitone<K>(d: Detection<K>, a1: real, a2: real, k: K, p: Placing)
    requires a1 <= a2
    requires d.rule == MeanRule && k in d.averages ==> NonNegative(d.averages[k])
    ensures Flag(d.(alpha := a2), k, p) == Ok(true) ==> Flag(d.(alpha := a1), k, p) == Ok(true)
    ensures Flag(d.(alpha := a2), k, p).Err? <==> Flag(d.(alpha := a1), k, p).Err?
  {
    var place := EffectivePlace(p, d.missing);
    match d.rule
    case MeanRule =>
      if k in d.averages && d.averages[k].Finite? {
        var a := d.averages[k].value;
        assert a * a1 <= a * a2 by { Stats.MulNonNegative(a, a2 - a1); }
      }
    case StdRule =>
      if k in d.fullScores { Stats.StdFenceAntitone(place, d.fullScores[k], a1, a2); }
    case IqrRule =>
      if k in d.fullScores && |d.fullScores[k]| > 0 { Stats.IqrFenceMonotone(d.fullScores[k], a1, a2); }
  }

  predicate NonNegative(a: Average)
  {
    match a
    case Finite(x) => x >= 0.0
    case PosInf => true
    case NegInf => false
    case NaN => true
  }

  /** Hence a larger alpha flags at most as many events for any key. */
  lemma {:induction false} FlaggedCountAntitone<K>(d: Detection<K>, a1: real, a2: real, ps: seq<Placing>, k: K)
    requires a1 <= a2
    requires d.rule == MeanRule && k in d.averages ==> NonNegative(d.averages[k])
    ensures |FlaggedEvents(d.(alpha := a2), ps, k)| <= |FlaggedEvents(d.(alpha := a1), ps, k)|
  {
    if |ps| > 0 {
      FlaggedCountAntitone(d, a1, a2, ps[..|ps| - 1], k);
      FlagAntitone(d, a1, a2, k, ps[|ps| - 1]);
    }
  }

  /** Scores [1,1,1,1,5], alpha 1: the fence is 1.8 + 1.6 = 3.4, so 5 is flagged and 1 is not. */
  lemma StdWorkedExample()
    ensures Stats.AboveStdFence(5, [1, 1, 1, 1, 5], 1.0)
    ensures !Stats.AboveStdFence(1, [1, 1, 1, 1, 5], 1.0)
    ensures !Stats.AboveStdFence(3, [1, 1, 1, 1, 5], 1.0)
  {
    var s := [1, 1, 1, 1, 5];
    assert s[..4] == [1, 1, 1, 1];
    assert [1, 1, 1, 1][..3] == [1, 1, 1];
    assert [1, 1, 1][..2] == [1, 1];
    assert [1, 1][..1] == [1];
    assert [1][..0] == [];
    assert Sum(s) == 9;
    assert Stats.Mean(s) == 1.8;
    var m := 1.8;
    assert Stats.SquaredDeviations(s, m) == 12.8 by {
      assert Stats.SquaredDeviations([], m) == 0.0;
      assert Stats.SquaredDeviations([1], m) == 0.64;
      assert Stats.SquaredDeviations([1, 1], m) == 1.28;
      assert Stats.SquaredDeviations([1, 1, 1], m) == 1.92;
      assert Stats.SquaredDeviations([1, 1, 1, 1], m) == 2.56;
    }
    assert Stats.Variance(s) == 2.56;
  }

  /** Scores [2,4,4,4,5], alpha 1.5: both quartiles are 4, the fence is 4, so only 5 is above it. */
  lemma IqrWorkedExample()
    ensures Stats.IqrFence([2, 4, 4, 4, 5], 1.5) == 4.0
    ensures 5 as real > Stats.IqrFence([2, 4, 4, 4, 5], 1.5)
    ensures !(4 as real > Stats.IqrFence([2, 4, 4, 4, 5], 1.5))
  {
    var s := [2, 4, 4, 4, 5];
    ExampleSorted();
    assert Stats.Q1(s) == 4.0 by {
      assert Stats.Q1(s) == Stats.Interpolate(s, 4);
    }
    assert Stats.Q3(s) == 4.0 by {
      assert Stats.Q3(s) == Stats.Interpolate(s, 12);
    }
    assert Stats.Fence(4.0, 4.0, 1.5) == 4.0;
  }

  lemma ExampleSorted()
    ensures Stats.SortInts([2, 4, 4, 4, 5]) == [2, 4, 4, 4, 5]
  {
    ExampleTailSorted();
    SortFront(2, [4, 4, 4, 5], [4, 4, 4, 5]);
    assert [2] + [4, 4, 4, 5] == [2, 4, 4, 4, 5];
  }

  lemma ExampleTailSorted()
    ensures StableSort.Sort([4, 4, 4, 5], Stats.IntKey) == [4, 4, 4, 5]
  {
    SortFront(5, [], []);
    assert [5] + [] == [5];
    SortFront(4, [5], [5]);
    assert [4] + [5] == [4, 5];
    SortFront(4, [4, 5], [4, 5]);
    assert [4] + [4, 5] == [4, 4, 5];
    SortFront(4, [4, 4, 5], [4, 4, 5]);
    assert [4] + [4, 4, 5] == [4, 4, 4, 5];
  }

  /** Sorting x :: t, where t sorts to r and x is at most r's head, puts x in front. */
  lemma SortFront(x: int, t: seq<int>, r: seq<int>)
    requires StableSort.Sort(t, Stats.IntKey) == r
    requires |r| == 0 || x <= r[0]
    ensures StableSort.Sort([x] + t, Stats.IntKey) == [x] + r
  {
    assert ([x] + t)[1..] == t;
  }
}
