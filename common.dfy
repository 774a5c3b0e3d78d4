/**
 * Shared vocabulary of the scoring engine: the exceptions the Python code can
 * raise, a Result/Option pair for them, and small reductions over sequences.
 */
module Common {

  /** The Python exceptions the core can raise, by class. */
  datatype Error =
    | KeyError            // a dict lookup with a missing key
    | ValueError          // `max([])`, `list.index` of an absent item, bad weights
    | IndexError          // an out-of-range list index, numpy quantile of []
    | ZeroDivisionError   // `/` with a zero divisor on Python ints
    | NotImplementedError // `ret_scores` read before `drop()`
    | AttributeError      // `super().method()` with no `method` above

  datatype Option<+T> = None | Some(value: T)

  datatype Result<+T> = Ok(value: T) | Err(error: Error) {
    predicate IsFailure() { Err? }
    function PropagateFailure<U>(): Result<U>
      requires Err?
    {
      Err(error)
    }
    function Extract(): T
      requires Ok?
    {
      value
    }
  }

  /** Python's `sum` / `np.sum` over a list of ints. */
  function Sum(s: seq<int>): int
  {
    if |s| == 0 then 0 else Sum(s[..|s| - 1]) + s[|s| - 1]
  }

  /** Sum of a sequence of reals. */
  function RealSum(s: seq<real>): real
  {
    if |s| == 0 then 0.0 else RealSum(s[..|s| - 1]) + s[|s| - 1]
  }

  lemma {:induction false} SumAppend(s: seq<int>, t: seq<int>)
    ensures Sum(s + t) == Sum(s) + Sum(t)
  {
    if |t| == 0 {
      assert s + t == s;
    } else {
      assert (s + t)[..|s + t| - 1] == s + t[..|t| - 1];
      SumAppend(s, t[..|t| - 1]);
    }
  }

  lemma {:induction false} SumNonNegative(s: seq<int>)
    requires forall i :: 0 <= i < |s| ==> s[i] >= 0
    ensures Sum(s) >= 0
  {
    if |s| > 0 {
      SumNonNegative(s[..|s| - 1]);
    }
  }

  /** A sum of |s| entries each at most b is at most |s| * b. */
  lemma {:induction false} SumBounded(s: seq<int>, b: int)
    requires forall i :: 0 <= i < |s| ==> s[i] <= b
    ensures Sum(s) <= |s| * b
  {
    if |s| > 0 {
      SumBounded(s[..|s| - 1], b);
    }
  }

  /** Python's `list.index(x)`: the first position of x. */
  function IndexOf<T(==)>(s: seq<T>, x: T): (r: Option<nat>)
    ensures r.None? <==> x !in s
    ensures r.Some? ==> r.value < |s| && s[r.value] == x
                        && forall j :: 0 <= j < r.value ==> s[j] != x
  {
    if |s| == 0 then None
    else if s[0] == x then Some(0)
    else match IndexOf(s[1..], x)
      case None => None
      case Some(k) => Some(k + 1)
  }

  predicate Distinct<T(==)>(s: seq<T>)
  {
    forall i, j :: 0 <= i < j < |s| ==> s[i] != s[j]
  }

  /** The distinct elements of s, in order of first occurrence. */
  function Dedup<T(==,!new)>(s: seq<T>): (r: seq<T>)
    ensures Distinct(r)
    ensures forall x :: x in r <==> x in s
    ensures |r| <= |s|
  {
    if |s| == 0 then []
    else
      var rest := Dedup(s[..|s| - 1]);
      if s[|s| - 1] in rest then rest else rest + [s[|s| - 1]]
  }

  /** Inside a prefix, the first occurrence is found in the prefix. */
  lemma IndexOfPrefix<T>(s: seq<T>, t: seq<T>, x: T)
    requires x in s
    ensures IndexOf(s + t, x) == IndexOf(s, x)
  {
    var k := IndexOf(s, x).value;
    var k' := IndexOf(s + t, x).value;
    assert (s + t)[k] == x;
    assert k' < |s| ==> s[k'] == x;
  }

  /**
   * Dedup keeps every element at its first occurrence: the result lists the
   * elements in the order their first occurrences appear in s.
   */
  lemma {:induction false} DedupOrder<T(!new)>(s: seq<T>)
    ensures forall i, j :: 0 <= i < j < |Dedup(s)| ==>
              IndexOf(s, Dedup(s)[i]).value < IndexOf(s, Dedup(s)[j]).value
  {
    if |s| > 0 {
      var init := s[..|s| - 1];
      var last := s[|s| - 1];
      var rest := Dedup(init);
      var r := Dedup(s);
      DedupOrder(init);
      assert s == init + [last];
      forall i, j | 0 <= i < j < |r|
        ensures IndexOf(s, r[i]).value < IndexOf(s, r[j]).value
      {
        assert r[i] == rest[i];
        IndexOfPrefix(init, [last], r[i]);
        if j < |rest| {
          IndexOfPrefix(init, [last], r[j]);
        } else {
          assert r[j] == last && last !in init;
        }
      }
    }
  }

  /** A list without repeats comes back from Dedup unchanged. */
  lemma {:induction false} DedupDistinct<T(!new)>(s: seq<T>)
    ensures Distinct(s) ==> Dedup(s) == s
  {
    if |s| > 0 && Distinct(s) {
      var init := s[..|s| - 1];
      assert Distinct(init);
      DedupDistinct(init);
      assert s[|s| - 1] !in init;
      assert s == init + [s[|s| - 1]];
    }
  }

  /** A set built from a list has at most as many elements as the list. */
  lemma {:induction false} SetOfSeqSize<T>(s: seq<T>)
    ensures |set x | x in s| <= |s|
  {
    if |s| > 0 {
      var init := s[..|s| - 1];
      SetOfSeqSize(init);
      assert (set x | x in s) == (set x | x in init) + {s[|s| - 1]};
    }
  }
}
