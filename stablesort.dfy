/**
 * Python's `sorted(items, key=...)`, which the engine uses to order teams by
 * number and score dictionaries by value, is a STABLE sort: items whose keys
 * are equal keep their input order. It is modelled here as an insertion sort
 * over an arbitrary element type with a real-valued key, together with the
 * three facts that pin it down: the output is ordered by key, it is a
 * permutation of the input, and for every key value the items having it
 * appear in the same relative order as in the input.
 */
module StableSort {

  ghost predicate SortedBy<T>(s: seq<T>, key: T -> real)
  {
    forall i, j :: 0 <= i < j < |s| ==> key(s[i]) <= key(s[j])
  }

  /** The items of s whose key is v, in their order in s. */
  function KeyBlock<T>(s: seq<T>, key: T -> real, v: real): seq<T>
  {
    if |s| == 0 then []
    else (if key(s[0]) == v then [s[0]] else []) + KeyBlock(s[1..], key, v)
  }

  /** Inserts x in front of the first item whose key is not smaller than x's. */
  function Insert<T>(x: T, s: seq<T>, key: T -> real): seq<T>
  {
    if |s| == 0 || key(x) <= key(s[0]) then [x] + s
    else [s[0]] + Insert(x, s[1..], key)
  }

  /** Stable sort by key: the head goes in front of every item with an equal key. */
  function Sort<T>(s: seq<T>, key: T -> real): seq<T>
  {
    if |s| == 0 then [] else Insert(s[0], Sort(s[1..], key), key)
  }

  lemma {:induction false} InsertPermutes<T>(x: T, s: seq<T>, key: T -> real)
    ensures multiset(Insert(x, s, key)) == multiset(s) + multiset{x}
    ensures |Insert(x, s, key)| == |s| + 1
  {
    if !(|s| == 0 || key(x) <= key(s[0])) {
      InsertPermutes(x, s[1..], key);
      assert s == [s[0]] + s[1..];
    }
  }

  lemma {:induction false} InsertSorted<T>(x: T, s: seq<T>, key: T -> real)
    requires SortedBy(s, key)
    ensures SortedBy(Insert(x, s, key), key)
  {
    var r := Insert(x, s, key);
    if |s| == 0 || key(x) <= key(s[0]) {
      forall i, j | 0 <= i < j < |r| ensures key(r[i]) <= key(r[j]) {
        if i > 0 { assert r[i] == s[i - 1] && r[j] == s[j - 1]; }
        else if j > 1 { assert r[j] == s[j - 1]; assert key(s[0]) <= key(s[j - 1]); }
      }
    } else {
      var tail := Insert(x, s[1..], key);
      assert r == [s[0]] + tail;
      InsertSorted(x, s[1..], key);
      InsertPermutes(x, s[1..], key);
      forall j | 0 < j < |r| ensures key(r[0]) <= key(r[j]) {
        assert r[j] == tail[j - 1];
        assert r[j] in multiset(tail);
        if r[j] != x {
          assert r[j] in multiset(s[1..]);
          var k :| 0 <= k < |s[1..]| && s[1..][k] == r[j];
          assert s[1..][k] == s[k + 1];
        }
      }
      forall i, j | 0 < i < j < |r| ensures key(r[i]) <= key(r[j]) {
        assert r[i] == tail[i - 1] && r[j] == tail[j - 1];
      }
    }
  }

  lemma {:induction false} InsertBlock<T>(x: T, s: seq<T>, key: T -> real, v: real)
    ensures KeyBlock(Insert(x, s, key), key, v)
            == (if key(x) == v then [x] else []) + KeyBlock(s, key, v)
  {
    var r := Insert(x, s, key);
    if |s| == 0 || key(x) <= key(s[0]) {
      assert r[1..] == s;
    } else {
      var tail := Insert(x, s[1..], key);
      assert r[1..] == tail;
      InsertBlock(x, s[1..], key, v);
      assert KeyBlock(s, key, v) == (if key(s[0]) == v then [s[0]] else []) + KeyBlock(s[1..], key, v);
    }
  }

  /** `sorted` returns a permutation of its input, ordered by key, and stable. */
  lemma {:induction false} SortFacts<T>(s: seq<T>, key: T -> real)
    ensures multiset(Sort(s, key)) == multiset(s)
    ensures |Sort(s, key)| == |s|
    ensures SortedBy(Sort(s, key), key)
    ensures forall v :: KeyBlock(Sort(s, key), key, v) == KeyBlock(s, key, v)
  {
    if |s| > 0 {
      SortFacts(s[1..], key);
      InsertPermutes(s[0], Sort(s[1..], key), key);
      InsertSorted(s[0], Sort(s[1..], key), key);
      assert s == [s[0]] + s[1..];
      forall v ensures KeyBlock(Sort(s, key), key, v) == KeyBlock(s, key, v) {
        InsertBlock(s[0], Sort(s[1..], key), key, v);
        assert KeyBlock(s, key, v) == (if key(s[0]) == v then [s[0]] else []) + KeyBlock(s[1..], key, v);
      }
    }
  }

  /** The sort keeps exactly the same items, so membership is unchanged. */
  lemma SortSameItems<T>(s: seq<T>, key: T -> real, x: T)
    ensures x in Sort(s, key) <==> x in s
  {
    SortFacts(s, key);
    assert x in Sort(s, key) <==> x in multiset(Sort(s, key));
    assert x in s <==> x in multiset(s);
  }
}
