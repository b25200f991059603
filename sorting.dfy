/**
 * Python's `sorted(xs, key=...)` and `list.sort(key=..., reverse=...)`:
 * a stable sort. It is written here as an insertion sort over a comparison
 * `le` ("key(a) <= key(b)", or the reverse for `reverse=True`), and proved
 * to return a sorted permutation of its input that keeps equal-key
 * elements in their original order.
 */
module Sorting {

  /** `le` is total and transitive: a key comparison. */
  ghost predicate TotalPreorder<T(!new)>(le: (T, T) -> bool) {
    && (forall a, b :: le(a, b) || le(b, a))
    && (forall a, b, c :: le(a, b) && le(b, c) ==> le(a, c))
  }

  predicate SortedBy<T>(s: seq<T>, le: (T, T) -> bool) {
    forall i, j :: 0 <= i < j < |s| ==> le(s[i], s[j])
  }

  /** Places `x` before the first element it does not exceed. */
  function Insert<T>(x: T, s: seq<T>, le: (T, T) -> bool): (r: seq<T>)
    ensures |r| == |s| + 1
  {
    if s == [] || le(x, s[0]) then [x] + s
    else [s[0]] + Insert(x, s[1..], le)
  }

  /** The stable sort. */
  function Sort<T>(s: seq<T>, le: (T, T) -> bool): (r: seq<T>)
    ensures |r| == |s|
  {
    if s == [] then []
    else Insert(s[0], Sort(s[1..], le), le)
  }

  lemma {:induction false} InsertPermutation<T>(x: T, s: seq<T>, le: (T, T) -> bool)
    ensures multiset(Insert(x, s, le)) == multiset(s) + multiset{x}
  {
    if s != [] && !le(x, s[0]) {
      InsertPermutation(x, s[1..], le);
      assert s == [s[0]] + s[1..];
    }
  }

  /** The sort returns a permutation of its input. */
  lemma {:induction false} SortPermutation<T>(s: seq<T>, le: (T, T) -> bool)
    ensures multiset(Sort(s, le)) == multiset(s)
  {
    if s != [] {
      SortPermutation(s[1..], le);
      InsertPermutation(s[0], Sort(s[1..], le), le);
      assert s == [s[0]] + s[1..];
    }
  }

  lemma SortSameElements<T>(s: seq<T>, le: (T, T) -> bool)
    ensures forall x :: x in Sort(s, le) <==> x in s
  {
    SortPermutation(s, le);
    forall x ensures x in Sort(s, le) <==> x in s {
      assert x in multiset(Sort(s, le)) <==> x in multiset(s);
    }
  }

  lemma {:induction false} InsertSorted<T(!new)>(x: T, s: seq<T>, le: (T, T) -> bool)
    requires TotalPreorder(le)
    requires SortedBy(s, le)
    ensures SortedBy(Insert(x, s, le), le)
  {
    if s == [] || le(x, s[0]) {
    } else {
      InsertSorted(x, s[1..], le);
      InsertPermutation(x, s[1..], le);
      var r := Insert(x, s, le);
      var t := Insert(x, s[1..], le);
      assert r == [s[0]] + t;
      forall k | 0 <= k < |t| ensures le(s[0], t[k]) {
        assert t[k] in multiset(t);
        assert t[k] == x || t[k] in multiset(s[1..]);
        if t[k] != x {
          var m :| 0 <= m < |s[1..]| && s[1..][m] == t[k];
          assert s[1 + m] == t[k];
        }
      }
    }
  }

  lemma {:induction false} SortSorted<T(!new)>(s: seq<T>, le: (T, T) -> bool)
    requires TotalPreorder(le)
    ensures SortedBy(Sort(s, le), le)
  {
    if s != [] {
      SortSorted(s[1..], le);
      InsertSorted(s[0], Sort(s[1..], le), le);
    }
  }

  /** Sorting a sequence that is already in order changes nothing. */
  lemma {:induction false} SortOfSorted<T>(s: seq<T>, le: (T, T) -> bool)
    requires SortedBy(s, le)
    ensures Sort(s, le) == s
  {
    if s != [] {
      assert SortedBy(s[1..], le);
      SortOfSorted(s[1..], le);
      assert s == [s[0]] + s[1..];
      if |s| > 1 {
        assert le(s[0], s[1]);
      }
    }
  }

  /**
   * The first `n` elements of a sorted sequence are sorted, are some of its
   * elements, and each may stand before each element left after them.
   */
  lemma SortedPrefixFirst<T>(s: seq<T>, n: nat, le: (T, T) -> bool)
    requires SortedBy(s, le) && n <= |s|
    ensures SortedBy(s[..n], le)
    ensures multiset(s[..n]) <= multiset(s)
    ensures forall e, i :: e in multiset(s) - multiset(s[..n]) && 0 <= i < n ==> le(s[i], e)
  {
    var rest := s[n..];
    assert s == s[..n] + rest;
    assert multiset(s) - multiset(s[..n]) == multiset(rest);
    forall e, i | e in multiset(s) - multiset(s[..n]) && 0 <= i < n ensures le(s[i], e) {
      assert e in rest;
      var j :| 0 <= j < |rest| && rest[j] == e;
      assert s[n + j] == e;
    }
  }

  /** `le`-equivalent to `k`: the elements with the same key as `k`. */
  predicate SameKey<T>(a: T, k: T, le: (T, T) -> bool) {
    le(a, k) && le(k, a)
  }

  /** The elements of `s` with the same key as `k`, in order. */
  function KeyClass<T>(s: seq<T>, k: T, le: (T, T) -> bool): seq<T> {
    if s == [] then []
    else (if SameKey(s[0], k, le) then [s[0]] else []) + KeyClass(s[1..], k, le)
  }

  lemma {:induction false} InsertKeyClass<T(!new)>(x: T, s: seq<T>, k: T, le: (T, T) -> bool)
    requires TotalPreorder(le)
    ensures KeyClass(Insert(x, s, le), k, le)
         == (if SameKey(x, k, le) then [x] else []) + KeyClass(s, k, le)
  {
    var r := Insert(x, s, le);
    if s == [] || le(x, s[0]) {
      assert r == [x] + s && r[0] == x && r[1..] == s;
    } else {
      var t := Insert(x, s[1..], le);
      InsertKeyClass(x, s[1..], k, le);
      assert r == [s[0]] + t && r[0] == s[0] && r[1..] == t;
      // s[0] sorts strictly before x, so it cannot share x's key
      var head := s[0];
      assert le(x, k) && le(k, head) ==> le(x, head);
      assert SameKey(x, k, le) ==> !SameKey(head, k, le);
    }
  }

  /** Stability: for every key, the elements with that key keep their order. */
  lemma {:induction false} SortStable<T(!new)>(s: seq<T>, k: T, le: (T, T) -> bool)
    requires TotalPreorder(le)
    ensures KeyClass(Sort(s, le), k, le) == KeyClass(s, k, le)
  {
    if s != [] {
      SortStable(s[1..], k, le);
      InsertKeyClass(s[0], Sort(s[1..], le), k, le);
    }
  }
}
