/**
 * Python's `sorted(items, key=...)`: a stable sort. It is modelled by an
 * insertion sort over a total preorder `le` ("key(x) <= key(y)"), proved to
 * return a sorted permutation that keeps equal keys in input order; and any
 * two sequences with those properties are equal, so the model's result is
 * the result of every stable sort, Timsort included.
 */
module Sorting {

  /** `le` compares keys: every two elements are comparable, and the comparison chains. */
  ghost predicate TotalPreorder<T(!new)>(le: (T, T) -> bool) {
    && (forall x, y :: le(x, y) || le(y, x))
    && (forall x, y, z :: le(x, y) && le(y, z) ==> le(x, z))
  }

  /** Equal keys. */
  predicate SameKey<T>(le: (T, T) -> bool, x: T, y: T) {
    le(x, y) && le(y, x)
  }

  ghost predicate Sorted<T>(s: seq<T>, le: (T, T) -> bool) {
    forall i, j :: 0 <= i < j < |s| ==> le(s[i], s[j])
  }

  /** The elements of `s` whose key equals that of `e`, in their order in `s`. */
  function SameKeyAs<T>(s: seq<T>, le: (T, T) -> bool, e: T): seq<T>
    decreases |s|
  {
    if s == [] then []
    else (if SameKey(le, s[0], e) then [s[0]] else []) + SameKeyAs(s[1..], le, e)
  }

  /** `r` keeps the relative order of every run of equal keys in `s`. */
  ghost predicate StableOrder<T(!new)>(r: seq<T>, s: seq<T>, le: (T, T) -> bool) {
    forall e :: SameKeyAs(r, le, e) == SameKeyAs(s, le, e)
  }

  /** Places `x` in front of the first element whose key is not below its own. */
  function Insert<T>(x: T, s: seq<T>, le: (T, T) -> bool): (r: seq<T>)
    ensures multiset(r) == multiset(s) + multiset{x}
    decreases |s|
  {
    if s == [] || le(x, s[0]) then [x] + s
    else
      assert s == [s[0]] + s[1..];
      [s[0]] + Insert(x, s[1..], le)
  }

  lemma {:induction false} InsertSorted<T(!new)>(x: T, s: seq<T>, le: (T, T) -> bool)
    requires TotalPreorder(le) && Sorted(s, le)
    ensures Sorted(Insert(x, s, le), le)
    decreases |s|
  {
    if s != [] && !le(x, s[0]) {
      InsertSorted(x, s[1..], le);
      var r := Insert(x, s, le);
      var tail := Insert(x, s[1..], le);
      forall k | 0 <= k < |tail|
        ensures le(s[0], tail[k])
      {
        assert tail[k] in multiset(tail);
        if tail[k] != x {
          assert tail[k] in multiset(s[1..]);
          var j :| 0 <= j < |s[1..]| && s[1..][j] == tail[k];
          assert s[j + 1] == tail[k];
        }
      }
      assert r == [s[0]] + tail;
    }
  }

  /** The run of `e`'s key in `[y] + t` is `y`, if it shares that key, followed by the run in `t`. */
  lemma SameKeyAsCons<T>(y: T, t: seq<T>, le: (T, T) -> bool, e: T)
    ensures SameKeyAs([y] + t, le, e) == (if SameKey(le, y, e) then [y] else []) + SameKeyAs(t, le, e)
  {
    assert ([y] + t)[1..] == t;
  }

  /** A suffix of a sorted sequence is sorted. */
  lemma SortedTail<T>(s: seq<T>, le: (T, T) -> bool)
    requires Sorted(s, le) && s != []
    ensures Sorted(s[1..], le)
  {
    forall i, j | 0 <= i < j < |s| - 1
      ensures le(s[1..][i], s[1..][j])
    {
      assert s[1..][i] == s[i + 1] && s[1..][j] == s[j + 1];
    }
  }

  lemma {:induction false} InsertSameKeyAs<T(!new)>(x: T, s: seq<T>, le: (T, T) -> bool, e: T)
    requires TotalPreorder(le) && Sorted(s, le)
    ensures SameKeyAs(Insert(x, s, le), le, e) == (if SameKey(le, x, e) then [x] else []) + SameKeyAs(s, le, e)
    decreases |s|
  {
    if s == [] || le(x, s[0]) {
      SameKeyAsCons(x, s, le, e);
    } else {
      var hx := if SameKey(le, x, e) then [x] else [];
      var hs := if SameKey(le, s[0], e) then [s[0]] else [];
      var rest := SameKeyAs(s[1..], le, e);
      SortedTail(s, le);
      InsertSameKeyAs(x, s[1..], le, e);
      SameKeyAsCons(s[0], Insert(x, s[1..], le), le, e);
      SameKeyAsCons(s[0], s[1..], le, e);
      assert s == [s[0]] + s[1..];
      // x's key is above s[0]'s, so at most one of the two shares e's key
      AtMostOneShares(x, s[0], le, e);
      SwapRuns(hs, hx, rest);
    }
  }

  /** Elements with different keys cannot both share the key of `e`. */
  lemma AtMostOneShares<T(!new)>(x: T, y: T, le: (T, T) -> bool, e: T)
    requires TotalPreorder(le) && !le(x, y)
    ensures !(SameKey(le, x, e) && SameKey(le, y, e))
  {
  }

  /** Two pieces of which one is empty can be put in front of a sequence in either order. */
  lemma SwapRuns<T>(a: seq<T>, b: seq<T>, rest: seq<T>)
    requires a == [] || b == []
    ensures a + (b + rest) == b + (a + rest)
  {
    if a == [] {
      assert a + (b + rest) == b + rest == b + (a + rest);
    } else {
      assert a + (b + rest) == a + rest == b + (a + rest);
    }
  }

  /** `sorted(s, key=...)`: a permutation of `s`, in key order, equal keys in input order. */
  function Sort<T(!new)>(s: seq<T>, le: (T, T) -> bool): (r: seq<T>)
    requires TotalPreorder(le)
    ensures multiset(r) == multiset(s)
    ensures Sorted(r, le)
    ensures StableOrder(r, s, le)
    decreases |s|
  {
    if s == [] then []
    else
      var rest := Sort(s[1..], le);
      InsertSorted(s[0], rest, le);
      assert s == [s[0]] + s[1..];
      assert forall e :: SameKeyAs(Insert(s[0], rest, le), le, e) == SameKeyAs(s, le, e) by {
        forall e ensures SameKeyAs(Insert(s[0], rest, le), le, e) == SameKeyAs(s, le, e) {
          InsertSameKeyAs(s[0], rest, le, e);
        }
      }
      Insert(s[0], rest, le)
  }

  lemma {:induction false} SameKeyAsMember<T>(s: seq<T>, le: (T, T) -> bool, e: T, x: T)
    ensures x in SameKeyAs(s, le, e) <==> x in s && SameKey(le, x, e)
    decreases |s|
  {
    if s != [] {
      SameKeyAsMember(s[1..], le, e, x);
      assert s == [s[0]] + s[1..];
    }
  }

  /** The first element of a sorted sequence has the least key. */
  lemma FirstIsLeast<T(!new)>(s: seq<T>, le: (T, T) -> bool, z: T)
    requires TotalPreorder(le) && Sorted(s, le) && z in s
    ensures le(s[0], z)
  {
    var j :| 0 <= j < |s| && s[j] == z;
    if j == 0 {
      assert le(z, z) || le(z, z);
    }
  }

  /** Two sequences that keep every run of equal keys in the same order hold the same elements. */
  lemma SameRunsSameMembers<T(!new)>(a: seq<T>, b: seq<T>, le: (T, T) -> bool, x: T)
    requires TotalPreorder(le)
    requires forall e :: SameKeyAs(a, le, e) == SameKeyAs(b, le, e)
    requires x in a
    ensures x in b
  {
    assert le(x, x) || le(x, x);
    SameKeyAsMember(a, le, x, x);
    SameKeyAsMember(b, le, x, x);
  }

  lemma SortedStableSameHead<T(!new)>(a: seq<T>, b: seq<T>, le: (T, T) -> bool)
    requires TotalPreorder(le) && Sorted(a, le) && Sorted(b, le) && a != [] && b != []
    requires forall e :: SameKeyAs(a, le, e) == SameKeyAs(b, le, e)
    ensures a[0] == b[0]
  {
    var x, y := a[0], b[0];
    SameRunsSameMembers(a, b, le, x);
    FirstIsLeast(b, le, x);
    SameRunsSameMembers(b, a, le, y);
    FirstIsLeast(a, le, y);
    assert le(x, x) || le(x, x);
    assert SameKey(le, x, x) && SameKey(le, y, x);
    var sa, sb := SameKeyAs(a, le, x), SameKeyAs(b, le, x);
    assert sa == [x] + SameKeyAs(a[1..], le, x);
    assert sb == [y] + SameKeyAs(b[1..], le, x);
    assert sa == sb;
    assert sa[0] == x && sb[0] == y;
  }

  /**
   * A sorted sequence that keeps every run of equal keys in a given order is
   * unique: a stable sort has exactly one possible result.
   */
  lemma {:induction false} SortedStableUnique<T(!new)>(a: seq<T>, b: seq<T>, le: (T, T) -> bool)
    requires TotalPreorder(le) && Sorted(a, le) && Sorted(b, le)
    requires forall e :: SameKeyAs(a, le, e) == SameKeyAs(b, le, e)
    ensures a == b
    decreases |a|
  {
    if a == [] || b == [] {
      if a != [] {
        SameRunsSameMembers(a, b, le, a[0]);
      } else if b != [] {
        SameRunsSameMembers(b, a, le, b[0]);
      }
      return;
    }
    SortedStableSameHead(a, b, le);
    var x := a[0];
    forall e
      ensures SameKeyAs(a[1..], le, e) == SameKeyAs(b[1..], le, e)
    {
      var head := if SameKey(le, x, e) then [x] else [];
      assert SameKeyAs(a, le, e) == head + SameKeyAs(a[1..], le, e);
      assert SameKeyAs(b, le, e) == head + SameKeyAs(b[1..], le, e);
      assert (head + SameKeyAs(a[1..], le, e))[|head|..] == SameKeyAs(a[1..], le, e);
      assert (head + SameKeyAs(b[1..], le, e))[|head|..] == SameKeyAs(b[1..], le, e);
    }
    SortedStableUnique(a[1..], b[1..], le);
    assert a == [x] + a[1..] && b == [x] + b[1..];
  }
}
