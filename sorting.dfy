/**
 * Array.prototype.sort with a comparator `(a, b) => key(b) - key(a)`: since
 * ECMAScript 2019 the sort is stable, so its result is the unique stable
 * ordering by non-increasing key. `SortDesc` is a stable insertion sort that
 * computes that ordering; clients rely only on its contract (sorted and a
 * permutation of the input).
 */
module Sorting {

  /** The keys of `s` never increase from left to right. */
  ghost predicate SortedDesc<T>(s: seq<T>, key: T -> real) {
    forall i, j :: 0 <= i < j < |s| ==> key(s[i]) >= key(s[j])
  }

  /** Places `x` before the first element whose key is not larger than its own. */
  function Insert<T>(x: T, s: seq<T>, key: T -> real): (r: seq<T>)
    requires SortedDesc(s, key)
    ensures SortedDesc(r, key)
    ensures multiset(r) == multiset(s) + multiset{x}
    ensures |r| == |s| + 1
  {
    if s == [] || key(x) >= key(s[0]) then
      [x] + s
    else
      var t := Insert(x, s[1..], key);
      InsertBehind(x, s, key, t);
      [s[0]] + t
  }

  /** Putting the head of `s` in front of the insertion into its tail keeps the order. */
  lemma InsertBehind<T>(x: T, s: seq<T>, key: T -> real, t: seq<T>)
    requires SortedDesc(s, key) && s != [] && key(x) < key(s[0])
    requires SortedDesc(t, key) && multiset(t) == multiset(s[1..]) + multiset{x}
    ensures SortedDesc([s[0]] + t, key)
    ensures multiset([s[0]] + t) == multiset(s) + multiset{x}
  {
    var rest := s[1..];
    assert s == [s[0]] + rest;
    forall k | 0 <= k < |t|
      ensures key(s[0]) >= key(t[k])
    {
      assert t[k] in multiset(rest) + multiset{x};
      if t[k] != x {
        assert t[k] in rest;
        var m :| 0 <= m < |rest| && rest[m] == t[k];
        assert s[m + 1] == t[k];
      }
    }
    var r := [s[0]] + t;
    forall i, j | 0 <= i < j < |r|
      ensures key(r[i]) >= key(r[j])
    {
      assert r[j] == t[j - 1];
      if i > 0 {
        assert r[i] == t[i - 1];
      }
    }
  }

  /** A stable sort by non-increasing key. */
  function SortDesc<T>(s: seq<T>, key: T -> real): (r: seq<T>)
    ensures SortedDesc(r, key)
    ensures multiset(r) == multiset(s)
    ensures |r| == |s|
  {
    if s == [] then []
    else
      assert s == [s[0]] + s[1..];
      Insert(s[0], SortDesc(s[1..], key), key)
  }

  /** Sorting keeps exactly the elements of its input. */
  lemma SortDescMembers<T>(s: seq<T>, key: T -> real, x: T)
    ensures x in SortDesc(s, key) <==> x in s
  {
    assert x in SortDesc(s, key) <==> x in multiset(SortDesc(s, key));
  }

  /** `s.map(f)`. */
  function MapSeq<T, U>(s: seq<T>, f: T -> U): (r: seq<U>)
    ensures |r| == |s|
    ensures forall i :: 0 <= i < |s| ==> r[i] == f(s[i])
  {
    seq(|s|, i requires 0 <= i < |s| => f(s[i]))
  }

  /** Mapping commutes with concatenation. */
  lemma MapSeqConcat<T, U>(a: seq<T>, b: seq<T>, f: T -> U)
    ensures MapSeq(a + b, f) == MapSeq(a, f) + MapSeq(b, f)
  {
    assert forall i :: 0 <= i < |a + b| ==> MapSeq(a + b, f)[i] == (MapSeq(a, f) + MapSeq(b, f))[i];
  }

  /** Two permutations of each other map to permutations of each other. */
  lemma {:induction false} MapSeqPermutation<T, U>(a: seq<T>, b: seq<T>, f: T -> U)
    requires multiset(a) == multiset(b)
    ensures multiset(MapSeq(a, f)) == multiset(MapSeq(b, f))
    decreases |a|
  {
    if a == [] {
      assert |b| == |multiset(b)| == 0;
    } else {
      var x := a[0];
      assert x in multiset(b);
      var k :| 0 <= k < |b| && b[k] == x;
      var b' := b[..k] + b[k + 1..];
      assert b == b[..k] + [x] + b[k + 1..];
      assert a == [x] + a[1..];
      calc {
        multiset(b);
        multiset(b[..k]) + multiset{x} + multiset(b[k + 1..]);
        multiset(b') + multiset{x};
      }
      assert multiset(a) == multiset{x} + multiset(a[1..]);
      assert multiset(a[1..]) == multiset(a) - multiset{x};
      assert multiset(b') == multiset(b) - multiset{x};
      assert multiset(a[1..]) == multiset(b');
      MapSeqPermutation(a[1..], b', f);
      MapSeqConcat([x], a[1..], f);
      MapSeqConcat(b[..k], b[k + 1..], f);
      MapSeqConcat(b[..k] + [x], b[k + 1..], f);
      MapSeqConcat(b[..k], [x], f);
    }
  }

  /** Sorting keeps the multiset of any projection of the elements. */
  lemma SortDescProjection<T, U>(s: seq<T>, key: T -> real, f: T -> U)
    ensures multiset(MapSeq(SortDesc(s, key), f)) == multiset(MapSeq(s, f))
  {
    MapSeqPermutation(SortDesc(s, key), s, f);
  }
}
