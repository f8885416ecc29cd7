/**
 * The array methods the pages call on whole collections: `filter`, `find`
 * and `findIndex` (callback order is left to right, first hit wins).
 */
module Seqs {
  import opened Wrappers

  /** Concatenation splits off the head; stated for any element type so that proofs about nested sequences need not look inside the elements. */
  lemma HeadTail<T>(s: seq<T>, t: seq<T>)
    requires s != []
    ensures s == [s[0]] + s[1..]
    ensures s + t == [s[0]] + (s[1..] + t)
    ensures (s + t)[1..] == s[1..] + t
  {
  }

  lemma Associative<T>(x: seq<T>, y: seq<T>, z: seq<T>)
    ensures x + (y + z) == (x + y) + z
  {
  }

  /** `s.filter(p)`: the elements that satisfy `p`, in their original order. */
  function Filter<T(!new)>(s: seq<T>, p: T -> bool): (r: seq<T>)
    ensures |r| <= |s|
    ensures forall x :: x in r <==> x in s && p(x)
    ensures forall x :: multiset(r)[x] == if p(x) then multiset(s)[x] else 0
  {
    if s == [] then []
    else
      assert s == [s[0]] + s[1..];
      (if p(s[0]) then [s[0]] else []) + Filter(s[1..], p)
  }

  /** Filtering distributes over concatenation: the relative order of kept elements is preserved. */
  lemma {:induction false} FilterAppend<T(!new)>(a: seq<T>, b: seq<T>, p: T -> bool)
    ensures Filter(a + b, p) == Filter(a, p) + Filter(b, p)
  {
    if a == [] {
      assert a + b == b;
    } else {
      var h, t := a[0], a[1..];
      var keep := if p(h) then [h] else [];
      calc {
        Filter(a + b, p);
        == { HeadTail(a, b); }
        keep + Filter(t + b, p);
        == { FilterAppend(t, b, p); }
        keep + (Filter(t, p) + Filter(b, p));
        == { Associative(keep, Filter(t, p), Filter(b, p)); }
        (keep + Filter(t, p)) + Filter(b, p);
      }
    }
  }

  /** An element-wise true predicate keeps everything. */
  lemma {:induction false} FilterAll<T(!new)>(s: seq<T>, p: T -> bool)
    requires forall x :: x in s ==> p(x)
    ensures Filter(s, p) == s
  {
    if s != [] {
      FilterAll(s[1..], p);
    }
  }

  /** Filtering twice with the same predicate changes nothing the second time. */
  lemma FilterIdempotent<T(!new)>(s: seq<T>, p: T -> bool)
    ensures Filter(Filter(s, p), p) == Filter(s, p)
  {
    FilterAll(Filter(s, p), p);
  }

  /** Filtering out exactly one position removes that element and nothing else. */
  lemma {:induction false} FilterDropsOne<T(!new)>(s: seq<T>, p: T -> bool, i: nat)
    requires i < |s| && !p(s[i])
    requires forall j :: 0 <= j < |s| && j != i ==> p(s[j])
    ensures Filter(s, p) == s[..i] + s[i + 1..]
  {
    if i == 0 {
      FilterAll(s[1..], p);
    } else {
      var t := s[1..];
      assert p(s[0]);
      calc {
        Filter(s, p);
        [s[0]] + Filter(t, p);
        { FilterDropsOne(t, p, i - 1); }
        [s[0]] + (t[..i - 1] + t[i..]);
        { Associative([s[0]], t[..i - 1], t[i..]); }
        ([s[0]] + t[..i - 1]) + t[i..];
        { assert [s[0]] + t[..i - 1] == s[..i]; assert t[i..] == s[i + 1..]; }
        s[..i] + s[i + 1..];
      }
    }
  }

  /** `p` and its negation split a sequence: the two lengths add up to the whole. */
  lemma FilterPartition<T(!new)>(s: seq<T>, p: T -> bool, q: T -> bool)
    requires forall x :: q(x) == !p(x)
    ensures multiset(Filter(s, p)) + multiset(Filter(s, q)) == multiset(s)
    ensures |Filter(s, p)| + |Filter(s, q)| == |s|
  {
    var a, b := Filter(s, p), Filter(s, q);
    forall x ensures (multiset(a) + multiset(b))[x] == multiset(s)[x] {
      assert q(x) == !p(x);
    }
    assert multiset(a) + multiset(b) == multiset(s);
    assert |multiset(a) + multiset(b)| == |a| + |b|;
  }

  /** `s.map(f)`. */
  function Map<T, U>(s: seq<T>, f: T -> U): (r: seq<U>)
    ensures |r| == |s|
    ensures forall i :: 0 <= i < |s| ==> r[i] == f(s[i])
  {
    if s == [] then [] else [f(s[0])] + Map(s[1..], f)
  }

  /** `s.findIndex(p)`: the first index whose element satisfies `p`, or -1. */
  function FirstIndex<T>(s: seq<T>, p: T -> bool): (i: int)
    ensures -1 <= i < |s|
    ensures i == -1 <==> forall j :: 0 <= j < |s| ==> !p(s[j])
    ensures 0 <= i ==> p(s[i]) && forall j :: 0 <= j < i ==> !p(s[j])
  {
    if s == [] then -1
    else if p(s[0]) then 0
    else
      var k := FirstIndex(s[1..], p);
      if k == -1 then -1 else k + 1
  }

  /** `s.find(p)`: the first element satisfying `p`, or None for `undefined`. */
  function Find<T>(s: seq<T>, p: T -> bool): (r: Option<T>)
    ensures r.None? <==> forall x :: x in s ==> !p(x)
    ensures r.Some? ==> p(r.value) && r.value in s
    ensures r.Some? ==> FirstIndex(s, p) >= 0 && r.value == s[FirstIndex(s, p)]
  {
    var i := FirstIndex(s, p);
    if i == -1 then None else Some(s[i])
  }

  /** `s.some(p)`. */
  function Any<T>(s: seq<T>, p: T -> bool): (b: bool)
    ensures b <==> exists x :: x in s && p(x)
  {
    FirstIndex(s, p) != -1
  }
}
