/**
 * List operations both editors use on their layer lists and id lists: `filter`, `findIndex`,
 * `splice(start, 0, x)`, the two-slot swap through a temporary, and `reverse`.
 */
module Seqs {
  import opened Common

  /** `s.filter(p)`, in order. */
  function Filter<T>(s: seq<T>, p: T -> bool): (r: seq<T>)
    ensures |r| <= |s|
    ensures forall i :: 0 <= i < |r| ==> r[i] in s && p(r[i])
    ensures forall i :: 0 <= i < |s| && p(s[i]) ==> s[i] in r
    decreases |s|
  {
    if s == [] then []
    else
      assert s == s[..|s| - 1] + [s[|s| - 1]];
      Filter(s[..|s| - 1], p) + (if p(s[|s| - 1]) then [s[|s| - 1]] else [])
  }

  lemma {:induction false} FilterConcat<T>(a: seq<T>, b: seq<T>, p: T -> bool)
    ensures Filter(a + b, p) == Filter(a, p) + Filter(b, p)
    decreases |b|
  {
    if b != [] {
      assert (a + b)[..|a + b| - 1] == a + b[..|b| - 1];
      FilterConcat(a, b[..|b| - 1], p);
    } else {
      assert a + b == a;
    }
  }

  lemma {:induction false} FilterAll<T>(s: seq<T>, p: T -> bool)
    requires forall i :: 0 <= i < |s| ==> p(s[i])
    ensures Filter(s, p) == s
    decreases |s|
  {
    if s != [] {
      FilterAll(s[..|s| - 1], p);
      assert s == s[..|s| - 1] + [s[|s| - 1]];
    }
  }

  /** When exactly the element at `i` fails `p`, filtering removes just that slot. */
  lemma {:induction false} FilterDropsOne<T>(s: seq<T>, i: nat, p: T -> bool)
    requires i < |s| && !p(s[i])
    requires forall j :: 0 <= j < |s| && j != i ==> p(s[j])
    ensures Filter(s, p) == s[..i] + s[i + 1..]
    decreases |s|
  {
    var init, last := s[..|s| - 1], s[|s| - 1];
    if i == |s| - 1 {
      forall j | 0 <= j < |init| ensures p(init[j]) {
        assert init[j] == s[j];
      }
      FilterAll(init, p);
      assert s[..i] + s[i + 1..] == init;
    } else {
      forall j | 0 <= j < |init| && j != i ensures p(init[j]) {
        assert init[j] == s[j];
      }
      FilterDropsOne(init, i, p);
      assert p(last);
      assert s[..i] + s[i + 1..] == (init[..i] + init[i + 1..]) + [last];
    }
  }

  /** `a` is `b` with some elements left out, order kept. */
  ghost predicate IsSubsequence<T>(a: seq<T>, b: seq<T>)
    decreases |b|
  {
    if a == [] then true
    else if b == [] then false
    else if a[|a| - 1] == b[|b| - 1] then IsSubsequence(a[..|a| - 1], b[..|b| - 1])
    else IsSubsequence(a, b[..|b| - 1])
  }

  lemma {:induction false} FilterIsSubsequence<T>(s: seq<T>, p: T -> bool)
    ensures IsSubsequence(Filter(s, p), s)
    decreases |s|
  {
    if s != [] {
      var init, last := s[..|s| - 1], s[|s| - 1];
      FilterIsSubsequence(init, p);
      var r := Filter(s, p);
      if p(last) {
        assert r == Filter(init, p) + [last];
        assert r[..|r| - 1] == Filter(init, p);
      } else {
        assert r == Filter(init, p);
        if r != [] {
          assert p(r[|r| - 1]);
        }
      }
    }
  }

  /** No element occurs twice. */
  ghost predicate Distinct<T>(s: seq<T>)
  {
    forall i, j :: 0 <= i < j < |s| ==> s[i] != s[j]
  }

  /** `ids.findIndex(x => x === id)`: the first position of `id`, or -1. */
  function IndexOf(ids: seq<Id>, id: Id): (r: int)
    ensures -1 <= r < |ids|
    ensures r == -1 <==> id !in ids
    ensures r >= 0 ==> ids[r] == id && forall j :: 0 <= j < r ==> ids[j] != id
  {
    if ids == [] then -1
    else if ids[0] == id then 0
    else
      var k := IndexOf(ids[1..], id);
      if k == -1 then -1 else k + 1
  }

  lemma IndexOfDistinct(ids: seq<Id>, i: nat)
    requires i < |ids| && Distinct(ids)
    ensures IndexOf(ids, ids[i]) == i
  {
  }

  /** Where `splice(start, 0, x)` inserts in a list of length `len` (JavaScript's rule). */
  function SpliceStart(len: nat, start: int): (k: nat)
    ensures k <= len
    ensures 0 <= start <= len ==> k == start
    ensures start > len ==> k == len
    ensures start < 0 && len + start >= 0 ==> k == len + start
    ensures len + start < 0 ==> k == 0
  {
    if start < 0 then (if len + start < 0 then 0 else len + start)
    else if start > len then len
    else start
  }

  /** A copy of `s` after `splice(start, 0, x)`. */
  function Insert<T>(s: seq<T>, start: int, x: T): (r: seq<T>)
    ensures |r| == |s| + 1
    ensures r[SpliceStart(|s|, start)] == x
    ensures r[..SpliceStart(|s|, start)] + r[SpliceStart(|s|, start) + 1..] == s
  {
    var k := SpliceStart(|s|, start);
    assert (s[..k] + [x] + s[k..])[k + 1..] == s[k..];
    s[..k] + [x] + s[k..]
  }

  /** Removing slot `i` and inserting the same element back at `i` is the identity. */
  lemma RemoveInsertRoundTrip<T>(s: seq<T>, i: nat)
    requires i < |s|
    ensures Insert(s[..i] + s[i + 1..], i, s[i]) == s
  {
    var t := s[..i] + s[i + 1..];
    assert t[..i] == s[..i] && t[i..] == s[i + 1..];
    assert s == s[..i] + [s[i]] + s[i + 1..];
  }

  /** Swap two slots of a copy through a temporary. */
  function Swap<T>(s: seq<T>, i: nat, j: nat): (r: seq<T>)
    requires i < |s| && j < |s|
    ensures |r| == |s| && r[i] == s[j] && r[j] == s[i]
    ensures forall k :: 0 <= k < |s| && k != i && k != j ==> r[k] == s[k]
    ensures multiset(r) == multiset(s)
  {
    var temp := s[i];
    var r := s[i := s[j]][j := temp];
    assert multiset(s[i := s[j]]) == multiset(s) - multiset{s[i]} + multiset{s[j]};
    r
  }

  lemma SwapTwice<T>(s: seq<T>, i: nat, j: nat)
    requires i < |s| && j < |s|
    ensures Swap(Swap(s, i, j), i, j) == s
  {
  }

  lemma SwapSymmetric<T>(s: seq<T>, i: nat, j: nat)
    requires i < |s| && j < |s|
    ensures Swap(s, i, j) == Swap(s, j, i)
  {
  }

  function Reverse<T>(s: seq<T>): (r: seq<T>)
    ensures |r| == |s|
    ensures forall i :: 0 <= i < |s| ==> r[i] == s[|s| - 1 - i]
  {
    seq(|s|, i requires 0 <= i < |s| => s[|s| - 1 - i])
  }

  /** Swapping two slots and reversing is reversing and swapping the mirrored slots. */
  lemma ReverseSwap<T>(s: seq<T>, i: nat, j: nat)
    requires i < |s| && j < |s|
    ensures Reverse(Swap(s, i, j)) == Swap(Reverse(s), |s| - 1 - i, |s| - 1 - j)
  {
  }

  lemma ReverseReverse<T>(s: seq<T>)
    ensures Reverse(Reverse(s)) == s
  {
  }
}
