/**
 Counting inversions by merge sort, in place, with one scratch array.  The running total *num is
 passed in and handed back.
 */
module Inversions {
  import opened Common

  // pairs p < q with s[p] > s[q]
  ghost function Pairs(s: seq<int>): set<(nat, nat)> {
    set p: nat, q: nat | p < |s| && q < |s| && p < q && s[p] > s[q] :: (p, q)
  }

  function Sum(s: seq<int>, f: int -> nat): nat {
    if s == [] then 0 else Sum(s[..|s| - 1], f) + f(s[|s| - 1])
  }

  function Greater(s: seq<int>, y: int): nat { Sum(s, x => if x > y then 1 else 0) }

  // pairs with the left element in l and the right one in r
  function Cross(l: seq<int>, r: seq<int>): nat { Sum(r, y => Greater(l, y)) }

  function Count(s: seq<int>): nat {
    if s == [] then 0 else Count(s[..|s| - 1]) + Greater(s[..|s| - 1], s[|s| - 1])
  }

  // ---- Count counts the pairs ----

  ghost function PairsAt(s: seq<int>, q: nat, y: int): set<(nat, nat)> {
    set p: nat | p < |s| && s[p] > y :: (p, q)
  }

  lemma {:induction false} PairsAtCard(s: seq<int>, q: nat, y: int)
    ensures |PairsAt(s, q, y)| == Greater(s, y)
  {
    if s != [] {
      var n := |s| - 1;
      PairsAtCard(s[..n], q, y);
      var a, b := PairsAt(s[..n], q, y), PairsAt(s, q, y);
      assert forall p | 0 <= p < n :: s[..n][p] == s[p];
      if s[n] > y {
        assert b == a + {(n, q)};
        assert (n, q) !in a;
      } else {
        assert b == a;
      }
    }
  }

  lemma PairsSplit(s: seq<int>)
    requires |s| > 0
    ensures var n := |s| - 1; Pairs(s) == Pairs(s[..n]) + PairsAt(s[..n], n, s[n])
  {
    var n, t := |s| - 1, s[..|s| - 1];
    assert forall p | 0 <= p < n :: t[p] == s[p];
    forall x | x in Pairs(s) ensures x in Pairs(t) + PairsAt(t, n, s[n]) { }
    forall x | x in Pairs(t) + PairsAt(t, n, s[n]) ensures x in Pairs(s) { }
  }

  lemma {:induction false} CountIsPairs(s: seq<int>)
    ensures Count(s) == |Pairs(s)|
  {
    if s != [] {
      var n := |s| - 1;
      var t := s[..n];
      CountIsPairs(t);
      PairsAtCard(t, n, s[n]);
      var a, b := Pairs(t), PairsAt(t, n, s[n]);
      PairsSplit(s);
      assert a !! b;
    }
  }

  // ---- counts across do not depend on order ----

  lemma {:induction false} SumAppend(s: seq<int>, t: seq<int>, f: int -> nat)
    ensures Sum(s + t, f) == Sum(s, f) + Sum(t, f)
    decreases |t|
  {
    if t == [] {
      assert s + t == s;
    } else {
      var n := |t| - 1;
      assert (s + t)[..|s + t| - 1] == s + t[..n];
      SumAppend(s, t[..n], f);
    }
  }

  lemma {:induction false} SumPerm(s: seq<int>, t: seq<int>, f: int -> nat)
    requires multiset(s) == multiset(t)
    ensures Sum(s, f) == Sum(t, f)
    decreases |s|
  {
    if s == [] {
      assert multiset(t) == multiset{};
      assert |multiset(t)| == |t|;
    } else {
      var n := |s| - 1;
      assert s[n] in multiset(t);
      var k :| 0 <= k < |t| && t[k] == s[n];
      var u := t[..k] + t[k + 1..];
      assert s == s[..n] + [s[n]];
      assert t == t[..k] + ([t[k]] + t[k + 1..]);
      assert multiset(u) == multiset(t) - multiset{t[k]} == multiset(s[..n]);
      SumPerm(s[..n], u, f);
      SumAppend(t[..k], [t[k]] + t[k + 1..], f);
      SumAppend([t[k]], t[k + 1..], f);
      SumAppend(t[..k], t[k + 1..], f);
      assert Sum([t[k]], f) == f(t[k]) by { assert [t[k]][..0] == []; }
    }
  }

  lemma {:induction false} SumSame(s: seq<int>, f: int -> nat, g: int -> nat)
    requires forall x :: f(x) == g(x)
    ensures Sum(s, f) == Sum(s, g)
  {
    if s != [] { SumSame(s[..|s| - 1], f, g); }
  }

  // sorting each half leaves the number of inversions between the halves as it was
  lemma CrossPerm(l: seq<int>, r: seq<int>, l': seq<int>, r': seq<int>)
    requires multiset(l) == multiset(l') && multiset(r) == multiset(r')
    ensures Cross(l, r) == Cross(l', r')
  {
    forall y ensures Greater(l, y) == Greater(l', y) { SumPerm(l, l', x => if x > y then 1 else 0); }
    SumPerm(r, r', y => Greater(l, y));
    SumSame(r', y => Greater(l, y), y => Greater(l', y));
  }

  lemma {:induction false} CountAppend(l: seq<int>, r: seq<int>)
    ensures Count(l + r) == Count(l) + Count(r) + Cross(l, r)
    decreases |r|
  {
    if r == [] {
      assert l + r == l;
    } else {
      var n := |r| - 1;
      CountAppend(l, r[..n]);
      LastOfBoth(l, r);
    }
  }

  // what the last element of r adds to each count
  lemma LastOfBoth(l: seq<int>, r: seq<int>)
    requires |r| > 0
    ensures var n := |r| - 1;
            && Count(l + r) == Count(l + r[..n]) + Greater(l, r[n]) + Greater(r[..n], r[n])
            && Count(r) == Count(r[..n]) + Greater(r[..n], r[n]) && Cross(l, r) == Cross(l, r[..n]) + Greater(l, r[n])
  {
    var n, s := |r| - 1, l + r;
    assert s[..|s| - 1] == l + r[..n] && s[|s| - 1] == r[n];
    GreaterAppend(l, r[..n], r[n]);
    hide Greater;
  }

  lemma GreaterAppend(s: seq<int>, t: seq<int>, y: int)
    ensures Greater(s + t, y) == Greater(s, y) + Greater(t, y)
  {
    SumAppend(s, t, x => if x > y then 1 else 0);
  }

  // ---- the formula of merge ----

  lemma {:induction false} NoneGreater(s: seq<int>, y: int)
    requires forall i | 0 <= i < |s| :: s[i] <= y
    ensures Greater(s, y) == 0
  {
    if s != [] { NoneGreater(s[..|s| - 1], y); }
  }

  lemma {:induction false} AllGreater(s: seq<int>, y: int)
    requires forall i | 0 <= i < |s| :: s[i] > y
    ensures Greater(s, y) == |s|
  {
    if s != [] { AllGreater(s[..|s| - 1], y); }
  }

  // when the first k elements of l are at most y and the others greater, |l| - k of them are
  lemma GreaterIs(l: seq<int>, k: nat, y: int)
    requires k <= |l|
    requires forall i | 0 <= i < k :: l[i] <= y
    requires forall i | k <= i < |l| :: l[i] > y
    ensures Greater(l, y) == |l| - k
  {
    assert l == l[..k] + l[k..];
    SumAppend(l[..k], l[k..], x => if x > y then 1 else 0);
    NoneGreater(l[..k], y);
    AllGreater(l[k..], y);
  }

  lemma CrossStep(l: seq<int>, r: seq<int>, k: nat, q: nat)
    requires Sorted(l) && q < |r| && k <= |l|
    requires forall i | 0 <= i < k :: l[i] <= r[q]
    requires k < |l| ==> l[k] > r[q]
    ensures Cross(l, r[..q + 1]) == Cross(l, r[..q]) + (|l| - k)
  {
    assert r[..q + 1][..q] == r[..q];
    GreaterIs(l, k, r[q]);
  }

  // ---- merging ----

  // so far i elements of l and j of r are in out, in order, and what is left is no smaller
  ghost predicate Merged(l: seq<int>, r: seq<int>, i: nat, j: nat, out: seq<int>) {
    && i <= |l| && j <= |r| && Sorted(out) && multiset(out) == multiset(l[..i]) + multiset(r[..j])
    && (forall k, x | 0 <= k < |out| && i <= x < |l| :: out[k] <= l[x])
    && (forall k, x | 0 <= k < |out| && j <= x < |r| :: out[k] <= r[x])
  }

  lemma TakeLeft(l: seq<int>, r: seq<int>, i: nat, j: nat, out: seq<int>)
    requires Merged(l, r, i, j, out) && Sorted(l) && Sorted(r) && i < |l| && (j < |r| ==> l[i] <= r[j])
    ensures Merged(l, r, i + 1, j, out + [l[i]])
  {
    assert l[..i + 1] == l[..i] + [l[i]];
  }

  lemma TakeRight(l: seq<int>, r: seq<int>, i: nat, j: nat, out: seq<int>)
    requires Merged(l, r, i, j, out) && Sorted(l) && Sorted(r) && j < |r| && (i < |l| ==> r[j] <= l[i])
    ensures Merged(l, r, i, j + 1, out + [r[j]])
  {
    assert r[..j + 1] == r[..j] + [r[j]];
  }

  lemma AllMerged(l: seq<int>, r: seq<int>, out: seq<int>)
    requires Merged(l, r, |l|, |r|, out)
    ensures Sorted(out) && multiset(out) == multiset(l + r) && |out| == |l| + |r|
  {
    assert l[..|l|] == l && r[..|r|] == r;
    assert |multiset(out)| == |out| && |multiset(l + r)| == |l + r|;
  }

  // elements of l already taken are at most the next one of r
  ghost predicate LeftBelow(l: seq<int>, r: seq<int>, i: nat, j: nat) {
    forall x, y | 0 <= x < i && x < |l| && j <= y < |r| :: l[x] <= r[y]
  }

  lemma {:induction false} MergedRest(l: seq<int>, r: seq<int>, i: nat, j: nat, out: seq<int>)
    requires Merged(l, r, i, j, out) && Sorted(l) && Sorted(r) && (i == |l| || j == |r|)
    ensures Merged(l, r, |l|, |r|, out + l[i..] + r[j..])
    decreases |l| - i + (|r| - j)
  {
    hide Sorted;
    if i < |l| {
      TakeLeft(l, r, i, j, out);
      MergedRest(l, r, i + 1, j, out + [l[i]]);
      assert out + [l[i]] + l[i + 1..] == out + l[i..];
    } else if j < |r| {
      TakeRight(l, r, i, j, out);
      MergedRest(l, r, i, j + 1, out + [r[j]]);
      assert out + [r[j]] + l[i..] + r[j + 1..] == out + l[i..] + r[j..];
    } else {
      assert out + l[i..] + r[j..] == out;
    }
  }

  lemma StartMerge(l: seq<int>, r: seq<int>)
    ensures Merged(l, r, 0, 0, []) && LeftBelow(l, r, 0, 0) && r[..0] == [] && Cross(l, []) == 0
  {
  }

  lemma TakeLeftBelow(l: seq<int>, r: seq<int>, i: nat, j: nat)
    requires LeftBelow(l, r, i, j) && Sorted(r) && i < |l| && j < |r| && l[i] <= r[j]
    ensures LeftBelow(l, r, i + 1, j)
  {
  }

  // with tmp elements of r taken, j - i - tmp is the number of elements of the whole left run that
  // are greater than the right one about to be taken, and so the inversions that one adds
  lemma CountRight(l: seq<int>, r: seq<int>, beg: nat, mid: nat, i: nat, j: nat, tmp: nat)
    requires |l| == mid - beg && beg <= i < mid <= j < mid + |r| && tmp == j - mid
    requires LeftBelow(l, r, i - beg, tmp) && Sorted(l) && l[i - beg] > r[tmp]
    ensures j - i - tmp == Greater(l, r[tmp])
    ensures Cross(l, r[..tmp + 1]) == Cross(l, r[..tmp]) + (j - i - tmp) && LeftBelow(l, r, i - beg, tmp + 1)
  {
    CrossStep(l, r, i - beg, tmp);
    GreaterIs(l, i - beg, r[tmp]);
  }

  // once l is used up, the rest of r has no inversion with it
  lemma {:induction false} CountRest(l: seq<int>, r: seq<int>, i: nat, j: nat)
    requires LeftBelow(l, r, i, j) && Sorted(l) && i <= |l| && j <= |r| && (i == |l| || j == |r|)
    ensures Cross(l, r[..j]) == Cross(l, r)
    decreases |r| - j
  {
    if j == |r| {
      assert r[..j] == r;
    } else {
      CrossStep(l, r, i, j);
      CountRest(l, r, i, j + 1);
    }
  }

  // s lies in a from index from on
  ghost predicate Holds(a: array<int>, from: nat, s: seq<int>)
    reads a
  {
    from + |s| <= a.Length && forall k | 0 <= k < |s| :: a[from + k] == s[k]
  }

  // merges until one of the runs is used up, counting as it goes
  method MergeWhileBoth(a: array<int>, beg: nat, mid: nat, end: nat, num0: int, tmparr: array<int>, ghost l: seq<int>,
      ghost r: seq<int>)
    returns (num: int, i: nat, j: nat, index: nat, ghost out: seq<int>)
    requires beg <= mid <= end <= a.Length && a != tmparr && end - beg <= tmparr.Length
    requires Holds(a, beg, l) && Holds(a, mid, r) && |l| == mid - beg && |r| == end - mid && Sorted(l) && Sorted(r)
    modifies tmparr
    ensures num == num0 + Cross(l, r)
    ensures beg <= i <= mid <= j <= end && (i == mid || j == end) && index == i - beg + (j - mid)
    ensures Merged(l, r, i - beg, j - mid, out) && Holds(tmparr, 0, out) && |out| == index
  {
    hide Cross, Sorted, Merged, LeftBelow;
    ghost var x: nat, y: nat := 0, 0;   // how much of l and of r is taken, and where it went
    out := [];
    i, j := beg, mid;
    index, num := 0, num0;
    var tmp := 0;
    StartMerge(l, r);
    while i < mid && j < end
      invariant i == beg + x && j == mid + y && x <= |l| && y <= |r| && index == x + y && tmp == y
      invariant Holds(tmparr, 0, out) && |out| == index
      invariant Merged(l, r, x, y, out)
      invariant LeftBelow(l, r, x, y)
      invariant num == num0 + Cross(l, r[..y])
    {
      assert a[i] == l[x] && a[j] == r[y];
      if a[i] <= a[j] {
        TakeLeft(l, r, x, y, out);
        TakeLeftBelow(l, r, x, y);
        out, x := out + [l[x]], x + 1;
        tmparr[index] := a[i];
        index, i := index + 1, i + 1;
      } else {
        TakeRight(l, r, x, y, out);
        CountRight(l, r, beg, mid, i, j, tmp);
        out, y := out + [r[y]], y + 1;
        num := num + (j - i - tmp);
        tmp := tmp + 1;
        tmparr[index] := a[j];
        index, j := index + 1, j + 1;
      }
    }
    CountRest(l, r, x, y);
  }

  method MergeRuns(a: array<int>, beg: nat, mid: nat, end: nat, num0: int, tmparr: array<int>, ghost l: seq<int>,
      ghost r: seq<int>)
    returns (num: int, ghost out: seq<int>)
    requires beg <= mid <= end <= a.Length && a != tmparr && end - beg <= tmparr.Length
    requires Holds(a, beg, l) && Holds(a, mid, r) && |l| == mid - beg && |r| == end - mid && Sorted(l) && Sorted(r)
    modifies tmparr
    ensures num == num0 + Cross(l, r)
    ensures Holds(tmparr, 0, out) && |out| == end - beg && Sorted(out) && multiset(out) == multiset(l + r)
  {
    hide Cross, Sorted, Merged;
    var i, j, index;
    num, i, j, index, out := MergeWhileBoth(a, beg, mid, end, num0, tmparr, l, r);
    ghost var restL, restR := l[i - beg..], r[j - mid..];
    MergedRest(l, r, i - beg, j - mid, out);
    AllMerged(l, r, out + restL + restR);
    index := CopyRest(a, i, mid, tmparr, index, out, restL);
    index := CopyRest(a, j, end, tmparr, index, out + restL, restR);
    out := out + restL + restR;
  }

  // one run is used up: the rest of the other follows as it is
  method CopyRest(a: array<int>, from: nat, to: nat, tmparr: array<int>, index0: nat, ghost out: seq<int>,
      ghost rest: seq<int>)
    returns (index: nat)
    requires from <= to <= a.Length && a != tmparr && index0 + (to - from) <= tmparr.Length
    requires Holds(tmparr, 0, out) && |out| == index0 && Holds(a, from, rest) && |rest| == to - from
    modifies tmparr
    ensures index == index0 + (to - from) && Holds(tmparr, 0, out + rest)
  {
    var i := from;
    index := index0;
    while i < to
      invariant from <= i <= to && index == index0 + (i - from)
      invariant Holds(tmparr, 0, out) && Holds(tmparr, index0, rest[..i - from])
    {
      tmparr[index] := a[i];
      index, i := index + 1, i + 1;
    }
  }

  method CopyBack(a: array<int>, beg: nat, end: nat, tmparr: array<int>, ghost out: seq<int>)
    requires beg <= end <= a.Length && a != tmparr && end - beg == |out| && Holds(tmparr, 0, out)
    modifies a
    ensures Holds(a, beg, out) && Outside(old(a[..]), a[..], beg, end)
  {
    var index, i := 0, beg;
    while i < end
      invariant beg <= i <= end && index == i - beg
      invariant Holds(a, beg, out[..index])
      invariant forall k | 0 <= k < beg || end <= k < a.Length :: a[k] == old(a[k])
    {
      a[i] := tmparr[index];
      i, index := i + 1, index + 1;
    }
  }

  method Merge(a: array<int>, beg: nat, mid: nat, end: nat, num0: int, tmparr: array<int>) returns (num: int)
    requires beg <= mid <= end <= a.Length && a != tmparr && end - beg <= tmparr.Length
    requires Sorted(a[beg..mid]) && Sorted(a[mid..end])
    modifies a, tmparr
    ensures num == num0 + old(Cross(a[beg..mid], a[mid..end]))
    ensures Sorted(a[beg..end]) && multiset(a[beg..end]) == multiset(old(a[beg..end]))
    ensures Outside(old(a[..]), a[..], beg, end)
  {
    hide Cross, Sorted, Outside, Holds;
    ghost var l, r, out := a[beg..mid], a[mid..end], [];
    SliceHolds(a, beg, mid);
    SliceHolds(a, mid, end);
    assert l + r == a[beg..end];
    num, out := MergeRuns(a, beg, mid, end, num0, tmparr, l, r);
    CopyBack(a, beg, end, tmparr, out);
    HoldsSlice(a, beg, end, out);
  }

  lemma SliceHolds(a: array<int>, x: nat, y: nat)
    requires x <= y <= a.Length
    ensures Holds(a, x, a[x..y])
  {
  }

  lemma HoldsSlice(a: array<int>, x: nat, y: nat, s: seq<int>)
    requires x <= y <= a.Length && Holds(a, x, s) && |s| == y - x
    ensures a[x..y] == s
  {
  }

  // s and s' agree outside [beg, end)
  ghost predicate Outside(s: seq<int>, s': seq<int>, beg: nat, end: nat) {
    |s| == |s'| && beg <= end <= |s| && s'[..beg] == s[..beg] && s'[end..] == s[end..]
  }

  lemma OutsideSlice(s: seq<int>, s': seq<int>, beg: nat, end: nat, x: nat, y: nat)
    requires Outside(s, s', beg, end) && x <= y <= |s| && (y <= beg || end <= x)
    ensures s'[x..y] == s[x..y]
  {
    if y <= beg {
      assert s[x..y] == s[..beg][x..y] && s'[x..y] == s'[..beg][x..y];
    } else {
      forall k | x <= k < y ensures s'[k] == s[k] { assert s'[end..][k - end] == s[end..][k - end]; }
    }
  }

  lemma OutsideBoth(s: seq<int>, s1: seq<int>, s2: seq<int>, beg: nat, mid: nat, end: nat)
    requires Outside(s, s1, beg, mid) && Outside(s1, s2, mid, end) && beg <= mid <= end
    ensures Outside(s, s2, beg, end)
  {
    OutsideSlice(s, s1, beg, mid, end, |s|);
    OutsideSlice(s1, s2, mid, end, 0, beg);
  }

  method InversionsIn(a: array<int>, beg: nat, end: nat, num0: int, tmparr: array<int>) returns (num: int)
    requires beg <= end <= a.Length && a != tmparr && end - beg <= tmparr.Length
    modifies a, tmparr
    ensures num == num0 + Count(old(a[beg..end]))
    ensures Sorted(a[beg..end]) && multiset(a[beg..end]) == multiset(old(a[beg..end]))
    ensures Outside(old(a[..]), a[..], beg, end)
    decreases end - beg
  {
    hide Cross, Sorted, Outside, Count;
    var mid := (beg + end) / 2;
    num := num0;
    ghost var s0 := a[..];
    if beg + 1 < end {
      num := InversionsIn(a, beg, mid, num, tmparr);
      ghost var s1 := a[..];
      num := InversionsIn(a, mid, end, num, tmparr);
      ghost var s2 := a[..];
      Halves(s0, s1, s2, beg, mid, end);
      num := Merge(a, beg, mid, end, num, tmparr);
      OutsideBoth(s0, s1, s2, beg, mid, end);
      OutsideAgain(s0, s2, a[..], beg, end);
    } else {
      ShortSeq(a[beg..end]);
      OutsideSame(s0, beg, end);
    }
  }

  lemma OutsideAgain(s: seq<int>, s1: seq<int>, s2: seq<int>, beg: nat, end: nat)
    requires Outside(s, s1, beg, end) && Outside(s1, s2, beg, end)
    ensures Outside(s, s2, beg, end)
  {
  }

  lemma OutsideSame(s: seq<int>, beg: nat, end: nat)
    requires beg <= end <= |s|
    ensures Outside(s, s, beg, end)
  {
  }

  // what is known after both halves are sorted: s0 before, s1 after the left half, s2 after the right
  lemma Halves(s0: seq<int>, s1: seq<int>, s2: seq<int>, beg: nat, mid: nat, end: nat)
    requires beg <= mid <= end <= |s0| && Outside(s0, s1, beg, mid) && Outside(s1, s2, mid, end)
    requires Sorted(s1[beg..mid]) && multiset(s1[beg..mid]) == multiset(s0[beg..mid])
    requires Sorted(s2[mid..end]) && multiset(s2[mid..end]) == multiset(s1[mid..end])
    ensures Sorted(s2[beg..mid]) && s1[mid..end] == s0[mid..end]
    ensures Count(s0[beg..end]) == Count(s0[beg..mid]) + Count(s0[mid..end]) + Cross(s2[beg..mid], s2[mid..end])
    ensures multiset(s2[beg..end]) == multiset(s0[beg..end])
  {
    hide Sorted, Count, Cross;
    OutsideSlice(s0, s1, beg, mid, mid, end);
    OutsideSlice(s1, s2, mid, end, beg, mid);
    var l, r := s0[beg..mid], s0[mid..end];
    assert s0[beg..end] == l + r && s2[beg..end] == s2[beg..mid] + s2[mid..end];
    CountAppend(l, r);
    CrossPerm(l, r, s2[beg..mid], s2[mid..end]);
  }

  lemma ShortSeq(s: seq<int>)
    requires |s| <= 1
    ensures Count(s) == 0 && Sorted(s)
  {
  }

  // adds to num exactly the number of inversions of the original array, and sorts it
  method InversePairs(a: array<int>, num0: int) returns (num: int)
    modifies a
    ensures var s := old(a[..]); num == num0 + |set i: nat, j: nat | i < j < |s| && s[i] > s[j] :: (i, j)|
    ensures forall i, j | 0 <= i <= j < a.Length :: a[i] <= a[j]
    ensures multiset(a[..]) == multiset(old(a[..]))
  {
    var tmparr := new int[a.Length];
    assert a[0..a.Length] == a[..];
    CountIsPairs(a[..]);
    num := InversionsIn(a, 0, a.Length, num0, tmparr);
    assert a[0..a.Length] == a[..];
    ghost var s := old(a[..]);
    assert Pairs(s) == set i: nat, j: nat | i < j < |s| && s[i] > s[j] :: (i, j);
  }
}
