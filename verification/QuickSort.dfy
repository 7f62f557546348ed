/**
 Quicksort with a median-of-three pivot, scan loops without bound checks, and insertion sort for
 short ranges.  Ranges are inclusive, so an empty one has right == left - 1.
 */
module QuickSort {

  const CUTOFF := 3

  // s' has the elements of s, those outside [lo, hi) where they were
  ghost predicate Shuffled(s: seq<int>, s': seq<int>, lo: int, hi: int) {
    && |s'| == |s| && multiset(s') == multiset(s)
    && forall k | 0 <= k < |s| && !(lo <= k < hi) :: s'[k] == s[k]
  }

  ghost predicate SortedIn(s: seq<int>, lo: int, hi: int) {
    0 <= lo && hi <= |s| && forall i, j | lo <= i <= j < hi :: s[i] <= s[j]
  }

  ghost predicate AtMost(s: seq<int>, lo: int, hi: int, p: int) {
    0 <= lo && hi <= |s| && forall k | lo <= k < hi :: s[k] <= p
  }

  ghost predicate AtLeast(s: seq<int>, lo: int, hi: int, p: int) {
    0 <= lo && hi <= |s| && forall k | lo <= k < hi :: s[k] >= p
  }

  lemma ShuffledTrans(s: seq<int>, s1: seq<int>, s2: seq<int>, lo: int, hi: int)
    requires Shuffled(s, s1, lo, hi) && Shuffled(s1, s2, lo, hi)
    ensures Shuffled(s, s2, lo, hi)
  {
  }

  lemma ShuffledWider(s: seq<int>, s': seq<int>, lo: int, hi: int, lo': int, hi': int)
    requires Shuffled(s, s', lo, hi) && lo' <= lo && hi <= hi'
    ensures Shuffled(s, s', lo', hi')
  {
  }

  lemma SwapShuffles(s: seq<int>, i: nat, j: nat, lo: int, hi: int)
    requires i < |s| && j < |s| && lo <= i < hi && lo <= j < hi
    ensures Shuffled(s, s[i := s[j]][j := s[i]], lo, hi)
  {
  }

  lemma BagOfParts(s: seq<int>, lo: nat, hi: nat)
    requires lo <= hi <= |s|
    ensures multiset(s) == multiset(s[..lo]) + multiset(s[lo..hi]) + multiset(s[hi..])
  {
    assert s == s[..lo] + s[lo..hi] + s[hi..];
  }

  // the elements of the range are the same bag before and after
  lemma RangeBag(s: seq<int>, s': seq<int>, lo: nat, hi: nat)
    requires Shuffled(s, s', lo, hi) && lo <= hi <= |s|
    ensures multiset(s'[lo..hi]) == multiset(s[lo..hi])
  {
    BagOfParts(s, lo, hi);
    BagOfParts(s', lo, hi);
    assert s'[..lo] == s[..lo] && s'[hi..] == s[hi..];
    hide Shuffled;
    Cancel(multiset(s[..lo]), multiset(s[lo..hi]), multiset(s'[lo..hi]), multiset(s[hi..]));
  }

  lemma Cancel(x: multiset<int>, m: multiset<int>, m': multiset<int>, y: multiset<int>)
    requires x + m + y == x + m' + y
    ensures m' == m
  {
    assert x + m + y - x - y == m && x + m' + y - x - y == m';
  }

  lemma BoundsKept(s: seq<int>, s': seq<int>, lo: nat, hi: nat, p: int)
    requires Shuffled(s, s', lo, hi) && lo <= hi <= |s|
    ensures AtMost(s, lo, hi, p) ==> AtMost(s', lo, hi, p)
    ensures AtLeast(s, lo, hi, p) ==> AtLeast(s', lo, hi, p)
  {
    RangeBag(s, s', lo, hi);
    forall k | lo <= k < hi ensures exists q :: lo <= q < hi && s[q] == s'[k] {
      assert s'[lo..hi][k - lo] in multiset(s'[lo..hi]);
      assert s'[k] in s[lo..hi];
      var q :| 0 <= q < hi - lo && s[lo..hi][q] == s'[k];
      assert s[lo + q] == s'[k];
    }
  }

  // ---- insertion sort of a[left..left+n) ----

  // the element taken out is tmp, and the gap is at j
  lemma GapMoves(s: seq<int>, j: nat, tmp: int)
    requires 0 < j < |s|
    ensures multiset(s[j := s[j - 1]][j - 1 := tmp]) == multiset(s[j := tmp])
  {
    var t := s[j := tmp];
    assert s[j := s[j - 1]][j - 1 := tmp] == t[j - 1 := t[j]][j := t[j - 1]];
    SwapShuffles(t, j - 1, j, 0, |s|);
  }

  method InsertionSort(a: array<int>, left: nat, n: nat)
    requires left + n <= a.Length
    modifies a
    ensures SortedIn(a[..], left, left + n) && Shuffled(old(a[..]), a[..], left, left + n)
  {
    ghost var s0 := a[..];
    var i := 1;
    while i < n
      invariant i >= 1 && Shuffled(s0, a[..], left, left + n)
      invariant SortedIn(a[..], left, left + (if i <= n then i else n))
    {
      InsertOne(a, left, i, n);
      i := i + 1;
    }
  }

  // tmp, taken out of s0[left + i], has a gap waiting for it at left + j; the ones it passed moved up
  ghost predicate Gap(s0: seq<int>, s: seq<int>, left: nat, i: nat, j: nat, tmp: int) {
    && j <= i && left + i < |s0| == |s| && multiset(s[left + j := tmp]) == multiset(s0)
    && (forall k | 0 <= k < left + j :: s[k] == s0[k])
    && (forall k | left + j < k <= left + i :: s[k] == s0[k - 1] && s[k] > tmp)
    && (forall k | left + i < k < |s0| :: s[k] == s0[k])
  }

  lemma GapStarts(s0: seq<int>, left: nat, i: nat)
    requires left + i < |s0|
    ensures Gap(s0, s0, left, i, i, s0[left + i])
  {
    assert s0[left + i := s0[left + i]] == s0;
  }

  lemma GapStep(s0: seq<int>, s: seq<int>, left: nat, i: nat, j: nat, tmp: int)
    requires Gap(s0, s, left, i, j, tmp) && j > 0 && s[left + j - 1] > tmp
    ensures Gap(s0, s[left + j := s[left + j - 1]], left, i, j - 1, tmp)
  {
    var g := left + j;
    var s' := s[g := s[g - 1]];
    GapMoves(s, g, tmp);
    assert left + (j - 1) == g - 1;
    forall k | g - 1 < k <= left + i ensures s'[k] == s0[k - 1] && s'[k] > tmp { }
  }

  lemma GapFilled(s0: seq<int>, s: seq<int>, left: nat, i: nat, j: nat, n: nat, tmp: int)
    requires Gap(s0, s, left, i, j, tmp) && i < n && SortedIn(s0, left, left + i) && (j > 0 ==> s[left + j - 1] <= tmp)
    ensures SortedIn(s[left + j := tmp], left, left + i + 1) && Shuffled(s0, s[left + j := tmp], left, left + n)
  {
    var s', gap := s[left + j := tmp], left + j;
    forall x, y | left <= x <= y < left + i + 1 ensures s'[x] <= s'[y] {
      assert s'[x] == (if x < gap then s0[x] else if x == gap then tmp else s0[x - 1]);
      assert s'[y] == (if y < gap then s0[y] else if y == gap then tmp else s0[y - 1]);
    }
  }

  // one round of the outer loop: a[left + i] goes to its place among the i before it
  method InsertOne(a: array<int>, left: nat, i: nat, n: nat)
    requires 0 < i < n && left + n <= a.Length && SortedIn(a[..], left, left + i)
    modifies a
    ensures SortedIn(a[..], left, left + i + 1) && Shuffled(old(a[..]), a[..], left, left + n)
  {
    hide Shuffled, SortedIn, Gap;
    ghost var s0 := a[..];
    var tmp := a[left + i];
    var j := i;
    GapStarts(s0, left, i);
    while j > 0 && a[left + j - 1] > tmp
      invariant 0 <= j <= i && Gap(s0, a[..], left, i, j, tmp)
    {
      ghost var s := a[..];
      GapStep(s0, s, left, i, j, tmp);
      a[left + j] := a[left + j - 1];
      assert a[..] == s[left + j := s[left + j - 1]];
      j := j - 1;
    }
    ghost var s := a[..];
    GapFilled(s0, s, left, i, j, n, tmp);
    a[left + j] := tmp;
    assert a[..] == s[left + j := tmp];
  }

  // ---- the pivot ----

  ghost predicate Swapped(s: seq<int>, s': seq<int>, i: nat, j: nat) {
    && |s'| == |s| && i < |s| && j < |s| && s'[i] == s[j] && s'[j] == s[i]
    && forall k | 0 <= k < |s| && k != i && k != j :: s'[k] == s[k]
  }

  method Swap(a: array<int>, i: nat, j: nat)
    requires i < a.Length && j < a.Length
    modifies a
    ensures Swapped(old(a[..]), a[..], i, j)
  {
    var tmp := a[i];
    a[i] := a[j];
    a[j] := tmp;
  }

  // if (a[i] > a[j]) swap(a + i, a + j)
  method OrderTwo(a: array<int>, i: nat, j: nat, ghost lo: nat, ghost hi: nat)
    requires lo <= i < j < hi <= a.Length
    modifies a
    ensures Shuffled(old(a[..]), a[..], lo, hi)
    ensures a[i] <= a[j] && multiset{a[i], a[j]} == old(multiset{a[i], a[j]})
    ensures forall k | 0 <= k < a.Length && k != i && k != j :: a[k] == old(a[k])
  {
    hide Shuffled;
    ghost var s0 := a[..];
    ShuffledSelf(s0, lo, hi);
    if a[i] > a[j] {
      Swap(a, i, j);
      SwapMore(s0, s0, a[..], i, j, lo, hi);
    }
  }

  method OrderThree(a: array<int>, left: nat, center: nat, right: nat)
    requires left < center < right < a.Length
    modifies a
    ensures Shuffled(old(a[..]), a[..], left, right + 1)
    ensures a[left] <= a[center] <= a[right]
    ensures multiset{a[left], a[center], a[right]} == old(multiset{a[left], a[center], a[right]})
  {
    hide Shuffled;
    ghost var s0 := a[..];
    OrderTwo(a, left, center, left, right + 1);
    ghost var s1 := a[..];
    OrderTwo(a, left, right, left, right + 1);
    ghost var s2 := a[..];
    OrderTwo(a, center, right, left, right + 1);
    ghost var s3 := a[..];
    ShuffledTrans(s0, s1, s2, left, right + 1);
    ShuffledTrans(s0, s2, s3, left, right + 1);
    Ordered3(s0[left], s0[center], s0[right], s1[left], s1[center], s2[left], s2[right], s3[center], s3[right]);
  }

  // leaves a sentinel at each end: a[left] <= pivot <= a[right], and the pivot at right - 1
  method Median3(a: array<int>, left: nat, right: nat) returns (pivot: int)
    requires left + 2 <= right < a.Length
    modifies a
    ensures Shuffled(old(a[..]), a[..], left, right + 1)
    ensures pivot == a[right - 1] && a[left] <= pivot <= a[right]
    ensures multiset{a[left], pivot, a[right]} == old(multiset{a[left], a[(left + right) / 2], a[right]})
  {
    hide Shuffled;
    var center := (left + right) / 2;
    ghost var s0 := a[..];
    OrderThree(a, left, center, right);
    ghost var s3 := a[..];
    Swap(a, center, right - 1);
    SwapMore(s0, s3, a[..], center, right - 1, left, right + 1);
    pivot := a[right - 1];
    assert a[left] == s3[left] && pivot == s3[center] && a[right] == s3[right];
  }

  lemma Ordered3(x: int, y: int, z: int, x1: int, y1: int, x2: int, z2: int, y3: int, z3: int)
    requires x1 <= y1 && multiset{x1, y1} == multiset{x, y}
    requires x2 <= z2 && multiset{x2, z2} == multiset{x1, z}
    requires y3 <= z3 && multiset{y3, z3} == multiset{y1, z2}
    ensures x2 <= y3 <= z3 && multiset{x2, y3, z3} == multiset{x, y, z}
  {
    TwoSame(x1, y1, x, y);
    TwoSame(x2, z2, x1, z);
    TwoSame(y3, z3, y1, z2);
  }

  lemma TwoSame(a: int, b: int, c: int, d: int)
    requires multiset{a, b} == multiset{c, d}
    ensures (a == c && b == d) || (a == d && b == c)
  {
    assert a in multiset{c, d} && b in multiset{c, d};
    assert c in multiset{a, b} && d in multiset{a, b};
    assert multiset{a, b} - multiset{a} == multiset{b};
  }

  lemma ShuffledSelf(s: seq<int>, lo: int, hi: int)
    ensures Shuffled(s, s, lo, hi)
  {
  }

  lemma SwapMore(s0: seq<int>, s: seq<int>, s': seq<int>, i: nat, j: nat, lo: int, hi: int)
    requires Shuffled(s0, s, lo, hi) && Swapped(s, s', i, j) && lo <= i < hi && lo <= j < hi
    ensures Shuffled(s0, s', lo, hi)
  {
    assert s' == s[i := s[j]][j := s[i]];
    SwapShuffles(s, i, j, lo, hi);
    ShuffledTrans(s0, s, s', lo, hi);
  }

  // ---- the partition ----

  // a[right - 1] holds the pivot; what i has passed is small, what j has passed is large
  ghost predicate Split(s: seq<int>, left: int, right: int, i: int, j: int, pivot: int) {
    && 0 <= left <= i && j <= right - 1 && right < |s| && i < right && left <= j
    && s[right - 1] == pivot && AtMost(s, left, i + 1, pivot) && AtLeast(s, j, right + 1, pivot)
  }

  // no read is outside [left, right], the loops end, and the two sides are on their sides of the pivot
  method Partition(a: array<int>, left: nat, right: nat, pivot: int) returns (i: nat)
    requires left + CUTOFF <= right < a.Length && a[right - 1] == pivot && a[left] <= pivot <= a[right]
    modifies a
    ensures left < i < right && Shuffled(old(a[..]), a[..], left, right + 1)
    ensures a[i] == pivot && AtMost(a[..], left, i, pivot) && AtLeast(a[..], i + 1, right + 1, pivot)
  {
    hide Shuffled;
    ghost var s0 := a[..];
    ShuffledSelf(s0, left, right + 1);
    i := left;
    var j := right - 1;
    while true
      invariant i < j && Split(a[..], left, right, i, j, pivot)
      invariant Shuffled(s0, a[..], left, right + 1)
      decreases j - i
    {
      ghost var s, i0, j0 := a[..], i, j;
      i := i + 1;
      while a[i] < pivot
        invariant i0 < i <= j0 && a[..] == s && AtMost(s, left, i, pivot)
        decreases right - i
      {
        i := i + 1;
      }
      j := j - 1;
      while a[j] > pivot
        invariant i0 <= j < j0 && a[..] == s && AtLeast(s, j + 1, right + 1, pivot)
        decreases j
      {
        j := j - 1;
      }
      if i < j {
        Swap(a, i, j);
        SwapMore(s0, s, a[..], i, j, left, right + 1);
      } else {
        break;
      }
    }
    ghost var s := a[..];
    Swap(a, i, right - 1);
    SwapMore(s0, s, a[..], i, right - 1, left, right + 1);
  }

  // ---- the sort ----

  method Qsort(a: array<int>, left: nat, right: int)
    requires left <= right + 1 <= a.Length
    modifies a
    ensures SortedIn(a[..], left, right + 1) && Shuffled(old(a[..]), a[..], left, right + 1)
    decreases right + 1 - left
  {
    hide Shuffled, SortedIn, AtMost, AtLeast;
    if left + CUTOFF <= right {
      ghost var s0 := a[..];
      var pivot := Median3(a, left, right);
      ghost var s1 := a[..];
      var i := Partition(a, left, right, pivot);
      ghost var s2 := a[..];
      Qsort(a, left, i - 1);
      ghost var s3 := a[..];
      Qsort(a, i + 1, right);
      BothSides(s2, s3, a[..], left, i, right, pivot);
      ShuffledTrans(s0, s1, s2, left, right + 1);
      ShuffledTrans(s0, s2, a[..], left, right + 1);
    } else {
      InsertionSort(a, left, right - left + 1);
    }
  }

  lemma BothSides(s2: seq<int>, s3: seq<int>, s4: seq<int>, left: nat, i: nat, right: nat, pivot: int)
    requires left < i < right < |s2| && s2[i] == pivot && AtMost(s2, left, i, pivot)
             && AtLeast(s2, i + 1, right + 1, pivot)
    requires Shuffled(s2, s3, left, i) && SortedIn(s3, left, i)
    requires Shuffled(s3, s4, i + 1, right + 1) && SortedIn(s4, i + 1, right + 1)
    ensures Shuffled(s2, s4, left, right + 1) && SortedIn(s4, left, right + 1)
  {
    BoundsKept(s2, s3, left, i, pivot);
    assert AtLeast(s3, i + 1, right + 1, pivot);
    BoundsKept(s3, s4, i + 1, right + 1, pivot);
    ShuffledWider(s2, s3, left, i, left, right + 1);
    ShuffledWider(s3, s4, i + 1, right + 1, left, right + 1);
    ShuffledTrans(s2, s3, s4, left, right + 1);
    forall k | left <= k <= i ensures s4[k] == s3[k] && s4[k] <= pivot { }
  }

  method Quicksort(a: array<int>)
    modifies a
    ensures forall i, j | 0 <= i <= j < a.Length :: a[i] <= a[j]
    ensures multiset(a[..]) == multiset(old(a[..]))
  {
    Qsort(a, 0, a.Length - 1);
  }
}
