/**
 Three ways to the maximum subarray of a non-empty array: brute force, divide and conquer, one scan.
 Indices are inclusive, as in the struct the program returns.
 */
module MaxSubarray {

  datatype Subarr = Subarr(max: int, left: int, right: int)

  // arr[i] + ... + arr[j - 1]
  function Sum(s: seq<int>, i: nat, j: nat): int
    requires i <= j <= |s|
    decreases j - i
  {
    if i == j then 0 else Sum(s, i, j - 1) + s[j - 1]
  }

  lemma {:induction false} SumSplit(s: seq<int>, i: nat, m: nat, j: nat)
    requires i <= m <= j <= |s|
    ensures Sum(s, i, j) == Sum(s, i, m) + Sum(s, m, j)
    ensures j == i + 1 ==> Sum(s, i, j) == s[i]
    decreases j - m
  {
    if m < j { SumSplit(s, i, m, j - 1); }
  }

  // the reported indices are those of a subarray with the reported sum
  ghost predicate Real(s: seq<int>, r: Subarr) {
    0 <= r.left <= r.right < |s| && Sum(s, r.left, r.right + 1) == r.max
  }

  // no subarray of [beg, end) has a larger sum than m
  ghost predicate Bounds(s: seq<int>, beg: nat, end: nat, m: int) {
    end <= |s| && forall i: nat, j: nat | beg <= i < j <= end :: Sum(s, i, j) <= m
  }

  ghost predicate IsMax(s: seq<int>, m: int) {
    Bounds(s, 0, |s|, m) && exists i: nat, j: nat :: i < j <= |s| && Sum(s, i, j) == m
  }

  // there is only one maximum, so algorithms that find it agree
  lemma MaxUnique(s: seq<int>, m: int, m': int)
    requires IsMax(s, m) && IsMax(s, m')
    ensures m == m'
  {
    var i: nat, j: nat :| i < j <= |s| && Sum(s, i, j) == m;
    var i': nat, j': nat :| i' < j' <= |s| && Sum(s, i', j') == m';
  }

  // ---- brute force ----

  // sums seen so far: all of those starting before i, and those starting at i and ending by j
  ghost predicate SeenTo(s: seq<int>, i: nat, j: nat, m: int) {
    && (forall x: nat, y: nat | x < i && x < y <= |s| :: Sum(s, x, y) <= m)
    && (forall y: nat | i < y <= j && y <= |s| :: Sum(s, i, y) <= m)
  }

  // the indices stay what they happened to be exactly if no subarray has a larger sum than arr[0]
  method BMaxSubarray(arr: array<int>, uninitialised: Subarr) returns (sub: Subarr)
    requires arr.Length > 0
    ensures IsMax(arr[..], sub.max)
    ensures sub.max > arr[0] ==> Real(arr[..], sub)
    ensures sub == uninitialised.(max := arr[0]) <==> Bounds(arr[..], 0, arr.Length, arr[0])
  {
    ghost var s := arr[..];
    var n := arr.Length;
    sub := uninitialised.(max := arr[0]);
    assert Sum(s, 0, 1) == arr[0] by { assert Sum(s, 0, 0) == 0; }
    var i := 0;
    while i < n
      invariant 0 <= i <= n && SeenTo(s, i, i, sub.max)
      invariant sub.max >= arr[0] && (sub.max > arr[0] ==> Real(s, sub))
      invariant sub.max == arr[0] ==> sub == uninitialised.(max := arr[0])
    {
      var tmp := 0;
      var j := i;
      while j < n
        invariant i <= j <= n && tmp == Sum(s, i, j) && SeenTo(s, i, j, sub.max)
        invariant sub.max >= arr[0] && (sub.max > arr[0] ==> Real(s, sub))
        invariant sub.max == arr[0] ==> sub == uninitialised.(max := arr[0])
      {
        tmp := tmp + arr[j];
        if tmp > sub.max {
          sub := Subarr(tmp, i, j);
        }
        j := j + 1;
      }
      i := i + 1;
    }
    assert Sum(s, 0, 1) == arr[0];
  }

  // inputs on which the indices are not set, and are
  lemma IndicesUnset()
    ensures Bounds([5], 0, 1, 5) && !Bounds([5, 1], 0, 2, 5)
  {
    var s := [5];
    assert Sum(s, 0, 0) == 0 && Sum(s, 0, 1) == 5;
    var t := [5, 1];
    assert Sum(t, 0, 0) == 0 && Sum(t, 0, 1) == 5;
    assert Sum(t, 0, 2) == 6;
  }

  // ---- divide and conquer ----

  // the best subarray that lies across mid and ends before end; the scan to the left goes on to index 0
  method MaxCross(arr: array<int>, beg: nat, mid: nat, end: nat) returns (cross: Subarr)
    requires beg < mid < end <= arr.Length
    ensures Real(arr[..], cross) && cross.left < mid <= cross.right < end
    ensures forall x: nat, y: nat | x < mid < y <= end :: Sum(arr[..], x, y) <= cross.max
  {
    ghost var s := arr[..];
    var i, j, tmp, maxleft, maxright, left, right := mid - 1, mid, 0, arr[mid - 1], arr[mid], mid - 1, mid;
    assert Sum(s, mid - 1, mid) == arr[mid - 1] by { assert Sum(s, mid - 1, mid - 1) == 0; }
    assert Sum(s, mid, mid + 1) == arr[mid] by { assert Sum(s, mid, mid) == 0; }
    while i >= 0
      invariant -1 <= i < mid && tmp == Sum(s, i + 1, mid)
      invariant 0 <= left < mid && maxleft == Sum(s, left, mid)
      invariant forall x: nat | i < x < mid :: Sum(s, x, mid) <= maxleft
    {
      SumSplit(s, i, i + 1, mid);
      assert Sum(s, i, i + 1) == arr[i] by { assert Sum(s, i, i) == 0; }
      tmp := tmp + arr[i];
      if tmp > maxleft {
        maxleft := tmp;
        left := i;
      }
      i := i - 1;
    }
    tmp := 0;
    while j < end
      invariant mid <= j <= end && tmp == Sum(s, mid, j)
      invariant mid <= right < end && maxright == Sum(s, mid, right + 1)
      invariant forall y: nat | mid < y <= j :: Sum(s, mid, y) <= maxright
    {
      tmp := tmp + arr[j];
      if tmp > maxright {
        maxright := tmp;
        right := j;
      }
      j := j + 1;
    }
    cross := Subarr(maxright + maxleft, left, right);
    SumSplit(s, left, mid, right + 1);
    forall x: nat, y: nat | x < mid < y <= end ensures Sum(s, x, y) <= cross.max { SumSplit(s, x, mid, y); }
  }

  function Max(left: Subarr, right: Subarr, middle: Subarr): (r: Subarr)
    ensures r == left || r == right || r == middle
    ensures left.max <= r.max && right.max <= r.max && middle.max <= r.max
  {
    var m := if left.max < right.max then right else left;
    if m.max < middle.max then middle else m
  }

  // an inner call answers with some real subarray, at least as good as every one of [beg, end)
  method MaxSubarr(arr: array<int>, beg: nat, end: nat) returns (r: Subarr)
    requires beg < end <= arr.Length
    ensures Real(arr[..], r) && r.right < end && Bounds(arr[..], beg, end, r.max)
    decreases end - beg
  {
    ghost var s := arr[..];
    if beg + 1 < end {
      var mid := (beg + end) / 2;
      var left := MaxSubarr(arr, beg, mid);
      var right := MaxSubarr(arr, mid, end);
      var middle := MaxCross(arr, beg, mid, end);
      r := Max(left, right, middle);
      forall i: nat, j: nat | beg <= i < j <= end ensures Sum(s, i, j) <= r.max {
        if j <= mid { assert Sum(s, i, j) <= left.max; }
        else if mid <= i { assert Sum(s, i, j) <= right.max; }
        else { assert Sum(s, i, j) <= middle.max; }
      }
    } else {
      r := Subarr(arr[beg], beg, end - 1);
      assert Sum(s, beg, beg + 1) == arr[beg] by { assert Sum(s, beg, beg) == 0; }
    }
  }

  method DMaxSubarray(arr: array<int>) returns (r: Subarr)
    requires arr.Length > 0
    ensures IsMax(arr[..], r.max) && Real(arr[..], r)
  {
    r := MaxSubarr(arr, 0, arr.Length);
    assert Sum(arr[..], r.left, r.right + 1) == r.max;
  }

  // ---- one scan ----

  lemma {:induction false} NoPositive(s: seq<int>, m: int, i: nat, j: nat)
    requires i < j <= |s| && m <= 0 && forall k | 0 <= k < |s| :: s[k] <= m
    ensures Sum(s, i, j) <= m
    decreases j - i
  {
    if i + 1 < j { NoPositive(s, m, i, j - 1); } else { assert Sum(s, i, i) == 0; }
  }

  // the largest element, if none is positive; the last of several equal ones
  method LargestIfNonePositive(arr: array<int>) returns (sub: Subarr, sign: int)
    requires arr.Length > 0
    ensures sign == 1 || sign == -1
    ensures sign == 1 <==> exists k :: 0 <= k < arr.Length && arr[k] > 0
    ensures sign == -1 ==> IsMax(arr[..], sub.max) && Real(arr[..], sub) && sub.left == sub.right
  {
    ghost var s := arr[..];
    sub := Subarr(arr[0], 0, 0);
    sign := -1;
    var i := 0;
    while i < arr.Length
      invariant 0 <= i <= arr.Length && sign == -1 && (i == 0 ==> sub.max == s[0])
      invariant forall k | 0 <= k < i :: s[k] <= sub.max && s[k] <= 0
      invariant sub.max == s[0] || sub.max <= 0
      invariant 0 <= sub.left == sub.right < arr.Length && s[sub.left] == sub.max
    {
      if arr[i] > 0 {
        sign := 1;
        break;
      } else if arr[i] >= sub.max {
        sub := Subarr(arr[i], i, i);
      }
      i := i + 1;
    }
    if sign == -1 {
      assert Sum(s, sub.left, sub.left + 1) == sub.max by { assert Sum(s, sub.left, sub.left) == 0; }
      forall x: nat, y: nat | x < y <= |s| ensures Sum(s, x, y) <= sub.max { NoPositive(s, sub.max, x, y); }
    }
  }

  function Positive(x: int): int { if x > 0 then x else 0 }

  // sums ending at right + 1, from those ending at right
  lemma EndsOneLater(s: seq<int>, right: nat, best: int)
    requires right < |s| && forall x: nat | x <= right :: Sum(s, x, right) <= best
    ensures forall x: nat, r: nat | x <= right && r == right + 1 :: Sum(s, x, r) <= best + s[right]
  {
  }

  method LMaxSubarray(arr: array<int>) returns (sub: Subarr)
    requires arr.Length > 0
    ensures IsMax(arr[..], sub.max) && Real(arr[..], sub)
  {
    ghost var s := arr[..];
    var n, sign := arr.Length, -1;
    sub, sign := LargestIfNonePositive(arr);
    if sign == -1 {
      return;
    }
    sub := Subarr(arr[0], 0, 0);
    var tmp := Subarr(0, 0, 0);
    assert Sum(s, 0, 1) == arr[0] by { assert Sum(s, 0, 0) == 0; }
    while tmp.right < n
      invariant 0 <= tmp.left <= tmp.right <= n && tmp.max >= 0
      invariant tmp.max == Sum(s, tmp.left, tmp.right)
      invariant forall x: nat | x <= tmp.right :: Sum(s, x, tmp.right) <= tmp.max
      invariant Real(s, sub)
      invariant Bounds(s, 0, tmp.right, Positive(sub.max))
      decreases n - tmp.right
    {
      ghost var best, right := tmp.max, tmp.right;
      EndsOneLater(s, right, best);
      tmp := tmp.(max := tmp.max + arr[tmp.right]);
      if tmp.max > 0 {
        if tmp.max >= sub.max {
          sub := tmp;
        }
        tmp := tmp.(right := tmp.right + 1);
      } else {
        tmp := Subarr(0, tmp.right + 1, tmp.right + 1);
      }
      assert Sum(s, right + 1, right + 1) == 0;
      forall i: nat, j: nat | i < j <= right + 1 ensures Sum(s, i, j) <= Positive(sub.max) {
        if j <= right { assert Sum(s, i, j) <= Positive(sub.max); }
      }
    }
    ghost var k :| 0 <= k < n && s[k] > 0;
    assert Sum(s, k, k + 1) == s[k] by { assert Sum(s, k, k) == 0; }
    assert Sum(s, sub.left, sub.right + 1) == sub.max;
  }

  // ---- the three together ----

  method AllThree(arr: array<int>, uninitialised: Subarr) returns (b: Subarr, d: Subarr, l: Subarr)
    requires arr.Length > 0
    ensures b.max == d.max == l.max
    ensures forall i: nat, j: nat | i < j <= arr.Length :: Sum(arr[..], i, j) <= l.max
    ensures 0 <= d.left <= d.right < arr.Length && Sum(arr[..], d.left, d.right + 1) == d.max
    ensures 0 <= l.left <= l.right < arr.Length && Sum(arr[..], l.left, l.right + 1) == l.max
    ensures b.max > arr[0] ==> 0 <= b.left <= b.right < arr.Length && Sum(arr[..], b.left, b.right + 1) == b.max
  {
    b := BMaxSubarray(arr, uninitialised);
    d := DMaxSubarray(arr);
    l := LMaxSubarray(arr);
    MaxUnique(arr[..], b.max, d.max);
    MaxUnique(arr[..], d.max, l.max);
  }
}
