/**
 Eight threads sort one slice each of nums, meet the main thread at a barrier, and the main thread
 merges the slices.  First the merge, then the threads as a step machine, then both together.
 */
module Barrier {
  import opened Common

  const NTHR := 8
  const NUMNUM := 8000000
  const TNUM := 1000000
  const LONG_MAX := 0x7FFF_FFFF_FFFF_FFFF

  // slice i of nums
  function Slice(nums: seq<int>, i: nat): seq<int>
    requires i < NTHR && |nums| == NUMNUM
  {
    nums[i * TNUM..(i + 1) * TNUM]
  }

  ghost predicate SlicesSorted(nums: seq<int>) {
    |nums| == NUMNUM && forall i: nat | i < NTHR :: Sorted(Slice(nums, i))
  }

  // ---- the merge ----

  // idx[i] is somewhere in slice i, or just behind it
  ghost predicate IdxOk(idx: seq<int>) {
    |idx| == NTHR && forall i | 0 <= i < NTHR :: i * TNUM <= idx[i] <= (i + 1) * TNUM
  }

  ghost function Part(nums: seq<int>, idx: seq<int>, i: nat): multiset<int>
    requires |nums| == NUMNUM && IdxOk(idx) && i < NTHR
  {
    multiset(nums[i * TNUM..idx[i]])
  }

  // what has been taken from the first k slices
  ghost function Taken(nums: seq<int>, idx: seq<int>, k: nat): multiset<int>
    requires |nums| == NUMNUM && IdxOk(idx) && k <= NTHR
  {
    if k == 0 then multiset{} else Taken(nums, idx, k - 1) + Part(nums, idx, k - 1)
  }

  ghost function Steps(idx: seq<int>, k: nat): nat
    requires IdxOk(idx) && k <= NTHR
  {
    if k == 0 then 0 else Steps(idx, k - 1) + (idx[k - 1] - (k - 1) * TNUM)
  }

  lemma {:induction false} StepsOne(idx: seq<int>, m: nat, k: nat)
    requires IdxOk(idx) && k <= NTHR && m < NTHR && idx[m] < (m + 1) * TNUM
    ensures IdxOk(idx[m := idx[m] + 1]) && Steps(idx[m := idx[m] + 1], k) == Steps(idx, k) + (if m < k then 1 else 0)
    decreases k
  {
    if k > 0 { StepsOne(idx, m, k - 1); }
  }

  lemma {:induction false} TakenOne(nums: seq<int>, idx: seq<int>, m: nat, k: nat)
    requires |nums| == NUMNUM && IdxOk(idx) && k <= NTHR && m < NTHR && idx[m] < (m + 1) * TNUM
    requires IdxOk(idx[m := idx[m] + 1])
    ensures Taken(nums, idx[m := idx[m] + 1], k) == Taken(nums, idx, k)
            + (if m < k then multiset{nums[idx[m]]} else multiset{})
    decreases k
  {
    hide Taken, Part;
    var idx' := idx[m := idx[m] + 1];
    TakenIs(nums, idx, k);
    TakenIs(nums, idx', k);
    if k > 0 {
      TakenOne(nums, idx, m, k - 1);
      PartOne(nums, idx, m, k - 1);
      hide IdxOk;
      Commute(Taken(nums, idx, k - 1), multiset{nums[idx[m]]}, Part(nums, idx, k - 1));
      Commute(Taken(nums, idx, k - 1), multiset{}, Part(nums, idx, k - 1));
    }
  }

  lemma TakenIs(nums: seq<int>, idx: seq<int>, k: nat)
    requires |nums| == NUMNUM && IdxOk(idx) && k <= NTHR
    ensures Taken(nums, idx, k) == if k == 0 then multiset{} else Taken(nums, idx, k - 1) + Part(nums, idx, k - 1)
  {
  }

  lemma Commute(a: multiset<int>, b: multiset<int>, c: multiset<int>)
    ensures a + b + c == a + c + b && a + multiset{} == a && a + (c + b) == a + c + b
  {
  }

  lemma PartOne(nums: seq<int>, idx: seq<int>, m: nat, i: nat)
    requires |nums| == NUMNUM && IdxOk(idx) && i < NTHR && m < NTHR && idx[m] < (m + 1) * TNUM
    ensures IdxOk(idx[m := idx[m] + 1])
    ensures Part(nums, idx[m := idx[m] + 1], i)
            == (if i == m then Part(nums, idx, i) + multiset{nums[idx[m]]} else Part(nums, idx, i))
  {
    if i == m { OneMore(nums, m * TNUM, idx[m]); }
  }

  lemma OneMore(nums: seq<int>, b: nat, e: nat)
    requires b <= e < |nums|
    ensures multiset(nums[b..e + 1]) == multiset(nums[b..e]) + multiset{nums[e]}
  {
    assert nums[b..e + 1] == nums[b..e] + [nums[e]];
  }

  lemma {:induction false} NothingTaken(nums: seq<int>, idx: seq<int>, k: nat)
    requires |nums| == NUMNUM && IdxOk(idx) && k <= NTHR && forall i | 0 <= i < NTHR :: idx[i] == i * TNUM
    ensures Taken(nums, idx, k) == multiset{} && Steps(idx, k) == 0
  {
    if k > 0 { NothingTaken(nums, idx, k - 1); }
  }

  lemma {:induction false} AllTaken(nums: seq<int>, idx: seq<int>, k: nat)
    requires |nums| == NUMNUM && IdxOk(idx) && k <= NTHR && forall i | 0 <= i < NTHR :: idx[i] == (i + 1) * TNUM
    ensures Taken(nums, idx, k) == multiset(nums[..k * TNUM]) && Steps(idx, k) == k * TNUM
  {
    if k > 0 {
      AllTaken(nums, idx, k - 1);
      assert nums[..k * TNUM] == nums[..(k - 1) * TNUM] + nums[(k - 1) * TNUM..k * TNUM];
    } else {
      assert nums[..0] == [];
    }
  }

  // steps short of the end leave a slice unfinished
  lemma {:induction false} StepsBound(idx: seq<int>, k: nat)
    requires IdxOk(idx) && k <= NTHR
    ensures Steps(idx, k) <= k * TNUM
    ensures Steps(idx, k) == k * TNUM ==> forall i | 0 <= i < k :: idx[i] == (i + 1) * TNUM
    ensures Steps(idx, k) < k * TNUM ==> exists i :: 0 <= i < k && idx[i] < (i + 1) * TNUM
  {
    if k > 0 { StepsBound(idx, k - 1); }
  }

  // everything taken is at most everything left, and below LONG_MAX
  ghost predicate Below(nums: seq<int>, idx: seq<int>, out: seq<int>)
    requires |nums| == NUMNUM && IdxOk(idx)
  {
    && (forall q | 0 <= q < |out| :: out[q] < LONG_MAX)
    && forall q, i, x | 0 <= q < |out| && 0 <= i < NTHR && idx[i] <= x < (i + 1) * TNUM :: out[q] <= nums[x]
  }

  ghost predicate Progress(nums: seq<int>, idx: seq<int>, out: seq<int>) {
    && |nums| == NUMNUM && IdxOk(idx) && Sorted(out) && multiset(out) == Taken(nums, idx, NTHR)
    && |out| == Steps(idx, NTHR) && Below(nums, idx, out)
  }

  // where idx starts out and never goes below
  ghost predicate IdxLow(idx: seq<int>) { |idx| == NTHR && forall i | 0 <= i < NTHR :: i * TNUM <= idx[i] }

  // the head of slice m is the first of the smallest heads, and below LONG_MAX
  ghost predicate Chosen(nums: seq<int>, idx: seq<int>, m: nat)
    requires |nums| == NUMNUM && IdxLow(idx)
  {
    && m < NTHR && idx[m] < (m + 1) * TNUM && nums[idx[m]] < LONG_MAX
    && forall i | 0 <= i < NTHR && idx[i] < (i + 1) * TNUM ::
         nums[idx[m]] <= nums[idx[i]] && (i < m ==> nums[idx[m]] < nums[idx[i]])
  }

  // every slice is used up or has LONG_MAX at its head
  ghost predicate NoCandidate(nums: seq<int>, idx: seq<int>)
    requires |nums| == NUMNUM && IdxLow(idx)
  {
    forall i | 0 <= i < NTHR && idx[i] < (i + 1) * TNUM :: nums[idx[i]] >= LONG_MAX
  }

  lemma HeadSmallest(nums: seq<int>, i: nat, x: int, y: int)
    requires SlicesSorted(nums) && i < NTHR && i * TNUM <= x <= y < (i + 1) * TNUM
    ensures nums[x] <= nums[y]
  {
    var s := Slice(nums, i);
    assert s[x - i * TNUM] == nums[x] && s[y - i * TNUM] == nums[y];
  }

  lemma TakeChosen(nums: seq<int>, idx: seq<int>, out: seq<int>, m: nat)
    requires SlicesSorted(nums) && Progress(nums, idx, out) && Chosen(nums, idx, m)
    ensures Progress(nums, idx[m := idx[m] + 1], out + [nums[idx[m]]])
  {
    hide SlicesSorted, Taken, Steps;
    StepsOne(idx, m, NTHR);
    TakenOne(nums, idx, m, NTHR);
    var idx', v := idx[m := idx[m] + 1], nums[idx[m]];
    var out' := out + [v];
    forall q, i, x | 0 <= q < |out'| && 0 <= i < NTHR && idx'[i] <= x < (i + 1) * TNUM ensures out'[q] <= nums[x] {
      if q == |out| { HeadSmallest(nums, i, idx[i], x); }
    }
  }

  // ---- which slice was used last ----

  // of equal elements those of earlier slices are taken first
  ghost predicate InOrder(nums: seq<int>, idx: seq<int>)
    requires |nums| == NUMNUM && IdxOk(idx)
  {
    forall i, x, k, y | 0 <= i < NTHR && i * TNUM <= x < idx[i] && 0 <= k < NTHR && idx[k] <= y < (k + 1) * TNUM ::
      nums[x] <= nums[y] && (k < i ==> nums[x] < nums[y])
  }

  // slice m was the last to be used: nothing taken is larger, and no later slice gave an equal element
  ghost predicate LastUsed(nums: seq<int>, idx: seq<int>, m: nat)
    requires |nums| == NUMNUM && IdxOk(idx)
  {
    && m < NTHR && m * TNUM < idx[m] && nums[idx[m] - 1] < LONG_MAX
    && forall i, x | 0 <= i < NTHR && i * TNUM <= x < idx[i] ::
         nums[x] <= nums[idx[m] - 1] && (m < i ==> nums[x] < nums[idx[m] - 1])
  }

  // nothing left is smaller than the chosen head, and nothing left in earlier slices equal to it
  lemma ChosenBelow(nums: seq<int>, idx: seq<int>, m: nat, k: nat, y: int)
    requires SlicesSorted(nums) && |nums| == NUMNUM && IdxOk(idx) && Chosen(nums, idx, m) && k < NTHR
             && idx[k] <= y < (k + 1) * TNUM
    ensures nums[idx[m]] <= nums[y] && (k < m ==> nums[idx[m]] < nums[y])
  {
    hide SlicesSorted;
    HeadSmallest(nums, k, idx[k], y);
  }

  lemma TakeInOrder(nums: seq<int>, idx: seq<int>, m: nat)
    requires SlicesSorted(nums) && |nums| == NUMNUM && IdxOk(idx) && InOrder(nums, idx) && Chosen(nums, idx, m)
    ensures IdxOk(idx[m := idx[m] + 1]) && InOrder(nums, idx[m := idx[m] + 1])
            && LastUsed(nums, idx[m := idx[m] + 1], m)
  {
    var idx' := idx[m := idx[m] + 1];
    assert m < NTHR && idx[m] < (m + 1) * TNUM && nums[idx[m]] < LONG_MAX;
    TakenBefore(nums, idx, m);
    hide SlicesSorted, Chosen;
    forall i, x, k, y | 0 <= i < NTHR && i * TNUM <= x < idx'[i] && 0 <= k < NTHR && idx'[k] <= y < (k + 1) * TNUM
      ensures nums[x] <= nums[y] && (k < i ==> nums[x] < nums[y])
    {
      if x == idx[m] && i == m { ChosenBelow(nums, idx, m, k, y); }
    }
  }

  lemma TakenBefore(nums: seq<int>, idx: seq<int>, m: nat)
    requires |nums| == NUMNUM && IdxOk(idx) && InOrder(nums, idx) && m < NTHR && idx[m] < (m + 1) * TNUM
             && nums[idx[m]] < LONG_MAX
    ensures IdxOk(idx[m := idx[m] + 1]) && LastUsed(nums, idx[m := idx[m] + 1], m)
  {
    var idx', e := idx[m := idx[m] + 1], nums[idx[m]];
    forall i, x | 0 <= i < NTHR && i * TNUM <= x < idx'[i] ensures nums[x] <= e && (m < i ==> nums[x] < e) {
      if x < idx[i] { assert nums[x] <= nums[idx[m]]; }
    }
  }

  // ---- the numbers equal to LONG_MAX ----

  // how many of them there are
  ghost function Maxes(nums: seq<int>): nat { multiset(nums)[LONG_MAX] }

  // position p is where the program goes on reading once only such numbers are left: behind the
  // largest number below LONG_MAX, in the last slice m that holds it
  ghost predicate GoesOnAt(nums: seq<int>, m: nat, p: nat) {
    && |nums| == NUMNUM && m < NTHR && m * TNUM < p <= (m + 1) * TNUM && nums[p - 1] < LONG_MAX
    && (p < (m + 1) * TNUM ==> nums[p] == LONG_MAX)
    && forall y | 0 <= y < NUMNUM && nums[y] < LONG_MAX ::
      nums[y] <= nums[p - 1]
      && (y >= (m + 1) * TNUM ==> nums[y] < nums[p - 1])
  }

  // every read is of a number, from a slice that was chosen
  ghost predicate StaysInside(nums: seq<int>) {
    LONG_MAX !in nums || exists m: nat, p: nat :: GoesOnAt(nums, m, p) && p + Maxes(nums) <= NUMNUM
  }

  // and there the numbers equal to LONG_MAX are next to each other, as many as there are in all
  ghost predicate MergesRight(nums: seq<int>) {
    || LONG_MAX !in nums
    || exists m: nat, p: nat ::
      GoesOnAt(nums, m, p) && p + Maxes(nums) <= NUMNUM
      && forall x | p <= x < p + Maxes(nums) :: nums[x] == LONG_MAX
  }

  lemma GoesOnOnce(nums: seq<int>, m: nat, p: nat, m': nat, p': nat)
    requires SlicesSorted(nums) && GoesOnAt(nums, m, p) && GoesOnAt(nums, m', p')
    ensures m == m' && p == p'
  {
    if m == m' {
      if p < p' { HeadSmallest(nums, m, p, p' - 1); }
      if p' < p { HeadSmallest(nums, m, p', p - 1); }
    }
  }

  // what slice i holds from position c on
  ghost function RestOf(nums: seq<int>, i: nat, c: int): multiset<int>
    requires |nums| == NUMNUM && i < NTHR && i * TNUM <= c <= (i + 1) * TNUM
  {
    multiset(nums[c..(i + 1) * TNUM])
  }

  ghost function Remaining(nums: seq<int>, idx: seq<int>, k: nat): multiset<int>
    requires |nums| == NUMNUM && IdxOk(idx) && k <= NTHR
  {
    if k == 0 then multiset{} else Remaining(nums, idx, k - 1) + RestOf(nums, k - 1, idx[k - 1])
  }

  lemma ThreeParts(nums: seq<int>, b: nat, c: nat, e: nat)
    requires b <= c <= e <= |nums|
    ensures multiset(nums[..e]) == multiset(nums[..b]) + (multiset(nums[b..c]) + multiset(nums[c..e]))
  {
    assert nums[..e] == nums[..b] + (nums[b..c] + nums[c..e]);
  }

  lemma PairUp(a: multiset<int>, b: multiset<int>, c: multiset<int>, d: multiset<int>)
    ensures a + b + (c + d) == (a + c) + (b + d)
  {
  }

  lemma {:induction false} BagSplit(nums: seq<int>, idx: seq<int>, k: nat)
    requires |nums| == NUMNUM && IdxOk(idx) && k <= NTHR
    ensures Taken(nums, idx, k) + Remaining(nums, idx, k) == multiset(nums[..k * TNUM])
  {
    if k > 0 {
      BagSplit(nums, idx, k - 1);
      var b, c, e := (k - 1) * TNUM, idx[k - 1], k * TNUM;
      ThreeParts(nums, b, c, e);
      PairUp(Taken(nums, idx, k - 1), Remaining(nums, idx, k - 1), multiset(nums[b..c]), multiset(nums[c..e]));
    }
  }

  // behind a head that is LONG_MAX there is nothing else
  lemma RestOfSlice(nums: seq<int>, i: nat, c: int)
    requires SlicesSorted(nums) && |nums| == NUMNUM && i < NTHR && i * TNUM <= c <= (i + 1) * TNUM
    requires forall x | 0 <= x < NUMNUM :: nums[x] <= LONG_MAX
    requires c < (i + 1) * TNUM ==> nums[c] >= LONG_MAX
    ensures forall v | v in RestOf(nums, i, c) :: v == LONG_MAX
  {
    hide SlicesSorted;
    var e := (i + 1) * TNUM;
    forall v | v in RestOf(nums, i, c) ensures v == LONG_MAX {
      assert v in nums[c..e];
      var x :| 0 <= x < e - c && nums[c..e][x] == v;
      HeadSmallest(nums, i, c, c + x);
    }
  }

  lemma {:induction false} RemainingAre(nums: seq<int>, idx: seq<int>, k: nat)
    requires SlicesSorted(nums) && IdxOk(idx) && k <= NTHR && NoCandidate(nums, idx)
             && forall x | 0 <= x < NUMNUM :: nums[x] <= LONG_MAX
    ensures forall v | v in Remaining(nums, idx, k) :: v == LONG_MAX
  {
    assert |nums| == NUMNUM;
    hide SlicesSorted;
    if k > 0 {
      RemainingAre(nums, idx, k - 1);
      RestOfSlice(nums, k - 1, idx[k - 1]);
    }
  }

  lemma {:induction false} OneValue(a: multiset<int>, v: int)
    requires forall x | x in a :: x == v
    ensures a[v] == |a|
    decreases |a|
  {
    if v in a {
      OneValue(a - multiset{v}, v);
    } else {
      forall x ensures a[x] == 0 { assert x in a ==> x == v; }
      assert a == multiset{};
    }
  }

  lemma SameOneValue(a: multiset<int>, b: multiset<int>, v: int)
    requires |a| == |b| && (forall x | x in a :: x == v) && (forall x | x in b :: x == v)
    ensures a == b
  {
    OneValue(a, v);
    OneValue(b, v);
  }

  // when no head is below LONG_MAX, what is out is the numbers below it and what is left the others
  lemma OnlyMaxesLeft(nums: seq<int>, idx: seq<int>, out: seq<int>)
    requires SlicesSorted(nums) && Progress(nums, idx, out) && NoCandidate(nums, idx)
             && forall x | 0 <= x < NUMNUM :: nums[x] <= LONG_MAX
    ensures |out| + Maxes(nums) == NUMNUM
    ensures var rest := Remaining(nums, idx, NTHR);
            multiset(nums) == multiset(out) + rest && |rest| == Maxes(nums) && forall v | v in rest :: v == LONG_MAX
  {
    assert |nums| == NUMNUM;
    hide SlicesSorted, Taken, Remaining, Steps, Sorted;
    BagSplit(nums, idx, NTHR);
    assert nums[..NUMNUM] == nums;
    RemainingAre(nums, idx, NTHR);
    var rest := Remaining(nums, idx, NTHR);
    assert multiset(nums) == multiset(out) + rest;
    assert |multiset(nums)| == |nums| && |multiset(out)| == |out|;
    OneValue(rest, LONG_MAX);
    assert LONG_MAX !in out;
  }

  lemma LastUsedGoesOn(nums: seq<int>, idx: seq<int>, m: nat)
    requires SlicesSorted(nums) && |nums| == NUMNUM && IdxOk(idx) && LastUsed(nums, idx, m) && NoCandidate(nums, idx)
             && forall x | 0 <= x < NUMNUM :: nums[x] <= LONG_MAX
    ensures GoesOnAt(nums, m, idx[m])
  {
    assert |nums| == NUMNUM;
    hide SlicesSorted;
    forall y | 0 <= y < NUMNUM && nums[y] < LONG_MAX
      ensures nums[y] <= nums[idx[m] - 1] && (y >= (m + 1) * TNUM ==> nums[y] < nums[idx[m] - 1])
    {
      var i := y / TNUM;
      assert 0 <= i < NTHR && i * TNUM <= y < (i + 1) * TNUM;
      if idx[i] <= y { HeadSmallest(nums, i, idx[i], y); }
    }
  }

  // reading on behind slice m's last number below LONG_MAX brings up no new head
  lemma StillNoCandidate(nums: seq<int>, idx: seq<int>, m: nat, j: nat)
    requires SlicesSorted(nums) && IdxOk(idx) && m < NTHR && NoCandidate(nums, idx)
    ensures IdxLow(idx[m := idx[m] + j]) && NoCandidate(nums, idx[m := idx[m] + j])
  {
    assert |nums| == NUMNUM;
    hide SlicesSorted;
    if idx[m] + j < (m + 1) * TNUM { HeadSmallest(nums, m, idx[m], idx[m] + j); }
  }

  lemma NotBoth(nums: seq<int>, idx: seq<int>, m: nat)
    requires |nums| == NUMNUM && IdxLow(idx) && NoCandidate(nums, idx)
    ensures !Chosen(nums, idx, m)
  {
  }

  // ---- the merge ----

  // the inner loop of merge: the first slice with the smallest head, if some head is below LONG_MAX;
  // otherwise minidx keeps its value
  method SmallestHead(nums: array<int>, idx: array<int>, minidx0: nat) returns (found: bool, minidx: nat, num: int)
    requires nums.Length == NUMNUM && IdxLow(idx[..])
    ensures found ==> Chosen(nums[..], idx[..], minidx)
    ensures !found ==> NoCandidate(nums[..], idx[..]) && minidx == minidx0
  {
    num, found, minidx := LONG_MAX, false, minidx0;
    var i := 0;
    while i < NTHR
      invariant 0 <= i <= NTHR && num <= LONG_MAX && (found <==> num < LONG_MAX)
      invariant forall k | 0 <= k < i && idx[k] < (k + 1) * TNUM :: num <= nums[idx[k]]
      invariant found ==> minidx < i && idx[minidx] < (minidx + 1) * TNUM && num == nums[idx[minidx]]
      invariant found ==> forall k | 0 <= k < minidx && idx[k] < (k + 1) * TNUM :: num < nums[idx[k]]
      invariant !found ==> minidx == minidx0
    {
      assert i * TNUM <= idx[..][i];
      if idx[i] < (i + 1) * TNUM && nums[idx[i]] < num {
        num := nums[idx[i]];
        minidx := i;
        found := true;
      }
      i := i + 1;
    }
    assert forall k | 0 <= k < NTHR :: idx[..][k] == idx[k];
  }

  // what is out after j reads past the last candidate: idx0 and out0 are from before them
  ghost predicate ReadOn(nums: seq<int>, idx: seq<int>, out: seq<int>, idx0: seq<int>, out0: seq<int>, m: nat, j: nat) {
    && Progress(nums, idx0, out0) && InOrder(nums, idx0) && m < NTHR
    && (out0 != [] ==> LastUsed(nums, idx0, m)) && (j > 0 ==> NoCandidate(nums, idx0) && out0 != [])
    && idx0[m] + j <= NUMNUM && idx == idx0[m := idx0[m] + j] && out == out0 + nums[idx0[m]..idx0[m] + j]
  }

  // ok is false where the program reads minidx before it is set, or past the end of nums
  method Merge(nums: array<int>, snums: array<int>) returns (ok: bool)
    requires nums.Length == snums.Length == NUMNUM && nums != snums && SlicesSorted(nums[..])
    requires forall k | 0 <= k < NUMNUM :: nums[k] <= LONG_MAX
    modifies snums
    ensures ok <==> StaysInside(nums[..])
    ensures ok && Sorted(snums[..]) && multiset(snums[..]) == multiset(nums[..]) <==> MergesRight(nums[..])
    ensures MergesRight(nums[..]) ==> forall i, j | 0 <= i <= j < NUMNUM :: snums[i] <= snums[j]
  {
    hide SlicesSorted, Progress, Chosen, NoCandidate, Sorted, InOrder, LastUsed, ReadOn, StaysInside, MergesRight;
    ghost var s := nums[..];
    var idx := new int[NTHR](i => i * TNUM);
    var sidx := 0;
    var minidx: nat, known := 0, false;   // known: minidx has a value
    ghost var out: seq<int>, idx0, out0, j: nat := [], idx[..], [], 0;
    StartReading(s, idx[..]);
    while sidx < NUMNUM
      invariant 0 <= sidx <= NUMNUM && nums[..] == s && fresh(idx) && idx.Length == NTHR
      invariant |out| == sidx && forall k | 0 <= k < sidx :: snums[k] == out[k]
      invariant ReadOn(s, idx[..], out, idx0, out0, minidx, j)
      invariant known <==> out0 != []
    {
      ghost var was := idx[..];
      ReadOnIdx(s, was, out, idx0, out0, minidx, j);
      var found, num;
      ghost var m := minidx;
      found, minidx, num := SmallestHead(nums, idx, minidx);
      known := known || found;
      assert found ==> j == 0 by { if j > 0 { NotBoth(s, was, minidx); } }
      if !known || idx[minidx] >= NUMNUM {
        GetsStuck(s, was, out, idx0, out0, minidx, j);
        return false;
      }
      if found {
        Picks(s, was, out, idx0, out0, m, minidx);
        idx0, out0 := was[minidx := was[minidx] + 1], out + [s[was[minidx]]];
      } else {
        ReadsOn(s, was, out, idx0, out0, minidx, j);
        j := j + 1;
      }
      out := out + [s[was[minidx]]];
      snums[sidx] := nums[idx[minidx]];
      idx[minidx] := idx[minidx] + 1;
      assert idx[..] == was[minidx := was[minidx] + 1];
      sidx := sidx + 1;
    }
    assert snums[..] == out;
    GetsThrough(s, idx[..], out, idx0, out0, minidx, j);
    ok := true;
    SortedMeans(out);
  }

  lemma SortedMeans(s: seq<int>)
    ensures Sorted(s) <==> forall i, j | 0 <= i <= j < |s| :: s[i] <= s[j]
  {
  }

  lemma StartReading(nums: seq<int>, idx: seq<int>)
    requires |nums| == NUMNUM && |idx| == NTHR && forall i | 0 <= i < NTHR :: idx[i] == i * TNUM
    ensures ReadOn(nums, idx, [], idx, [], 0, 0)
  {
    NothingTaken(nums, idx, NTHR);
    hide Taken, Steps;
    assert nums[idx[0]..idx[0]] == [];
  }

  lemma ReadOnIdx(nums: seq<int>, idx: seq<int>, out: seq<int>, idx0: seq<int>, out0: seq<int>, m: nat, j: nat)
    requires SlicesSorted(nums) && ReadOn(nums, idx, out, idx0, out0, m, j)
    ensures |nums| == NUMNUM && IdxLow(idx) && IdxOk(idx0) && m < NTHR && idx0[m] + j == idx[m]
            && (j == 0 ==> idx == idx0 && out == out0)
    ensures j > 0 ==> NoCandidate(nums, idx)
  {
    assert |nums| == NUMNUM;
    hide SlicesSorted, NoCandidate, Taken, Steps, InOrder, LastUsed, Below, Sorted;
    if j > 0 { StillNoCandidate(nums, idx0, m, j); }
  }

  lemma Picks(nums: seq<int>, idx: seq<int>, out: seq<int>, idx0: seq<int>, out0: seq<int>, m0: nat, m: nat)
    requires SlicesSorted(nums) && ReadOn(nums, idx, out, idx0, out0, m0, 0) && IdxLow(idx) && Chosen(nums, idx, m)
    ensures m < NTHR && 0 <= idx[m] < NUMNUM
    ensures var idx', out' := idx[m := idx[m] + 1], out + [nums[idx[m]]]; ReadOn(nums, idx', out', idx', out', m, 0)
  {
    assert |nums| == NUMNUM;
    hide SlicesSorted, Taken, Steps, InOrder, LastUsed, Below, Sorted;
    assert nums[idx0[m0]..idx0[m0]] == [];
    assert idx == idx0 && out == out0;
    hide ReadOn;
    TakeChosen(nums, idx0, out0, m);
    TakeInOrder(nums, idx0, m);
    hide Progress;
    FreshRead(nums, idx[m := idx[m] + 1], out + [nums[idx[m]]], m);
  }

  lemma FreshRead(nums: seq<int>, idx: seq<int>, out: seq<int>, m: nat)
    requires Progress(nums, idx, out) && InOrder(nums, idx) && LastUsed(nums, idx, m)
    ensures ReadOn(nums, idx, out, idx, out, m, 0)
  {
    hide Taken, Steps, InOrder, Below, Sorted;
    assert nums[idx[m]..idx[m]] == [];
  }

  lemma ReadsOn(nums: seq<int>, idx: seq<int>, out: seq<int>, idx0: seq<int>, out0: seq<int>, m: nat, j: nat)
    requires SlicesSorted(nums) && ReadOn(nums, idx, out, idx0, out0, m, j) && out0 != [] && IdxLow(idx)
             && NoCandidate(nums, idx)
    requires idx[m] < NUMNUM
    ensures ReadOn(nums, idx[m := idx[m] + 1], out + [nums[idx[m]]], idx0, out0, m, j + 1)
  {
    assert |nums| == NUMNUM && IdxOk(idx0);
    hide SlicesSorted, NoCandidate, InOrder, LastUsed, Progress;
    assert j == 0 ==> idx == idx0;
    OneRead(nums, out0, idx0[m], j);
  }

  lemma OneRead(nums: seq<int>, out0: seq<int>, p: nat, j: nat)
    requires p + j < |nums|
    ensures out0 + nums[p..p + j] + [nums[p + j]] == out0 + nums[p..p + (j + 1)]
  {
    assert nums[p..p + (j + 1)] == nums[p..p + j] + [nums[p + j]];
    assert out0 + nums[p..p + j] + [nums[p + j]] == out0 + (nums[p..p + j] + [nums[p + j]]);
  }

  // no head was ever chosen, or the reads have come to the end of nums with outputs still missing
  lemma GetsStuck(nums: seq<int>, idx: seq<int>, out: seq<int>, idx0: seq<int>, out0: seq<int>, m: nat, j: nat)
    requires SlicesSorted(nums) && (forall x | 0 <= x < NUMNUM :: nums[x] <= LONG_MAX) && |out| < NUMNUM
    requires ReadOn(nums, idx, out, idx0, out0, m, j) && IdxLow(idx) && NoCandidate(nums, idx)
             && (out0 == [] || idx[m] >= NUMNUM)
    ensures !StaysInside(nums) && !MergesRight(nums)
  {
    assert |nums| == NUMNUM;
    hide SlicesSorted, Sorted, InOrder, Taken, Steps, Below;
    assert j == 0 ==> idx == idx0;
    hide NoCandidate;
    OnlyMaxesLeft(nums, idx0, out0);
    assert LONG_MAX in multiset(nums);
    hide StaysInside, MergesRight, GoesOnAt, Progress, LastUsed;
    forall m': nat, p': nat | GoesOnAt(nums, m', p') ensures p' + Maxes(nums) > NUMNUM {
      if out0 == [] {
        AllMaxes(nums, m', p');
      } else {
        LastUsedGoesOn(nums, idx0, m);
        GoesOnOnce(nums, m, idx0[m], m', p');
      }
    }
    LeavesIfPast(nums);
  }

  lemma FullValue(a: multiset<int>, v: int)
    requires a[v] == |a|
    ensures forall x | x in a :: x == v
  {
    var rest := a[v := 0];
    assert a == rest + multiset{v}[v := a[v]];
    assert |rest| == 0;
    forall x | x in a ensures x == v { assert x !in rest; }
  }

  lemma AllMaxes(nums: seq<int>, m: nat, p: nat)
    requires |nums| == NUMNUM == Maxes(nums)
    ensures !GoesOnAt(nums, m, p)
  {
    FullValue(multiset(nums), LONG_MAX);
    assert forall x | 0 <= x < |nums| :: nums[x] in multiset(nums);
  }

  lemma LeavesIfPast(nums: seq<int>)
    requires LONG_MAX in nums && forall m: nat, p: nat | GoesOnAt(nums, m, p) :: p + Maxes(nums) > NUMNUM
    ensures !StaysInside(nums) && !MergesRight(nums)
  {
    hide GoesOnAt, Maxes;
  }

  // the numbers read on behind idx0[m] fill the output
  lemma GetsThrough(nums: seq<int>, idx: seq<int>, out: seq<int>, idx0: seq<int>, out0: seq<int>, m: nat, j: nat)
    requires SlicesSorted(nums) && (forall x | 0 <= x < NUMNUM :: nums[x] <= LONG_MAX) && |out| == NUMNUM
    requires ReadOn(nums, idx, out, idx0, out0, m, j)
    ensures StaysInside(nums) && (Sorted(out) && multiset(out) == multiset(nums) <==> MergesRight(nums))
  {
    assert |nums| == NUMNUM && IdxOk(idx0) && |out0| + j == |out|;
    hide SlicesSorted, Sorted, InOrder, NoCandidate, LastUsed, Progress, StaysInside, MergesRight;
    if j == 0 {
      AllOut(nums, idx0, out0);
      assert out == out0;
      NoMaxes(nums);
    } else {
      ReadsThrough(nums, idx0, out0, m, j);
    }
  }

  lemma ReadsThrough(nums: seq<int>, idx: seq<int>, out: seq<int>, m: nat, j: nat)
    requires SlicesSorted(nums) && |nums| == NUMNUM && forall x | 0 <= x < NUMNUM :: nums[x] <= LONG_MAX
    requires Progress(nums, idx, out) && LastUsed(nums, idx, m) && NoCandidate(nums, idx)
    requires idx[m] + j <= NUMNUM && |out| + j == NUMNUM && j > 0
    ensures var all := out + nums[idx[m]..idx[m] + j];
            StaysInside(nums) && (Sorted(all) && multiset(all) == multiset(nums) <==> MergesRight(nums))
  {
    hide SlicesSorted, Sorted, InOrder, Taken, Steps, Below, NoCandidate, StaysInside, MergesRight, Remaining, Maxes,
         GoesOnAt;
    OnlyMaxesLeft(nums, idx, out);
    LastUsedGoesOn(nums, idx, m);
    var rest := Remaining(nums, idx, NTHR);
    hide LastUsed, Progress;
    assert |rest| == Maxes(nums) == j;
    ReadOnRight(nums, idx, out, idx[m], rest);
    GoesOnRight(nums, m, idx[m]);
  }

  lemma NoMaxes(nums: seq<int>)
    requires LONG_MAX !in nums
    ensures StaysInside(nums) && MergesRight(nums)
  {
  }

  lemma GoesOnRight(nums: seq<int>, m: nat, p: nat)
    requires SlicesSorted(nums) && GoesOnAt(nums, m, p) && p + Maxes(nums) <= NUMNUM && Maxes(nums) > 0
    ensures StaysInside(nums)
    ensures MergesRight(nums) <==> forall x | p <= x < p + Maxes(nums) :: nums[x] == LONG_MAX
  {
    assert |nums| == NUMNUM;
    hide SlicesSorted, GoesOnAt;
    assert LONG_MAX in multiset(nums);
    if MergesRight(nums) {
      var m': nat, p': nat :| GoesOnAt(nums, m', p') && p' + Maxes(nums) <= NUMNUM
        && forall x | p' <= x < p' + Maxes(nums) :: nums[x] == LONG_MAX;
      GoesOnOnce(nums, m, p, m', p');
    }
  }

  lemma AllOut(nums: seq<int>, idx: seq<int>, out: seq<int>)
    requires Progress(nums, idx, out) && |out| == NUMNUM
    ensures Sorted(out) && multiset(out) == multiset(nums) && LONG_MAX !in nums
  {
    hide Taken, Steps, Sorted;
    StepsBound(idx, NTHR);
    AllTaken(nums, idx, NTHR);
    assert nums[..NUMNUM] == nums;
    assert LONG_MAX in multiset(nums) <==> LONG_MAX in nums;
    assert LONG_MAX in multiset(out) <==> LONG_MAX in out;
  }

  // out0 and what is read behind p make a sorted permutation exactly if all of it equals LONG_MAX
  lemma ReadOnRight(nums: seq<int>, idx0: seq<int>, out0: seq<int>, p: nat, rest: multiset<int>)
    requires Progress(nums, idx0, out0) && p + |rest| <= NUMNUM && |rest| + |out0| == NUMNUM
    requires multiset(nums) == multiset(out0) + rest && forall v | v in rest :: v == LONG_MAX
    ensures var out := out0 + nums[p..p + |rest|];
            Sorted(out) && multiset(out) == multiset(nums) <==> forall x | p <= x < p + |rest| :: nums[x] == LONG_MAX
  {
    hide Taken, Steps;
    var tail := nums[p..p + |rest|];
    var out := out0 + tail;
    assert multiset(out) == multiset(out0) + multiset(tail);
    if forall x | p <= x < p + |rest| :: nums[x] == LONG_MAX {
      assert |multiset(tail)| == |tail|;
      SameOneValue(multiset(tail), rest, LONG_MAX);
    }
    if multiset(out) == multiset(nums) {
      CancelLeft(multiset(out0), multiset(tail), rest);
      forall x | p <= x < p + |rest| ensures nums[x] == LONG_MAX { assert tail[x - p] in multiset(tail); }
    }
  }

  lemma CancelLeft(a: multiset<int>, b: multiset<int>, c: multiset<int>)
    requires a + b == a + c
    ensures b == c
  {
    assert a + b - a == b && a + c - a == c;
  }

  // ---- with and without luck ----

  lemma Once(s: seq<int>, i: nat, v: int)
    requires i < |s| && s[i] == v && forall k | 0 <= k < |s| && k != i :: s[k] != v
    ensures multiset(s)[v] == 1
  {
    assert s == s[..i] + [v] + s[i + 1..];
    assert v !in s[..i] && v !in s[i + 1..];
  }

  // numbers in order, except that LONG_MAX stands at position k, the last of a slice
  function MaxAt(k: nat): (s: seq<int>)
    ensures |s| == NUMNUM
  {
    seq(NUMNUM, i => if i == k then LONG_MAX else i)
  }

  lemma MaxAtSorted(w: nat)
    requires w < NTHR
    ensures SlicesSorted(MaxAt((w + 1) * TNUM - 1)) && Maxes(MaxAt((w + 1) * TNUM - 1)) == 1
  {
    var k := (w + 1) * TNUM - 1;
    Once(MaxAt(k), k, LONG_MAX);
  }

  // one LONG_MAX at the very end: the stale index happens to point at it
  lemma LastOfAllWorks()
    ensures LONG_MAX in MaxAt(NUMNUM - 1) && SlicesSorted(MaxAt(NUMNUM - 1)) && MergesRight(MaxAt(NUMNUM - 1))
  {
    var nums := MaxAt(NUMNUM - 1);
    MaxAtSorted(NTHR - 1);
    assert nums[NUMNUM - 1] == LONG_MAX;
    assert GoesOnAt(nums, NTHR - 1, NUMNUM - 1);
  }

  // one LONG_MAX at the end of the first slice: the program reads past the end of nums
  lemma LastOfFirstFails()
    ensures SlicesSorted(MaxAt(TNUM - 1)) && !StaysInside(MaxAt(TNUM - 1)) && !MergesRight(MaxAt(TNUM - 1))
  {
    var nums := MaxAt(TNUM - 1);
    MaxAtSorted(0);
    assert nums[TNUM - 1] == LONG_MAX;
    assert GoesOnAt(nums, NTHR - 1, NUMNUM);
    forall m: nat, p: nat | GoesOnAt(nums, m, p)
      ensures p + Maxes(nums) > NUMNUM { GoesOnOnce(nums, m, p, NTHR - 1, NUMNUM); }
  }

  // ---- the threads ----

  datatype WorkerPc = NotStarted | Sorting | Arriving | Waiting | Gone

  datatype MainPc = Filling(i: nat) | Creating(i: nat) | MainArriving | MainWaiting | Merging

  // arrived and open are the barrier; input is auxiliary: nums as main filled it
  datatype State = State(nums: seq<int>, main: MainPc, workers: seq<WorkerPc>, arrived: nat, open: bool,
      input: seq<int>)

  // thread 0..NTHR is a worker, NTHR is main; v is the random number, or the slice heapsort leaves
  datatype Act = Worker(w: nat, slice: seq<int>) | Main(v: int)

  function Put(nums: seq<int>, w: nat, slice: seq<int>): seq<int>
    requires w < NTHR && |nums| == NUMNUM && |slice| == TNUM
  {
    nums[..w * TNUM] + slice + nums[(w + 1) * TNUM..]
  }

  // pthread_barrier_wait: the last to arrive opens the barrier
  function Arrive(s: State): State { s.(arrived := s.arrived + 1, open := s.arrived + 1 == NTHR + 1) }

  ghost predicate WorkerStep(s: State, w: nat, slice: seq<int>, s': State) {
    && w < NTHR && |s.workers| == NTHR && |s.nums| == NUMNUM
    && match s.workers[w]
       case NotStarted => false
       // heapsort moves the elements of its own slice about ...
       case Sorting =>
         || (|slice| == TNUM && multiset(slice) == multiset(Slice(s.nums, w))
           && s' == s.(nums := Put(s.nums, w, slice)))
         // ... and returns with the slice sorted
         || (Sorted(Slice(s.nums, w)) && s' == s.(workers := s.workers[w := Arriving]))
       case Arriving => s' == Arrive(s.(workers := s.workers[w := Waiting]))
       case Waiting => s.open && s' == s.(workers := s.workers[w := Gone])
       case Gone => false
  }

  ghost predicate MainStep(s: State, v: int, s': State) {
    match s.main
    case Filling(i) =>
      if i < NUMNUM then i < |s.nums| && s' == s.(nums := s.nums[i := v], main := Filling(i + 1))
      else s' == s.(main := Creating(0), input := s.nums)
    case Creating(i) =>
      if i < NTHR then i < |s.workers| && s' == s.(workers := s.workers[i := Sorting], main := Creating(i + 1))
      else s' == s.(main := MainArriving)
    case MainArriving => s' == Arrive(s.(main := MainWaiting))
    case MainWaiting => s.open && s' == s.(main := Merging)
    case Merging => s' == s      // merge only reads nums
  }

  ghost predicate Step(s: State, a: Act, s': State) {
    match a
    case Worker(w, slice) => WorkerStep(s, w, slice, s')
    case Main(v) => MainStep(s, v, s')
  }

  ghost predicate Init(s: State) {
    && |s.nums| == NUMNUM && s.main == Filling(0) && s.workers == seq(NTHR, _ => NotStarted) && s.arrived == 0
      && !s.open
  }

  predicate Arrived(w: WorkerPc) { w.Waiting? || w.Gone? }

  function CountArrived(ws: seq<WorkerPc>): nat {
    if ws == [] then 0 else (if Arrived(ws[0]) then 1 else 0) + CountArrived(ws[1..])
  }

  predicate Started(m: MainPc) { !m.Filling? }

  ghost predicate WorkerOk(s: State, w: nat)
    requires w < |s.workers| && w < NTHR && |s.nums| == NUMNUM
  {
    && (s.workers[w] != NotStarted ==> Started(s.main) && (s.main.Creating? ==> w < s.main.i))
    && (s.workers[w].Arriving? || Arrived(s.workers[w]) ==> Sorted(Slice(s.nums, w)))
    && (s.workers[w].Gone? ==> s.open)
  }

  ghost predicate Inv(s: State) {
    && |s.nums| == NUMNUM && |s.workers| == NTHR
    && (forall w: nat | w < NTHR :: WorkerOk(s, w))
    && s.arrived == CountArrived(s.workers) + (if s.main.MainWaiting? || s.main.Merging? then 1 else 0)
    && (s.open <==> s.arrived == NTHR + 1) && (s.main.Merging? ==> s.open)
    && (Started(s.main) ==> multiset(s.nums) == multiset(s.input) && |s.input| == NUMNUM)
  }

  lemma {:induction false} CountUpdate(ws: seq<WorkerPc>, w: nat, pc: WorkerPc)
    requires w < |ws|
    ensures CountArrived(ws[w := pc]) == CountArrived(ws) - (if Arrived(ws[w]) then 1 else 0)
            + (if Arrived(pc) then 1 else 0)
  {
    if w == 0 {
      assert ws[0 := pc][1..] == ws[1..];
    } else {
      assert ws[w := pc][1..] == ws[1..][w - 1 := pc];
      CountUpdate(ws[1..], w - 1, pc);
    }
  }

  lemma {:induction false} CountFull(ws: seq<WorkerPc>)
    ensures CountArrived(ws) <= |ws|
    ensures CountArrived(ws) == |ws| ==> forall w | 0 <= w < |ws| :: Arrived(ws[w])
  {
    if ws != [] {
      CountFull(ws[1..]);
      assert ws == [ws[0]] + ws[1..];
    }
  }

  lemma {:induction false} CountNone(ws: seq<WorkerPc>)
    requires forall w | 0 <= w < |ws| :: ws[w] == NotStarted
    ensures CountArrived(ws) == 0
  {
    if ws != [] { CountNone(ws[1..]); }
  }

  lemma InitInv(s: State)
    requires Init(s)
    ensures Inv(s)
  {
    CountNone(s.workers);
  }

  // rearranging one slice leaves the others and the whole bag as they were
  lemma PutKeeps(nums: seq<int>, w: nat, slice: seq<int>)
    requires w < NTHR && |nums| == NUMNUM && |slice| == TNUM && multiset(slice) == multiset(Slice(nums, w))
    ensures |Put(nums, w, slice)| == NUMNUM && multiset(Put(nums, w, slice)) == multiset(nums)
    ensures forall u: nat | u < NTHR && u != w :: Slice(Put(nums, w, slice), u) == Slice(nums, u)
  {
    var b, e := w * TNUM, (w + 1) * TNUM;
    assert nums == nums[..b] + Slice(nums, w) + nums[e..];
    var nums' := Put(nums, w, slice);
    forall u: nat | u < NTHR && u != w ensures Slice(nums', u) == Slice(nums, u) {
      forall k | 0 <= k < TNUM ensures Slice(nums', u)[k] == Slice(nums, u)[k] {
        assert Slice(nums', u)[k] == nums'[u * TNUM + k] && Slice(nums, u)[k] == nums[u * TNUM + k];
      }
    }
  }

  lemma WorkerInv(s: State, w: nat, slice: seq<int>, s': State)
    requires Inv(s) && WorkerStep(s, w, slice, s')
    ensures Inv(s')
  {
    hide Slice, Put, CountArrived, Sorted;
    assert WorkerOk(s, w);
    CountFull(s.workers);
    match s.workers[w] {
      case Sorting =>
        if s'.nums != s.nums { PutKeeps(s.nums, w, slice); }
        CountUpdate(s.workers, w, s'.workers[w]);
        assert s'.workers == s.workers || s'.workers == s.workers[w := Arriving];
      case Arriving => CountUpdate(s.workers, w, Waiting);
      case Waiting => CountUpdate(s.workers, w, Gone);
      case _ =>
    }
    forall u: nat | u < NTHR ensures WorkerOk(s', u) { assert WorkerOk(s, u); }
  }

  lemma MainInv(s: State, v: int, s': State)
    requires Inv(s) && MainStep(s, v, s')
    ensures Inv(s')
  {
    hide Slice, Put, CountArrived, Sorted;
    CountFull(s.workers);
    if s.main.Creating? && s.main.i < NTHR {
      assert WorkerOk(s, s.main.i);
      CountUpdate(s.workers, s.main.i, Sorting);
    }
    forall u: nat | u < NTHR ensures WorkerOk(s', u) { assert WorkerOk(s, u); }
  }

  lemma StepInv(s: State, a: Act, s': State)
    requires Inv(s) && Step(s, a, s')
    ensures Inv(s')
  {
    hide Inv, WorkerStep, MainStep;
    match a {
      case Worker(w, slice) => WorkerInv(s, w, slice, s');
      case Main(v) => MainInv(s, v, s');
    }
  }

  // merge starts only when all slices are sorted and every worker is past its last write, and
  // while it runs nums stays as it is
  lemma MergeIsSafe(s: State)
    requires Inv(s) && s.main.Merging?
    ensures SlicesSorted(s.nums) && multiset(s.nums) == multiset(s.input)
    ensures forall w | 0 <= w < NTHR :: s.workers[w].Waiting? || s.workers[w].Gone?
    ensures forall a, s' | Step(s, a, s') :: s'.nums == s.nums && s'.main.Merging?
  {
    hide Slice, Put, CountArrived, Sorted;
    CountFull(s.workers);
    forall w: nat | w < NTHR ensures Sorted(Slice(s.nums, w)) { assert WorkerOk(s, w); }
  }

  ghost predicate StepsTo(s: State, s': State) { exists a :: Step(s, a, s') }

  ghost predicate Run(trace: seq<State>) {
    |trace| > 0 && Init(trace[0]) && forall i | 0 <= i < |trace| - 1 :: StepsTo(trace[i], trace[i + 1])
  }

  lemma {:induction false} RunInv(trace: seq<State>, k: nat)
    requires Run(trace) && k < |trace|
    ensures Inv(trace[k])
  {
    hide Inv, Init, Step;
    if k == 0 {
      InitInv(trace[0]);
    } else {
      RunInv(trace, k - 1);
      assert StepsTo(trace[k - 1], trace[k - 1 + 1]);
      var a :| Step(trace[k - 1], a, trace[k]);
      StepInv(trace[k - 1], a, trace[k]);
    }
  }

  // ---- what main fills in ----

  ghost predicate Acted(trace: seq<State>, acts: seq<Act>) {
    |trace| == |acts| + 1 && Init(trace[0]) && forall i | 0 <= i < |acts| :: Step(trace[i], acts[i], trace[i + 1])
  }

  // the random numbers of main's steps
  function Drawn(acts: seq<Act>): seq<int> {
    if acts == [] then [] else Drawn(acts[..|acts| - 1]) + DrawnBy(acts[|acts| - 1])
  }

  function DrawnBy(a: Act): seq<int> { if a.Main? then [a.v] else [] }

  ghost predicate Filled(s: State, drawn: seq<int>) {
    if s.main.Filling? then |drawn| == s.main.i <= NUMNUM == |s.nums| && s.nums[..s.main.i] == drawn
    else |drawn| >= NUMNUM && s.input == drawn[..NUMNUM]
  }

  lemma FilledStep(s: State, a: Act, s': State, drawn: seq<int>)
    requires Inv(s) && Filled(s, drawn) && Step(s, a, s')
    ensures Filled(s', drawn + DrawnBy(a))
  {
    hide Slice, Put, CountArrived, Sorted;
    assert drawn + [] == drawn;
    match a {
      case Worker(w, slice) => assert WorkerOk(s, w);
      case Main(v) =>
        if s.main.Filling? && s.main.i < NUMNUM {
          assert s'.nums[..s.main.i + 1] == s.nums[..s.main.i] + [v];
        }
    }
  }

  // the array that is sorted and merged holds the first numbers main drew, in their order
  lemma {:induction false} FillsDrawn(trace: seq<State>, acts: seq<Act>)
    requires Acted(trace, acts)
    ensures Inv(trace[|acts|]) && Filled(trace[|acts|], Drawn(acts))
    decreases |acts|
  {
    hide Inv, Init, Step, Filled;
    var n := |acts| - 1;
    if n < 0 {
      InitInv(trace[0]);
      NothingDrawn(trace[0]);
    } else {
      assert trace[..n + 1][0] == trace[0] && trace[..n + 1][n] == trace[n];
      forall i | 0 <= i < n ensures Step(trace[..n + 1][i], acts[..n][i], trace[..n + 1][i + 1]) {
        assert Step(trace[i], acts[i], trace[i + 1]);
      }
      FillsDrawn(trace[..n + 1], acts[..n]);
      StepInv(trace[n], acts[n], trace[n + 1]);
      FilledStep(trace[n], acts[n], trace[n + 1], Drawn(acts[..n]));
    }
  }

  lemma NothingDrawn(s: State)
    requires Init(s)
    ensures Filled(s, [])
  {
  }

  // from the state in which main gets past the barrier, in any interleaving, merge puts the numbers
  // main had filled in into snums in order exactly if it fares well with LONG_MAX, as it does without
  method MergeAfterBarrier(ghost trace: seq<State>, nums: array<int>, snums: array<int>) returns (ok: bool)
    requires Run(trace) && trace[|trace| - 1].main.Merging?
    requires nums != snums && snums.Length == NUMNUM && nums[..] == trace[|trace| - 1].nums
    requires forall k | 0 <= k < nums.Length :: nums[k] <= LONG_MAX
    modifies snums
    ensures ok && Sorted(snums[..]) && multiset(snums[..]) == multiset(trace[|trace| - 1].input)
            <==> MergesRight(nums[..])
    ensures LONG_MAX !in trace[|trace| - 1].input ==> MergesRight(nums[..])
    ensures MergesRight(nums[..]) ==> forall i, j | 0 <= i <= j < NUMNUM :: snums[i] <= snums[j]
  {
    ghost var s := trace[|trace| - 1];
    RunInv(trace, |trace| - 1);
    MergeIsSafe(s);
    hide SlicesSorted, Run, Inv, Sorted;
    assert nums.Length == |nums[..]| == NUMNUM by { AllSlices(s.nums); }
    ok := Merge(nums, snums);
    assert multiset(nums[..]) == multiset(s.input);
    assert LONG_MAX in nums[..] ==> LONG_MAX in multiset(s.input);
  }

  lemma AllSlices(nums: seq<int>)
    requires SlicesSorted(nums)
    ensures |nums| == NUMNUM
  {
  }
}
