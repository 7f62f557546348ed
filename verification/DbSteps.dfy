/**
 Every step of DbProcesses keeps the invariant of DbAtomic and disturbs no other process.  The
 steps that only read, lock or seek come first: they move a program counter and must find what the
 next position relies on.  Then each kind of write: overwriting data, the four writes of a delete,
 taking a record off the free list, reusing it, appending, and linking the new record.  For each it
 is shown what it changes, that nobody else was relying on that, and that the lists the process
 lets go of are in order.  StepKeeps puts all of them together.
 */
module DbSteps {
  import opened Common
  import opened DbCodec
  import opened DbLayout
  import opened DbProcesses
  import opened DbAtomic

  // ---- every step keeps the invariant ----

  lemma MakeBase(s: State)
    requires |s.heads| == |s.lists| == NLISTS && forall l | 0 <= l < NLISTS :: Shape(s, l)
    requires Owned(s) && DataOk(s) && Extents(s)
    ensures Base(s)
  {
    hide Shape, Owned, DataOk, Extents;
  }

  // a list p lets go of is in order
  ghost predicate Released(s: State, s': State, p: nat) {
    && p in s.procs && p in s'.procs
    && forall l | 0 <= l < NLISTS && HoldsList(s.procs[p], l) && !HoldsList(s'.procs[p], l) ::
         Whole(s', l) && (l > 0 ==> Mapped(s', l, s'.m))
  }

  ghost predicate Good(s: State, s': State, p: nat) {
    match s'
    case State(_, _, _, _, _, procs, _, _, _) =>
      p in procs && Base(s') && Guar(s, s', p) && LocalAt(s', p, procs[p]) && Released(s, s', p)
  }

  // a step that lets go of no list
  ghost predicate Keeps(a: Proc, a': Proc) {
    (InChain(a) ==> InChain(a') && a'.c == a.c) && (HoldsFree(a) ==> HoldsFree(a'))
  }

  lemma MakeGood(s: State, s': State, p: nat, a': Proc)
    requires p in s'.procs && s'.procs[p] == a' && Base(s') && Guar(s, s', p) && LocalAt(s', p, a')
    requires Keeps(s.procs[p], a')
    ensures Good(s, s', p)
  {
    hide Hash, Base, Guar, LocalAt, Whole, Mapped;
    GuarProcs(s, s', p);
  }

  // a step of p moves the program counter and nothing else
  ghost predicate Quiet(s: State, s': State, p: nat) {
    p in s.procs && p in s'.procs && s' == s.(procs := s.procs[p := s'.procs[p]])
    && Carried(s'.procs[p]) == Carried(s.procs[p])
    && (Pending(s'.procs[p]) == Pending(s.procs[p]) || Pending(s'.procs[p]) == None)
  }

  lemma QuietOwned(s: State, s': State, p: nat)
    requires Owned(s) && Quiet(s, s', p)
    ensures Owned(s')
  {
    hide Hash, Carried, Pending;
  }

  lemma QuietData(s: State, s': State, p: nat)
    requires DataOk(s) && Extents(s) && Quiet(s, s', p)
    ensures DataOk(s') && Extents(s')
  {
    hide Hash, RecLen, Carried, Pending;
    assert Extents(s');
    hide Extents;
    forall y | y in s'.recs ensures HasData(s', y) { assert HasData(s, y); }
    forall q | q in s'.procs && Pending(s'.procs[q]).Some?
      ensures Pending(s'.procs[q]) == Pending(s.procs[q])
    {
    }
  }

  lemma QuietGuar(s: State, s': State, p: nat)
    requires Quiet(s, s', p)
    ensures Guar(s, s', p)
  {
    hide Hash, RecLen, Carried, Pending;
    forall l | 0 <= l < NLISTS ensures ListSame(s, s', l) && MapSame(s.m, s'.m, l) { }
    forall o | o in s.own ensures OwnSame(s, s', o) { }
  }

  lemma QuietKeeps(s: State, s': State, p: nat)
    requires Base(s) && Quiet(s, s', p)
    ensures Base(s') && Guar(s, s', p)
  {
    hide Hash, NoDup, Owns, Contents, RecLen, Owned, DataOk, Extents, Guar;
    forall l | 0 <= l < NLISTS ensures Shape(s', l) { assert Shape(s, l); }
    QuietOwned(s, s', p);
    QuietData(s, s', p);
    QuietGuar(s, s', p);
  }

  // what locks a step from a to a' can gain
  ghost predicate Gains(a: Proc, a': Proc) {
    && (InChain(a') ==> !a.Idle? && a'.c == a.c)
    && (HoldsFree(a') ==> HoldsFree(a) || a.DelLock? || a.FreeLock?)
    && (HoldsDat(a') ==> HoldsDat(a) || a.DatLock?)
    && (HoldsIdx(a') ==> HoldsIdx(a) || a.IdxLock?)
  }

  predicate IsQuiet(a: Proc) {
    a.Idle? || a.WantChain? || a.ReadHead? || a.Walk? || a.ReadData? || a.DelLock? || a.DelReadFree? || a.DelUnlock?
    || a.NewHead? || a.FreeLock? || a.FreeHead? || a.FreeWalk? || a.FreeUnlock? || a.AppHead? || a.DatLock?
    || a.DatSeek? || a.DatUnlock? || a.IdxLock? || a.IdxSeek? || a.IdxUnlock?
  }

  lemma QuietMemory(s: State, p: nat, a: Proc, input: Call)
    requires IsQuiet(a)
    ensures Effect(s, p, a, input).0 == s
  {
    hide Hash, SpecMap, SpecResult, RecLen, Blanked, Remove, BlankText, RecAtOff, HeadOf, ListAt, OnMissing, OnFound,
         AfterPtr, AfterFreePtr, SetList, WritePtr, Without;
  }

  // what a writing step leaves alone
  lemma WritingKeeps(s: State, p: nat, a: Proc, input: Call)
    requires !IsQuiet(a)
    ensures Effect(s, p, a, input).0.procs == s.procs && (!a.Unlock? ==> Effect(s, p, a, input).0.m == s.m)
  {
    hide Hash, SpecMap, SpecResult, RecLen, Blanked, Remove, BlankText, RecAtOff, HeadOf, ListAt, OnMissing, OnFound,
         AfterPtr, AfterFreePtr, SetList, WritePtr, Without;
    match a {
      case DelDat(c, at, o, r, i) =>
        ListKeeps(s.(dat := s.dat[r.datoff := BlankText(r)]), Chain(c), Without(ListAt(s, Chain(c)), i), o, Private(p));
      case DelFreePtr(c, at, o, r, i) => PtrKeeps(s, HeadLoc(0), o);
        ListKeeps(WritePtr(s, HeadLoc(0), o), 0, [o] + ListAt(s, 0), o, 0);
      case DelChainPtr(c, at, o, r, i) => PtrKeeps(s, at, r.ptr);
      case FreeTake(c, ptr, at, o, r, i) =>
        PtrKeeps(s, at, r.ptr);
        ListKeeps(WritePtr(s, at, r.ptr), 0, Without(ListAt(s, 0), i), o, Private(p));
      case PutHead(c, o) =>
        PtrKeeps(s, HeadLoc(Chain(c)), o);
        ListKeeps(WritePtr(s, HeadLoc(Chain(c)), o), Chain(c), [o] + ListAt(s, Chain(c)), o, Chain(c));
      case _ =>
    }
  }

  lemma PtrKeeps(s: State, at: Loc, v: nat)
    ensures WritePtr(s, at, v).m == s.m && WritePtr(s, at, v).procs == s.procs
  {
  }

  lemma ListKeeps(s: State, l: nat, path: seq<nat>, o: nat, owner: nat)
    ensures SetList(s, l, path, o, owner).m == s.m && SetList(s, l, path, o, owner).procs == s.procs
  {
  }

  lemma EffectProcs(s: State, p: nat, a: Proc, input: Call)
    ensures Effect(s, p, a, input).0.procs == s.procs
  {
    hide Effect, IsQuiet;
    if IsQuiet(a) { QuietMemory(s, p, a, input); } else { WritingKeeps(s, p, a, input); }
  }

  lemma EffectGainsSearch(s: State, p: nat, a: Proc, input: Call)
    requires Searching(a)
    ensures Gains(a, Effect(s, p, a, input).1)
  {
    hide Hash, SpecMap, SpecResult, RecLen, Blanked, Remove, BlankText, HeadOf, ListAt, SetList, WritePtr;
  }

  lemma EffectGainsStore(s: State, p: nat, a: Proc, input: Call)
    requires !Searching(a) && !OnFreeList(a)
    ensures Gains(a, Effect(s, p, a, input).1)
  {
    hide Hash, SpecMap, SpecResult, RecLen, Blanked, Remove, BlankText, HeadOf, ListAt, SetList, WritePtr, Without,
         RecAtOff, DatAtOff, DataOf, OnMissing, OnFound, AfterPtr, AfterFreePtr, Max;
  }

  lemma EffectGainsFree(s: State, p: nat, a: Proc, input: Call)
    requires OnFreeList(a)
    ensures Gains(a, Effect(s, p, a, input).1)
  {
    hide Hash, SpecMap, SpecResult, RecLen, Blanked, Remove, BlankText, HeadOf, ListAt, SetList, WritePtr, Without,
         RecAtOff, DatAtOff, DataOf, OnMissing, OnFound, AfterPtr, Max;
  }

  lemma EffectGains(s: State, p: nat, a: Proc, input: Call)
    ensures Gains(a, Effect(s, p, a, input).1)
  {
    hide Hash, Effect, Gains, Searching, OnFreeList;
    if Searching(a) { EffectGainsSearch(s, p, a, input); }
    else if OnFreeList(a) { EffectGainsFree(s, p, a, input); }
    else { EffectGainsStore(s, p, a, input); }
  }

  lemma StepGains(s: State, p: nat, input: Call)
    requires p in s.procs
    ensures Next(s, p, input).procs == s.procs[p := Effect(s, p, s.procs[p], input).1]
    ensures Gains(s.procs[p], Effect(s, p, s.procs[p], input).1)
  {
    hide Effect, Gains, Searching;
    EffectProcs(s, p, s.procs[p], input);
    EffectGains(s, p, s.procs[p], input);
  }

  // lock compatibility is kept: a process gains a lock only when no one stands in the way
  lemma LocksKept(s: State, p: nat, input: Call)
    requires Exclusive(s) && Enabled(s, p)
    ensures Exclusive(Next(s, p, input))
  {
    hide Hash, Next;
    var s' := Next(s, p, input);
    StepGains(s, p, input);
    var a, a' := s.procs[p], s'.procs[p];
    forall q | q in s.procs && q != p ensures Compatible(a', s.procs[q]) && Compatible(s.procs[q], a') {
      LocksCompatible(a, a', s.procs[q]) by { assert Compatible(a, s.procs[q]) && !Blocks(a, s.procs[q]); }
    }
  }

  lemma LocksCompatible(a: Proc, a': Proc, b: Proc)
    requires Compatible(a, b) && !Blocks(a, b) && Gains(a, a')
    ensures Compatible(a', b) && Compatible(b, a')
  {
    hide Hash;
  }

  lemma LocalIgnoresProcs(s: State, procs': map<nat, Proc>, p: nat, a: Proc)
    requires LocalAt(s, p, a) && (InChain(a) ==> Shape(s, Chain(a.c)))
    ensures LocalAt(s.(procs := procs'), p, a)
  {
    hide Hash, LocalAt, Shape;
    var s' := s.(procs := procs');
    if InChain(a) { ListSameRefl(s, s', Chain(a.c)); MapSameRefl(s.m, Chain(a.c)); }
    ListSameRefl(s, s', 0);
    LocalSame(s, s', p, a);
  }

  // ---- the reading, locking and seeking steps ----

  // the chain of a call in progress is linked and represents the map
  lemma ReadView(s: State, p: nat, c: Call)
    requires Inv(s) && p in s.procs && InChain(s.procs[p]) && s.procs[p].c == c && Fresh(s, c)
    ensures Whole(s, Chain(c)) && Mapped(s, Chain(c), s.m)
  {
    hide Hash, LocalAt, Base, Whole, Mapped;
    if !Writes(c) {
      forall q | q in s.procs ensures !HoldsList(s.procs[q], Chain(c)) {
        if q != p { assert Compatible(s.procs[p], s.procs[q]); }
      }
      assert Settled(s, Chain(c));
    }
  }

  // at the end of a chain without a match the key is not in the map
  lemma MissMeans(s: State, c: Call)
    requires Mapped(s, Chain(c), s.m) && Absent(s, c)
    ensures c.key !in s.m
  {
    hide Hash;
    assert c.key in s.m ==> OnPath(s.recs, ListAt(s, Chain(c)), c.key);
  }

  lemma HitMeans(s: State, c: Call, o: nat, r: Rec, i: nat)
    requires Mapped(s, Chain(c), s.m) && Hit(s, c, o, r, i)
    ensures c.key in s.m && r.datoff in s.dat && s.m[c.key] == s.dat[r.datoff]
  {
    hide Hash, Fresh;
    assert Carries(s.recs, s.dat, ListAt(s, Chain(c))[i], s.m);
  }

  lemma MissReady(s: State, p: nat, c: Call)
    requires Whole(s, Chain(c)) && Mapped(s, Chain(c), s.m) && Absent(s, c) && CallOk(c)
    ensures LocalAt(s, p, OnMissing(c))
  {
    hide Hash, Whole, CallOk;
    MissMeans(s, c);
    assert s.m - {c.key} == s.m;
  }

  lemma HitNext(s: State, p: nat, c: Call, at: Loc, o: nat, r: Rec, i: nat)
    requires Whole(s, Chain(c)) && Mapped(s, Chain(c), s.m) && Hit(s, c, o, r, i) && CallOk(c)
    requires AtPos(s, Chain(c), at, o, i)
    ensures LocalAt(s, p, OnFound(c, at, o, r, i))
  {
    hide Hash, Whole, Mapped, CallOk, Hit, AtPos;
    HitMeans(s, c, o, r, i);
  }

  // following a link: either the list ends or the next record is the one listed next
  lemma NextLink(s: State, l: nat, i: nat)
    requires Base(s) && l < NLISTS && Whole(s, l) && i <= |ListAt(s, l)|
    ensures var path := ListAt(s, l);
            var v := if i == 0 then HeadOf(s, l) else RecAtOff(s, path[i - 1]).ptr;
            && (i > 0 ==> path[i - 1] in s.recs)
            && (v == 0 <==> i == |path|) && (i < |path| ==> v == path[i] && path[i] in s.recs)
  {
    hide Hash, DataOk, Extents, NoDup, Contents;
    var path := ListAt(s, l);
    assert Shape(s, l);
    if i > 0 { assert s.recs[path[i - 1]].ptr == NextOf(path, i - 1); }
    if i < |path| { assert path[i] in s.recs && 0 < path[i]; }
  }

  lemma PtrNext(s: State, p: nat, c: Call, i: nat)
    requires Base(s) && Whole(s, Chain(c)) && Mapped(s, Chain(c), s.m) && CallOk(c)
    requires i <= |ListAt(s, Chain(c))| && Passed(s, c, i)
    ensures var path := ListAt(s, Chain(c));
            var at := LocOf(Chain(c), path, i);
            var v := if i == 0 then HeadOf(s, Chain(c)) else RecAtOff(s, path[i - 1]).ptr;
            LocalAt(s, p, AfterPtr(c, at, v, i))
  {
    hide Hash, Base, Whole, Mapped, CallOk;
    NextLink(s, Chain(c), i);
    if i == |ListAt(s, Chain(c))| { MissReady(s, p, c); }
  }

  lemma FreePtrNext(s: State, p: nat, c: Call, ptr: nat, i: nat)
    requires Base(s) && Whole(s, 0) && ReadyAt(s, c, ptr) && CallOk(c) && i <= |ListAt(s, 0)|
    ensures var path := ListAt(s, 0);
            var at := LocOf(0, path, i);
            var v := if i == 0 then HeadOf(s, 0) else RecAtOff(s, path[i - 1]).ptr;
            LocalAt(s, p, AfterFreePtr(c, ptr, at, v, i))
  {
    hide Hash, Base, Whole, ReadyAt, CallOk;
    NextLink(s, 0, i);
  }

  lemma WalkStep(s: State, p: nat, a: Proc, a': Proc)
    requires Inv(s) && p in s.procs && s.procs[p] == a && a.Walk? && a' == Effect(s, p, a, a.c).1
    ensures LocalAt(s, p, a')
  {
    hide Hash, Whole, Mapped, CallOk, Base, Exclusive, Settled;
    var c, o, i := a.c, a.o, a.i;
    assert LocalAt(s, p, a);
    ReadView(s, p, c);
    NextLink(s, Chain(c), i);
    var r := RecAtOff(s, o);
    if r.key == c.key {
      HitNext(s, p, c, a.at, o, r, i);
    } else {
      assert Passed(s, c, i + 1);
      PtrNext(s, p, c, i + 1);
    }
  }

  lemma FreeWalkStep(s: State, p: nat, a: Proc, a': Proc)
    requires Inv(s) && p in s.procs && s.procs[p] == a && a.FreeWalk? && a' == Effect(s, p, a, a.c).1
    ensures LocalAt(s, p, a')
  {
    hide Hash, Whole, ReadyAt, CallOk, Base, Exclusive, Settled;
    assert LocalAt(s, p, a);
    NextLink(s, 0, a.i);
    var r := RecAtOff(s, a.o);
    if !(|r.key| == |a.c.key| && r.datlen == |DataOf(a.c)| + 1) {
      FreePtrNext(s, p, a.c, a.ptr, a.i + 1);
    }
  }

  // the free list is in order when no one else holds it
  lemma FreeSettled(s: State, p: nat)
    requires Inv(s) && p in s.procs && !HoldsFree(s.procs[p])
    requires forall q | q in s.procs && q != p :: !HoldsFree(s.procs[q])
    ensures Whole(s, 0)
  {
    hide Hash, LocalAt, Base, Whole, Mapped;
    assert Settled(s, 0);
  }

  lemma ChainSettled(s: State, p: nat, c: Call)
    requires Inv(s) && Enabled(s, p) && s.procs[p] == WantChain(c)
    ensures Fresh(s, c)
  {
    hide Hash, LocalAt, Base, Whole, Mapped;
    if Writes(c) {
      forall q | q in s.procs ensures !HoldsList(s.procs[q], Chain(c)) {
        if q != p { assert !Blocks(s.procs[p], s.procs[q]); }
      }
      assert Settled(s, Chain(c));
    }
  }

  lemma FreeEnabled(s: State, p: nat)
    requires Enabled(s, p) && (s.procs[p].DelLock? || s.procs[p].FreeLock?)
    ensures forall q | q in s.procs && q != p :: !HoldsFree(s.procs[q])
  {
    forall q | q in s.procs && q != p ensures !HoldsFree(s.procs[q]) {
      assert !Blocks(s.procs[p], s.procs[q]);
    }
  }

  lemma QuietLocal(s: State, p: nat, input: Call)
    requires Inv(s) && Enabled(s, p) && IsQuiet(s.procs[p]) && CallOk(input)
    ensures LocalAt(s, p, Effect(s, p, s.procs[p], input).1)
  {
    hide Hash, Whole, Mapped, Base, Exclusive, Settled, CallOk, Blocks, Inv, Ready, Hit, Fresh, Bypassed, Absent,
         SpecMap, SpecResult, Written, Fits, Mine, Blanked;
    var a := s.procs[p];
    assert LocalAt(s, p, a) && Base(s) by { assert Inv(s); InvParts(s, p); }
    match a {
      case WantChain(c) => ChainSettled(s, p, c);
      case ReadHead(c) =>
        ReadView(s, p, c);
        PtrNext(s, p, c, 0);
      case Walk(c, at, o, i) => WalkStep(s, p, a, Effect(s, p, a, c).1);
      case ReadData(c, o, r, i) => FetchResult(s, p, c, o, r, i);
      case DelLock(c, at, o, r, i) => FreeEnabled(s, p); FreeSettled(s, p);
      case DelUnlock(c) => AfterDelete(s, p, c);
      case FreeLock(c, ptr) => FreeEnabled(s, p); FreeSettled(s, p);
      case FreeHead(c, ptr) => FreePtrNext(s, p, c, ptr, 0);
      case FreeWalk(c, ptr, at, o, i) => FreeWalkStep(s, p, a, Effect(s, p, a, c).1);
      case _ => if IsPlain(a) { PlainLocal(s, p, a, input); } else { AppendingLocal(s, p, a, input); }
    }
  }

  predicate IsPlain(a: Proc) {
    a.Idle? || a.DelReadFree? || a.NewHead? || a.FreeUnlock? || a.AppHead?
  }

  // positions whose next position needs no more than what is already known
  lemma PlainLocal(s: State, p: nat, a: Proc, input: Call)
    requires LocalAt(s, p, a) && CallOk(input) && IsPlain(a)
    ensures LocalAt(s, p, Effect(s, p, a, input).1)
  {
    hide Hash, Whole, Mapped, CallOk, Ready, Bypassed, Absent, SpecMap, SpecResult, Written, Fits, Mine, Blanked,
         RecAtOff, OnMissing, OnFound, AfterPtr, AfterFreePtr, SetList, WritePtr, Without, BlankText, RecLen, Remove,
         ListAt;
  }

  lemma AppendingLocal(s: State, p: nat, a: Proc, input: Call)
    requires LocalAt(s, p, a) && (a.DatLock? || a.DatSeek? || a.DatUnlock? || a.IdxLock? || a.IdxSeek? || a.IdxUnlock?)
    ensures LocalAt(s, p, Effect(s, p, a, input).1)
  {
    hide Hash, Whole, Mapped, CallOk, Ready, Bypassed, Absent, SpecMap, SpecResult, Written, Fits, Mine, Blanked,
         RecAtOff, OnMissing, OnFound, AfterPtr, AfterFreePtr, SetList, WritePtr, Without, BlankText, RecLen, Remove,
         ListAt;
  }

  lemma InvParts(s: State, p: nat)
    requires Inv(s) && p in s.procs
    ensures LocalAt(s, p, s.procs[p]) && Base(s)
  {
  }

  lemma FetchResult(s: State, p: nat, c: Call, o: nat, r: Rec, i: nat)
    requires Inv(s) && p in s.procs && s.procs[p] == ReadData(c, o, r, i) && c.Fetch? && Hit(s, c, o, r, i)
    ensures LocalAt(s, p, Unlock(c, Data(Some(DatAtOff(s, r.datoff)))))
  {
    hide Hash, Inv, Whole, Mapped;
    assert Fresh(s, c);
    ReadView(s, p, c);
    HitMeans(s, c, o, r, i);
  }

  lemma AfterDelete(s: State, p: nat, c: Call)
    requires LocalAt(s, p, DelUnlock(c))
    ensures LocalAt(s, p, if c.Store? then AppHead(c) else Unlock(c, Code(0)))
  {
    hide Hash, Whole, Mapped, Absent, CallOk;
  }

  lemma CarriesSearch(s: State, p: nat, a: Proc, input: Call)
    requires IsQuiet(a) && Searching(a)
    ensures var a' := Effect(s, p, a, input).1; Carried(a') == Carried(a) && Pending(a') == Pending(a)
  {
    hide Hash, SpecMap, SpecResult, RecLen, Blanked, Remove, BlankText, RecAtOff, HeadOf, ListAt, SetList, WritePtr,
         Without, DatAtOff, DataOf, AfterFreePtr, Max;
  }

  lemma CarriesStore(s: State, p: nat, a: Proc, input: Call)
    requires IsQuiet(a) && !Searching(a)
    ensures var a' := Effect(s, p, a, input).1; Carried(a') == Carried(a) && Pending(a') == Pending(a)
  {
    hide Hash, SpecMap, SpecResult, RecLen, Blanked, Remove, BlankText, RecAtOff, HeadOf, ListAt, SetList, WritePtr,
         Without, DatAtOff, DataOf, OnMissing, OnFound, AfterPtr, Max;
  }

  lemma QuietCarries(s: State, p: nat, a: Proc, input: Call)
    requires IsQuiet(a)
    ensures var a' := Effect(s, p, a, input).1; Carried(a') == Carried(a) && Pending(a') == Pending(a)
  {
    hide IsQuiet, Searching, Effect, Carried, Pending;
    if Searching(a) { CarriesSearch(s, p, a, input); } else { CarriesStore(s, p, a, input); }
  }

  lemma QuietStep(s: State, p: nat, input: Call)
    requires Inv(s) && Enabled(s, p) && IsQuiet(s.procs[p]) && CallOk(input)
    ensures Good(s, Next(s, p, input), p)
  {
    hide Hash, Inv, Base, Guar, LocalAt, CallOk, Mapped, Linked, Effect, IsQuiet, Carried, Pending, Blocks, Whole;
    var s' := Next(s, p, input);
    var a, a' := s.procs[p], Effect(s, p, s.procs[p], input).1;
    QuietLocal(s, p, input);
    QuietMemory(s, p, a, input);
    QuietCarries(s, p, a, input);
    assert Quiet(s, s', p);
    InvParts(s, p);
    QuietKeeps(s, s', p);
    if InChain(a') { BaseShape(s, Chain(a'.c)); }
    LocalIgnoresProcs(s, s'.procs, p, a');
    assert Released(s, s', p) by { QuietRelease(s, s', p); }
  }

  lemma QuietRelease(s: State, s': State, p: nat)
    requires Quiet(s, s', p) && IsQuiet(s.procs[p]) && LocalAt(s, p, s.procs[p])
    requires exists input :: s'.procs[p] == Effect(s, p, s.procs[p], input).1
    ensures Released(s, s', p)
  {
    hide Hash, Mapped, Linked, SpecMap, SpecResult, CallOk, Absent, Blanked, RecAtOff, SetList, WritePtr, Without,
         BlankText, RecLen, Remove, ListAt, Ready, Fresh, Hit, Bypassed, Mine, Fits, Written, Passed, AtPos;
    var a, a' := s.procs[p], s'.procs[p];
    assert HoldsFree(a) && !HoldsFree(a') ==> Whole(s, 0);
    assert InChain(a) ==> InChain(a') && a'.c == a.c;
  }

  // ---- the writing steps ----

  // p may change this record: it is new, or p's own, or on a list p holds
  ghost predicate Touchable(s: State, p: nat, x: nat) {
    p in s.procs && (x in s.own ==> s.own[x] == Private(p) || (s.own[x] < NLISTS && HoldsList(s.procs[p], s.own[x])))
  }

  ghost predicate Untouched(s: State, s': State, x: nat) {
    && x in s.recs && x in s.own && x in s'.own && s'.own[x] == s.own[x] && RecSame(s, s', x)
  }

  lemma GuarFrom(s: State, s': State, p: nat)
    requires Base(s) && p in s.procs && s'.procs == s.procs[p := if p in s'.procs then s'.procs[p] else Idle]
    requires |s'.lists| == |s.lists| && |s'.heads| == |s.heads| && s'.m == s.m
    requires forall l | 0 <= l < NLISTS && !HoldsList(s.procs[p], l) ::
               ListAt(s', l) == ListAt(s, l)
               && HeadOf(s', l) == HeadOf(s, l)
    requires forall x | x in s.recs && !Touchable(s, p, x) :: Untouched(s, s', x)
    requires forall q | q in s.procs && q != p && Pending(s.procs[q]).Some? ::
               var d := Pending(s.procs[q]).value; d in s.dat ==> d in s'.dat && s'.dat[d] == s.dat[d]
    requires !HoldsDat(s.procs[p]) ==> s'.datEnd == s.datEnd
    requires !HoldsIdx(s.procs[p]) ==> s'.idxEnd == s.idxEnd
    ensures Guar(s, s', p)
  {
    hide Hash, HoldsList, Pending, HoldsDat, HoldsIdx, NoDup, Contents, DataOk, Extents, RecSame;
    forall l | 0 <= l < NLISTS && !HoldsList(s.procs[p], l) ensures ListSame(s, s', l) && MapSame(s.m, s'.m, l) {
      assert Shape(s, l);
      var path := ListAt(s, l);
      forall i | 0 <= i < |path| ensures RecSame(s, s', path[i]) {
        assert path[i] in s.own && s.own[path[i]] == l;
        assert !Touchable(s, p, path[i]);
        assert Untouched(s, s', path[i]);
      }
    }
    forall o | o in s.own && s.own[o] >= NLISTS && s.own[o] != Private(p) ensures OwnSame(s, s', o) {
      assert !Touchable(s, p, o);
      assert Untouched(s, s', o);
    }
  }

  // a step that touches only records it may touch, and moves only lists that p holds
  lemma GuarOnly(s: State, s': State, p: nat, touched: set<nat>)
    requires Base(s) && p in s.procs && s'.procs == s.procs[p := if p in s'.procs then s'.procs[p] else Idle]
    requires |s'.lists| == |s.lists| && |s'.heads| == |s.heads| && s'.m == s.m
    requires forall l | 0 <= l < NLISTS && !HoldsList(s.procs[p], l) ::
               ListAt(s', l) == ListAt(s, l)
               && HeadOf(s', l) == HeadOf(s, l)
    requires forall x | x in touched && x in s.recs :: Touchable(s, p, x)
    requires forall x | x in s.recs && x !in touched :: RecSame(s, s', x)
    requires forall x | x in s.own && x !in touched :: x in s'.own && s'.own[x] == s.own[x]
    requires forall q | q in s.procs && q != p && Pending(s.procs[q]).Some? ::
               var d := Pending(s.procs[q]).value; d in s.dat ==> d in s'.dat && s'.dat[d] == s.dat[d]
    requires !HoldsDat(s.procs[p]) ==> s'.datEnd == s.datEnd
    requires !HoldsIdx(s.procs[p]) ==> s'.idxEnd == s.idxEnd
    ensures Guar(s, s', p)
  {
    hide Hash, HoldsList, Pending, HoldsDat, HoldsIdx, Shape, DataOk, Extents, RecSame, Touchable, Untouched, Guar,
         ListAt, HeadOf;
    OwnedKeys(s);
    forall x | x in s.recs && !Touchable(s, p, x) ensures Untouched(s, s', x) { UntouchedWhy(s, s', x); }
    GuarFrom(s, s', p);
  }

  lemma ShapeOther(s: State, s': State, l: nat, x: nat)
    requires Shape(s, l) && ListAt(s', l) == ListAt(s, l) && x !in ListAt(s, l)
    requires forall y | y in s.recs && y != x :: y in s'.recs && s'.recs[y].key == s.recs[y].key
    requires forall y | y in s.own && y != x :: y in s'.own && s'.own[y] == s.own[y]
    ensures Shape(s', l)
  {
    hide KeyFits;
    var path := ListAt(s, l);
    assert forall i | 0 <= i < |path| :: path[i] != x && path[i] in s.recs && path[i] in s.own;
  }

  // a record owned by someone else than list l is not on list l
  lemma NotOn(s: State, l: nat, x: nat)
    requires Shape(s, l) && x in s.own && s.own[x] != l
    ensures x !in ListAt(s, l)
  {
    hide Contents, NoDup;
  }

  // changing only keys' pointer fields keeps every list's shape
  lemma ShapePtr(s: State, s': State, l: nat)
    requires Shape(s, l) && ListAt(s', l) == ListAt(s, l) && s'.own == s.own
    requires forall y | y in s.recs :: y in s'.recs && s'.recs[y].key == s.recs[y].key
    ensures Shape(s', l)
  {
    hide KeyFits;
  }

  lemma ShapeRemove(s: State, s': State, l: nat, i: nat, owner: nat)
    requires Shape(s, l) && i < |ListAt(s, l)| && ListAt(s', l) == Remove(ListAt(s, l), i)
    requires s'.own == s.own[ListAt(s, l)[i] := owner]
    requires forall y | y in s.recs :: y in s'.recs && s'.recs[y].key == s.recs[y].key
    ensures Shape(s', l)
    ensures forall y | y in ListAt(s, l) && y != ListAt(s, l)[i] :: y in ListAt(s', l)
    ensures ListAt(s, l)[i] !in ListAt(s', l)
  {
    hide NoDup, Owns, Contents, Remove;
    var path := ListAt(s, l);
    NoDupRemove(path, i);
    OwnsRemove(s.own, l, path, i, owner);
    ContentsRemove(s.recs, s'.recs, l, path, i);
  }

  lemma ShapePush(s: State, s': State, l: nat, o: nat)
    requires Shape(s, l) && o !in ListAt(s, l) && ListAt(s', l) == [o] + ListAt(s, l)
    requires s'.own == s.own[o := l] && s'.recs.Keys == s.recs.Keys && o in s.recs
    requires forall y | y in s.recs :: s'.recs[y].key == s.recs[y].key
    requires KeyFits(s.recs[o].key, l)
    requires l > 0 ==>
             forall i | 0 <= i < |ListAt(s, l)| ::
               ListAt(s, l)[i] in s.recs
               && s.recs[ListAt(s, l)[i]].key != s.recs[o].key
    ensures Shape(s', l)
  {
    hide KeyFits;
    var path, path' := ListAt(s, l), ListAt(s', l);
    forall k | 0 < k < |path'| ensures path'[k] == path[k - 1] && path'[k] != o && path'[k] in s.recs { }
  }

  // ---- changes of a chain against the map ----

  // no record of path other than x keeps its data at d
  ghost predicate OnlyUser(recs: map<nat, Rec>, path: seq<nat>, x: nat, d: nat) {
    forall k | 0 <= k < |path| && path[k] != x :: path[k] in recs && recs[path[k]].datoff != d
  }

  lemma ChainMapOverwrite(recs: map<nat, Rec>, dat: map<nat, string>, path: seq<nat>, l: nat, m: map<string, string>,
      i: nat, t: string)
    requires ChainMap(recs, dat, path, l, m) && Contents(recs, l, path) && NoDup(path) && l > 0 && i < |path|
    requires OnlyUser(recs, path, path[i], recs[path[i]].datoff)
    ensures ChainMap(recs, dat[recs[path[i]].datoff := t], path, l, m[recs[path[i]].key := t])
  {
    hide Hash, KeyText;
    var r := recs[path[i]];
    var dat', m' := dat[r.datoff := t], m[r.key := t];
    forall k | 0 <= k < |path| ensures Carries(recs, dat', path[k], m') {
      assert Carries(recs, dat, path[k], m);
      if k != i { assert recs[path[k]].key != r.key; }
    }
    forall k | k in m' && Hash(k) + 1 == l ensures OnPath(recs, path, k) {
      assert OnPath(recs, path, k);
    }
  }

  lemma ChainMapRemove(recs: map<nat, Rec>, dat: map<nat, string>, path: seq<nat>, l: nat, m: map<string, string>,
      i: nat, t: string)
    requires ChainMap(recs, dat, path, l, m) && Contents(recs, l, path) && NoDup(path) && l > 0 && i < |path|
    requires OnlyUser(recs, path, path[i], recs[path[i]].datoff)
    ensures ChainMap(recs, dat[recs[path[i]].datoff := t], Remove(path, i), l, m - {recs[path[i]].key})
    ensures forall k | 0 <= k < |path| - 1 ::
              Remove(path, i)[k] in recs
              && recs[Remove(path, i)[k]].key != recs[path[i]].key
  {
    hide Hash, KeyText;
    var r, path' := recs[path[i]], Remove(path, i);
    var dat', m' := dat[r.datoff := t], m - {r.key};
    forall k | 0 <= k < |path'| ensures Carries(recs, dat', path'[k], m') && recs[path'[k]].key != r.key {
      RemoveAt(path, i, k);
      var k' := if k < i then k else k + 1;
      assert Carries(recs, dat, path[k'], m) && path[k'] != path[i];
      assert recs[path[k']].key != r.key;
    }
    forall k | k in m' && Hash(k) + 1 == l ensures OnPath(recs, path', k) {
      assert OnPath(recs, path, k);
      var j :| 0 <= j < |path| && path[j] in recs && recs[path[j]].key == k;
      RemoveAt(path, i, if j < i then j else j - 1);
    }
  }

  lemma ChainMapPush(recs: map<nat, Rec>, dat: map<nat, string>, path: seq<nat>, l: nat, m: map<string, string>, o: nat)
    requires o in recs && recs[o].datoff in dat && recs[o].key !in m
    requires ChainMap(recs, dat, path, l, m)
    ensures ChainMap(recs, dat, [o] + path, l, m[recs[o].key := dat[recs[o].datoff]])
  {
    hide Hash;
    var m' := m[recs[o].key := dat[recs[o].datoff]];
    var path' := [o] + path;
    forall k | 0 <= k < |path'| ensures Carries(recs, dat, path'[k], m') {
      if k > 0 { assert Carries(recs, dat, path[k - 1], m); }
    }
    forall k | k in m' && Hash(k) + 1 == l ensures OnPath(recs, path', k) {
      if k == recs[o].key {
        assert path'[0] == o;
      } else {
        assert OnPath(recs, path, k);
        var j :| 0 <= j < |path| && path[j] in recs && recs[path[j]].key == k;
        assert path'[j + 1] == path[j];
      }
    }
  }

  // the map does not see pointer fields
  lemma ChainMapPtr(recs: map<nat, Rec>, recs': map<nat, Rec>, dat: map<nat, string>, path: seq<nat>, l: nat,
      m: map<string, string>)
    requires ChainMap(recs, dat, path, l, m)
    requires forall x | x in recs :: x in recs' && recs'[x].key == recs[x].key && recs'[x].datoff == recs[x].datoff
    ensures ChainMap(recs', dat, path, l, m)
  {
    hide Hash;
    forall k | 0 <= k < |path| ensures Carries(recs', dat, path[k], m) { assert Carries(recs, dat, path[k], m); }
    forall k | k in m && Hash(k) + 1 == l ensures OnPath(recs', path, k) {
      assert OnPath(recs, path, k);
      var j :| 0 <= j < |path| && path[j] in recs && recs[path[j]].key == k;
    }
  }

  lemma ListOnlyUser(s: State, l: nat, i: nat)
    requires DataOk(s) && Shape(s, l) && i < |ListAt(s, l)|
    ensures ListAt(s, l)[i] in s.recs && OnlyUser(s.recs, ListAt(s, l), ListAt(s, l)[i], s.recs[ListAt(s, l)[i]].datoff)
  {
    hide KeyFits, NoDup, Owns;
    assert forall k | 0 <= k < |ListAt(s, l)| :: ListAt(s, l)[k] in s.recs;
  }

  // ---- overwriting data of the same length ----

  // in-place writes of the data record of x keep the file shape
  lemma DataWrite(s: State, s': State, p: nat, x: nat, t: string)
    requires Base(s) && x in s.recs && |t| + 1 == s.recs[x].datlen && p in s.procs
    requires s'.dat == s.dat[s.recs[x].datoff := t] && s'.recs == s.recs && s'.idxEnd == s.idxEnd
             && s'.datEnd == s.datEnd
    requires s'.procs.Keys == s.procs.Keys && forall q | q in s.procs && q != p :: s'.procs[q] == s.procs[q]
    requires Pending(s.procs[p]) == None && Pending(s'.procs[p]) == None
    ensures DataOk(s') && Extents(s')
    ensures forall y | y in s.recs && y != x :: RecSame(s, s', y)
    ensures forall q | q in s.procs && q != p && Pending(s.procs[q]).Some? ::
              var d := Pending(s.procs[q]).value; d in s'.dat && s'.dat[d] == s.dat[d]
  {
    hide Hash, RecLen, Pending, Owned, Shape;
    assert HasData(s, x);
    forall y | y in s.recs ensures HasData(s', y) { assert HasData(s, y); }
    forall y | y in s.recs && y != x ensures RecSame(s, s', y) { assert HasData(s, y); }
  }

  // record o, if any, changes hands; everything else stays where it is
  lemma OwnedFrom(s: State, s': State, p: nat, o: nat)
    requires Owned(s) && p in s.procs && p in s'.procs && s'.procs == s.procs[p := s'.procs[p]]
    requires s.own.Keys == s.recs.Keys && s'.own.Keys == s'.recs.Keys
    requires forall y | y in s'.recs && y != o :: y in s.recs && s'.own[y] == s.own[y]
    requires forall y | y in s.recs && y != o && s.own[y] < NLISTS
             && y in ListAt(s, s.own[y]) :: y in ListAt(s', s.own[y])
    requires Carried(s.procs[p]) == None || Carried(s.procs[p]) == Some(o)
    requires o in s'.recs ==> 0 < o && if s'.own[o] < NLISTS then o in ListAt(s', s'.own[o])
             else s'.own[o] == Private(p) && Carried(s'.procs[p]) == Some(o)
    ensures Owned(s')
  {
    hide Hash, Carried, ListAt;
    forall y | y in s'.recs
      ensures 0 < y && (s'.own[y] < NLISTS ==> y in ListAt(s', s'.own[y]))
      ensures s'.own[y] >= NLISTS ==> s'.own[y] - NLISTS in s'.procs && Carried(s'.procs[s'.own[y] - NLISTS]) == Some(y)
    {
    }
  }

  lemma OverwriteBase(s: State, s': State, p: nat, l: nat, o: nat, t: string)
    requires Base(s) && p in s.procs && l < NLISTS && HoldsList(s.procs[p], l) && o in ListAt(s, l) && o in s.recs
    requires |t| + 1 == s.recs[o].datlen && p in s'.procs
             && s' == s.(dat := s.dat[s.recs[o].datoff := t], procs := s.procs[p := s'.procs[p]])
    requires Pending(s.procs[p]) == None == Pending(s'.procs[p]) && Carried(s.procs[p]) == None
    ensures Base(s') && Guar(s, s', p)
  {
    hide Hash, Base, Extents, DataOk, Owned, Touchable, Guar, RecLen, RecSame, Carried, Pending, HoldsList, KeyFits;
    BaseShape(s, l);
    DataWrite(s, s', p, o, t);
    forall k | 0 <= k < NLISTS ensures Shape(s', k) { BaseShape(s, k); }
    OwnedAt(s, o);
    OnHeld(s, p, l, o);
    OwnedFrom(s, s', p, o);
    GuarOnly(s, s', p, {o});
    MakeBase(s');
  }

  lemma OverwriteLocal(s: State, s': State, p: nat, c: Call, o: nat, r: Rec, i: nat)
    requires Base(s) && LocalAt(s, p, Overwrite(c, o, r, i))
             && s' == s.(dat := s.dat[r.datoff := DataOf(c)], procs := s'.procs)
    ensures LocalAt(s', p, Unlock(c, Code(0)))
  {
    hide Hash, Base, Shape, Extents, DataOk, Owned, Linked, ChainMap, CallOk;
    var l := Chain(c);
    BaseShape(s, l);
    assert Contents(s.recs, l, ListAt(s, l)) && NoDup(ListAt(s, l)) by { assert Shape(s, l); }
    ListOnlyUser(s, l, i);
    ChainMapOverwrite(s.recs, s.dat, ListAt(s, l), l, s.m, i, DataOf(c));
  }

  lemma OverwriteKnows(s: State, p: nat, c: Call, o: nat, r: Rec, i: nat)
    requires LocalAt(s, p, Overwrite(c, o, r, i))
    ensures Writes(c) && o in s.recs && s.recs[o] == r && o in ListAt(s, Chain(c)) && |DataOf(c)| + 1 == r.datlen
  {
    hide Hash, CallOk, Fresh, SpecResult;
  }

  lemma OverwriteStep(s: State, s': State, p: nat, c: Call, o: nat, r: Rec, i: nat)
    requires Base(s) && p in s.procs && s.procs[p] == Overwrite(c, o, r, i) && LocalAt(s, p, Overwrite(c, o, r, i))
    requires s' == s.(dat := s.dat[r.datoff := DataOf(c)], procs := s.procs[p := Unlock(c, Code(0))])
    ensures Good(s, s', p)
  {
    hide Good, Hash, Base, Guar, LocalAt;
    OverwriteKnows(s, p, c, o, r, i);
    OverwriteLocal(s, s', p, c, o, r, i);
    OverwriteBase(s, s', p, Chain(c), o, DataOf(c));
    MakeGood(s, s', p, Unlock(c, Code(0)));
  }

  lemma OwnedAt(s: State, o: nat)
    requires Owned(s) && o in s.recs
    ensures 0 < o && o in s.own && s.own.Keys == s.recs.Keys && (s.own[o] < NLISTS ==> o in ListAt(s, s.own[o]))
  {
  }

  lemma OnHeld(s: State, p: nat, l: nat, o: nat)
    requires Shape(s, l) && l < NLISTS && o in ListAt(s, l) && p in s.procs && HoldsList(s.procs[p], l)
    ensures o in s.own && s.own[o] == l && Touchable(s, p, o)
  {
    hide Hash, NoDup, Contents;
  }

  lemma UntouchedWhy(s: State, s': State, x: nat)
    requires x in s.recs && x in s.own && x in s'.own && s'.own[x] == s.own[x] && RecSame(s, s', x)
    ensures Untouched(s, s', x)
  {
  }

  // ---- delete ----

  lemma DelDatLocal(s: State, s': State, p: nat, c: Call, at: Loc, o: nat, r: Rec, i: nat)
    requires Base(s) && p in s.procs && LocalAt(s, p, DelDat(c, at, o, r, i))
    requires s'.dat == s.dat[r.datoff := BlankText(r)] && s'.recs == s.recs && s'.heads == s.heads && s'.m == s.m
    requires s'.lists == s.lists[Chain(c) := Remove(s.lists[Chain(c)], i)] && s'.own == s.own[o := Private(p)]
    ensures LocalAt(s', p, DelReadFree(c, at, o, r, i))
  {
    hide Hash, ChainMap, Contents, NoDup, Owns, CallOk, Extents, DataOk, Owned, KeyText, SpecResult, SpecMap;
    var l := Chain(c);
    var path := s.lists[l];
    assert Shape(s, l);
    HitMeans(s, c, o, r, i);
    ListOnlyUser(s, l, i);
    ChainMapRemove(s.recs, s.dat, path, l, s.m, i, BlankText(r));
    LinkedRemove(s.recs, s.heads[l], path, i);
    assert r.ptr == NextOf(path, i);
    assert s'.lists[l] == Remove(path, i);
    assert i > 0 ==> Remove(path, i)[i - 1] == path[i - 1] && path[i - 1] in s.recs;
  }

  // taking record i off list l leaves every list well formed
  lemma TakenOffShapes(s: State, s': State, p: nat, l: nat, o: nat, i: nat)
    requires Base(s) && p in s.procs && l < NLISTS && i < |s.lists[l]| && s.lists[l][i] == o && o in s.recs
             && o in s.own && s.own[o] == l
    requires s'.recs == s.recs && s'.heads == s.heads
    requires s'.lists == s.lists[l := Remove(s.lists[l], i)] && s'.own == s.own[o := Private(p)]
    ensures forall k | 0 <= k < NLISTS :: Shape(s', k)
    ensures forall y | y in ListAt(s, l) && y != o :: y in ListAt(s', l)
  {
    hide Hash, Contents, NoDup, Owns, Extents, DataOk, Owned, RecLen, KeyText, Remove;
    BaseShape(s, l);
    ShapeRemove(s, s', l, i, Private(p));
    forall k | 0 <= k < NLISTS ensures Shape(s', k) {
      assert Shape(s, k);
      if k != l { NotOn(s, k, o); ShapeOther(s, s', k, o); }
    }
  }

  // record i of list l is taken off it, its data blanked, and becomes p's own
  ghost predicate BlankedOff(s: State, s': State, p: nat, l: nat, o: nat, i: nat) {
    && p in s.procs && p in s'.procs && s'.procs == s.procs[p := s'.procs[p]]
    && l < NLISTS && l < |s.lists| && i < |s.lists[l]| && s.lists[l][i] == o && o in s.recs && o in s.own
      && s.own[o] == l
    && s'.dat == s.dat[s.recs[o].datoff := BlankText(s.recs[o])] && s'.recs == s.recs && s'.heads == s.heads
      && s'.m == s.m
    && s'.lists == s.lists[l := Remove(s.lists[l], i)] && s'.own == s.own[o := Private(p)]
    && s'.idxEnd == s.idxEnd && s'.datEnd == s.datEnd
    && Pending(s.procs[p]) == None == Pending(s'.procs[p])
  }

  lemma DelDatOwned(s: State, s': State, p: nat, l: nat, o: nat, i: nat)
    requires Base(s) && BlankedOff(s, s', p, l, o, i) && Carried(s.procs[p]) == None && Carried(s'.procs[p]) == Some(o)
    ensures Owned(s') && forall k | 0 <= k < NLISTS :: Shape(s', k)
  {
    hide Hash, Base, Shape, Extents, DataOk, Owned, RecLen, BlankText, Carried, Pending, Remove;
    BaseShape(s, l);
    OwnedAt(s, o);
    TakenOffShapes(s, s', p, l, o, i);
    OwnedFrom(s, s', p, o);
  }

  lemma DelDatGuar(s: State, s': State, p: nat, l: nat, o: nat, i: nat)
    requires Base(s) && BlankedOff(s, s', p, l, o, i) && HoldsList(s.procs[p], l)
    ensures Guar(s, s', p) && DataOk(s') && Extents(s')
  {
    hide Hash, Base, Shape, Extents, DataOk, Owned, Touchable, Guar, RecLen, RecSame, BlankText, Carried, Pending,
         HoldsList, Remove;
    BaseShape(s, l);
    assert |BlankText(s.recs[o])| + 1 == s.recs[o].datlen by { HasDataAt(s, o); BlankTextLength(s.recs[o]); }
    DataWrite(s, s', p, o, BlankText(s.recs[o]));
    OnHeld(s, p, l, o);
    GuarOnly(s, s', p, {o});
  }

  // blanking the data of record i of list l and taking the record off the list
  lemma DelDatBase(s: State, s': State, p: nat, l: nat, o: nat, i: nat)
    requires Base(s) && BlankedOff(s, s', p, l, o, i) && HoldsList(s.procs[p], l)
    requires Carried(s.procs[p]) == None && Carried(s'.procs[p]) == Some(o)
    ensures Base(s') && Guar(s, s', p)
  {
    BaseShape(s, l);
    assert |s'.heads| == |s'.lists| == NLISTS;
    hide Hash, Base, Shape, Extents, DataOk, Owned, Guar, Carried, HoldsList, BlankedOff;
    DelDatOwned(s, s', p, l, o, i);
    DelDatGuar(s, s', p, l, o, i);
    MakeBase(s');
  }

  lemma BlankTextLength(r: Rec)
    requires 0 < r.datlen
    ensures |BlankText(r)| + 1 == r.datlen
  {
  }

  lemma DelDatStep(s: State, s': State, p: nat, c: Call, at: Loc, o: nat, r: Rec, i: nat)
    requires Base(s) && p in s.procs && s.procs[p] == DelDat(c, at, o, r, i) && LocalAt(s, p, DelDat(c, at, o, r, i))
    requires s' == s.(dat := s.dat[r.datoff := BlankText(r)],
             lists := s.lists[Chain(c) := Remove(s.lists[Chain(c)], i)],
                      own := s.own[o := Private(p)], procs := s.procs[p := DelReadFree(c, at, o, r, i)])
    ensures Good(s, s', p)
  {
    hide Good, Hash, LocalAt, Guar, Base, BlankText, Remove, Shape, Owned, DataOk, Extents, Touchable;
    DelDatLocal(s, s', p, c, at, o, r, i);
    DelDatKnows(s, p, c, at, o, r, i);
    BaseShape(s, Chain(c));
    OnHeld(s, p, Chain(c), o);
    DelDatBase(s, s', p, Chain(c), o, i);
    MakeGood(s, s', p, DelReadFree(c, at, o, r, i));
  }

  lemma DelDatKnows(s: State, p: nat, c: Call, at: Loc, o: nat, r: Rec, i: nat)
    requires LocalAt(s, p, DelDat(c, at, o, r, i))
    ensures Writes(c) && o in s.recs && s.recs[o] == r && i < |ListAt(s, Chain(c))| && ListAt(s, Chain(c))[i] == o
  {
    hide Hash, CallOk, Fresh, AtPos, Whole, SpecResult;
  }

  lemma HasDataAt(s: State, o: nat)
    requires DataOk(s) && o in s.recs
    ensures HasData(s, o)
  {
  }

  // rewriting a record that is on no list and keeps its length and data region
  lemma PrivateRec(s: State, s': State, p: nat, o: nat, r: Rec)
    requires Base(s) && p in s.procs && o in s.recs && o in s.own && s.own[o] == Private(p)
    requires Carried(s.procs[p]) == Some(o)
    requires s'.recs == s.recs[o := r] && s'.dat == s.dat && s'.idxEnd == s.idxEnd && s'.datEnd == s.datEnd
    requires s'.lists == s.lists && s'.own == s.own && s'.heads == s.heads && s'.m == s.m
    requires r.datoff == s.recs[o].datoff && r.datlen == s.recs[o].datlen && RecLen(r) == RecLen(s.recs[o])
    requires p in s'.procs && s'.procs == s.procs[p := s'.procs[p]] && Carried(s'.procs[p]) == Some(o)
    requires Pending(s.procs[p]) == None && Pending(s'.procs[p]) == None
    ensures Base(s') && Guar(s, s', p)
    ensures forall l | 0 <= l < NLISTS :: ListSame(s, s', l)
  {
    hide Hash, Linked, Contents, NoDup, Owns, Extents, DataOk, Owned, Untouched, Touchable, Guar, RecLen, KeyText,
         RecSame, HoldsList, ListSame;
    OwnedAt(s, o);
    forall k | 0 <= k < NLISTS ensures Shape(s', k) && ListSame(s, s', k) {
      assert Shape(s, k);
      NotOn(s, k, o);
      ShapeOther(s, s', k, o);
      ListSameOff(s, s', k, o);
    }
    RewrittenExtents(s, s', p, o, r);
    RewrittenData(s, s', p, o, r);
    OwnedFrom(s, s', p, o);
    TouchPrivate(s, p, o);
    forall x | x in s.recs && x != o ensures RecSame(s, s', x) { RecSameOff(s, s', o, x); }
    GuarOnly(s, s', p, {o});
  }

  lemma TouchPrivate(s: State, p: nat, o: nat)
    requires p in s.procs && o in s.own && s.own[o] == Private(p)
    ensures Touchable(s, p, o)
  {
  }

  lemma RecSameOff(s: State, s': State, o: nat, x: nat)
    requires s'.dat == s.dat && x != o && (forall y | y in s.recs && y != o :: y in s'.recs && s'.recs[y] == s.recs[y])
    requires x in s.recs
    ensures RecSame(s, s', x)
  {
  }

  lemma ListSameOff(s: State, s': State, l: nat, o: nat)
    requires Shape(s, l) && o !in ListAt(s, l) && s'.dat == s.dat
    requires |s'.lists| == |s.lists| && |s'.heads| == |s.heads| && ListAt(s', l) == ListAt(s, l)
             && HeadOf(s', l) == HeadOf(s, l)
    requires forall y | y in s.recs && y != o :: y in s'.recs && s'.recs[y] == s.recs[y]
    ensures ListSame(s, s', l)
  {
    hide KeyFits, NoDup, Owns;
    var path := ListAt(s, l);
    forall i | 0 <= i < |path| ensures RecSame(s, s', path[i]) {
      assert path[i] in s.recs && path[i] != o;
      RecSameOff(s, s', o, path[i]);
    }
  }

  // record o rewritten with the same length and the same data region
  ghost predicate Rewritten(s: State, s': State, p: nat, o: nat, r: Rec) {
    && p in s.procs && o in s.recs && s'.recs == s.recs[o := r] && s'.dat == s.dat && s'.idxEnd == s.idxEnd
      && s'.datEnd == s.datEnd
    && r.datoff == s.recs[o].datoff && r.datlen == s.recs[o].datlen && RecLen(r) == RecLen(s.recs[o])
    && p in s'.procs && s'.procs == s.procs[p := s'.procs[p]]
    && Pending(s.procs[p]) == None && Pending(s'.procs[p]) == None
  }

  lemma RewrittenExtents(s: State, s': State, p: nat, o: nat, r: Rec)
    requires Extents(s) && Rewritten(s, s', p, o, r)
    ensures Extents(s')
  {
    hide Hash, RecLen, Pending;
  }

  lemma RewrittenData(s: State, s': State, p: nat, o: nat, r: Rec)
    requires DataOk(s) && Rewritten(s, s', p, o, r)
    ensures DataOk(s')
  {
    hide Hash, RecLen, Pending;
    forall y | y in s'.recs ensures HasData(s', y) { assert HasData(s, y); }
  }

  lemma DelIdxStep(s: State, s': State, p: nat, c: Call, at: Loc, o: nat, r: Rec, i: nat, free: nat)
    requires Base(s) && p in s.procs && s.procs[p] == DelIdx(c, at, o, r, i, free)
             && LocalAt(s, p, DelIdx(c, at, o, r, i, free))
    requires s' == s.(recs := s.recs[o := Blanked(r, free)], procs := s.procs[p := DelFreePtr(c, at, o, r, i)])
    ensures Good(s, s', p)
  {
    hide Hash, Shape, CallOk, Guar, RecLen, KeyText, ListSame, Bypassed, Whole, Base, Spaces;
    var l := Chain(c);
    assert RecLen(Blanked(r, free)) == RecLen(r) by { BlankLen(r, free); }
    PrivateRec(s, s', p, o, Blanked(r, free));
    assert Shape(s, l) && |s.lists| == NLISTS by { assert Base(s); BaseShape(s, l); }
    MapSameRefl(s.m, l);
    BypassedSame(s, s', c, at, r, i);
    WholeSame(s, s', 0);
    ListSameParts(s, s', 0);
  }

  lemma MapSameRefl(m: map<string, string>, l: nat)
    ensures MapSame(m, m, l)
  {
  }

  lemma BlankLen(r: Rec, ptr: nat)
    ensures RecLen(Blanked(r, ptr)) == RecLen(r)
  {
  }

  // o, owned by p, joins the front of list l
  ghost predicate Pushed(s: State, s': State, p: nat, l: nat, o: nat) {
    && l < NLISTS && o in s.recs && o in s.own && s.own[o] == Private(p) && KeyFits(s.recs[o].key, l)
    && (l > 0 ==>
      forall k | 0 <= k < |ListAt(s, l)| ::
        ListAt(s, l)[k] in s.recs
        && s.recs[ListAt(s, l)[k]].key != s.recs[o].key)
    && l < |s.heads| && l < |s.lists| && s'.recs == s.recs && s'.dat == s.dat
    && s'.heads == s.heads[l := o] && s'.lists == s.lists[l := [o] + s.lists[l]] && s'.own == s.own[o := l]
  }

  lemma PushShape(s: State, s': State, p: nat, l: nat, o: nat, k: nat)
    requires Base(s) && Pushed(s, s', p, l, o) && k < NLISTS
    ensures Shape(s', k) && (k != l ==> ListSame(s, s', k))
  {
    hide Hash, NoDup, Owns, Contents, Extents, DataOk, Owned, KeyFits, RecSame, ListSame;
    BaseShape(s, k);
    NotOn(s, k, o);
    if k == l { ShapePush(s, s', k, o); } else { ShapeOther(s, s', k, o); ListSameOff(s, s', k, o); }
  }

  // pushing p's own record o on a list p holds, by writing the list's head
  lemma PushHead(s: State, s': State, p: nat, l: nat, o: nat)
    requires Base(s) && p in s.procs && l < NLISTS && HoldsList(s.procs[p], l) && Pushed(s, s', p, l, o)
    requires Carried(s.procs[p]) == Some(o) && Pending(s.procs[p]) == None
    requires s'.idxEnd == s.idxEnd && s'.datEnd == s.datEnd && s'.m == s.m
    requires p in s'.procs && s'.procs == s.procs[p := s'.procs[p]] && Carried(s'.procs[p]) == None
             && Pending(s'.procs[p]) == None
    ensures Base(s') && Guar(s, s', p)
    ensures forall k | 0 <= k < NLISTS && k != l :: ListSame(s, s', k)
  {
    hide Hash, Shape, Extents, DataOk, Owned, Touchable, Guar, RecSame, HoldsList, ListSame, KeyFits, Carried, Pending;
    OwnedAt(s, o);
    forall k | 0 <= k < NLISTS ensures Shape(s', k) && (k != l ==> ListSame(s, s', k)) { PushShape(s, s', p, l, o, k); }
    SameData(s, s', p);
    forall y | y in s.lists[l] ensures y in s'.lists[l] { assert s'.lists[l] == [o] + s.lists[l]; }
    assert s'.lists[l][0] == o;
    OwnedFrom(s, s', p, o);
    TouchPrivate(s, p, o);
    forall x | x in s.recs && x != o ensures RecSame(s, s', x) { RecSameOff(s, s', o, x); }
    GuarOnly(s, s', p, {o});
  }

  lemma SameData(s: State, s': State, p: nat)
    requires DataOk(s) && Extents(s) && p in s.procs
    requires s'.recs == s.recs && s'.dat == s.dat && s'.idxEnd == s.idxEnd && s'.datEnd == s.datEnd
    requires p in s'.procs && s'.procs == s.procs[p := s'.procs[p]] && Pending(s.procs[p]) == None
             && Pending(s'.procs[p]) == None
    ensures DataOk(s') && Extents(s')
  {
    hide Hash, RecLen, Pending;
    forall y | y in s'.recs ensures HasData(s', y) { assert HasData(s, y); }
  }

  lemma LinkedPush(recs: map<nat, Rec>, head: nat, path: seq<nat>, o: nat)
    requires Linked(recs, head, path) && o in recs && recs[o].ptr == head
    ensures Linked(recs, o, [o] + path)
  {
    var path' := [o] + path;
    forall k | 0 <= k < |path'| ensures path'[k] in recs && recs[path'[k]].ptr == NextOf(path', k) {
      if k > 0 { assert NextOf(path', k) == NextOf(path, k - 1); }
    }
  }

  lemma DelFreePtrStep(s: State, s': State, p: nat, c: Call, at: Loc, o: nat, r: Rec, i: nat)
    requires Base(s) && p in s.procs && s.procs[p] == DelFreePtr(c, at, o, r, i)
             && LocalAt(s, p, DelFreePtr(c, at, o, r, i))
    requires s' == s.(heads := s.heads[0 := o], lists := s.lists[0 := [o] + s.lists[0]], own := s.own[o := 0],
                      procs := s.procs[p := DelChainPtr(c, at, o, r, i)])
    ensures Good(s, s', p)
  {
    hide Hash, Shape, CallOk, Guar, RecLen, KeyText, KeyFits, ListSame, Bypassed, Linked, Base, MapSame, Spaces,
         Owned, DataOk, Extents;
    var l := Chain(c);
    BaseShape(s, l);
    BlankFits(r, HeadOf(s, 0));
    PushHead(s, s', p, 0, o);
    MapSameRefl(s.m, l);
    BypassedSame(s, s', c, at, r, i);
    LinkedPush(s.recs, s.heads[0], s.lists[0], o);
  }

  // writing a pointer field: no keys, data or lists are involved
  ghost predicate PtrWritten(s: State, s': State, l: nat, at: Loc, next: nat) {
    && l < |s.heads| && l < |s.lists|
    && match at
       case HeadLoc(k) => k == l && s'.heads == s.heads[l := next] && s'.recs == s.recs
       case RecLoc(a) =>
         a in s.recs && a in ListAt(s, l) && s'.heads == s.heads
         && s'.recs == s.recs[a := s.recs[a].(ptr := next)]
  }

  lemma PtrLen(r: Rec, v: nat)
    ensures RecLen(r.(ptr := v)) == RecLen(r)
  {
  }

  lemma PtrData(s: State, s': State, p: nat, l: nat, at: Loc, next: nat)
    requires DataOk(s) && Extents(s) && p in s.procs && PtrWritten(s, s', l, at, next)
    requires s'.dat == s.dat && s'.idxEnd == s.idxEnd && s'.datEnd == s.datEnd
    requires p in s'.procs && s'.procs == s.procs[p := s'.procs[p]] && Pending(s.procs[p]) == None
             && Pending(s'.procs[p]) == None
    ensures DataOk(s') && Extents(s') && s'.recs.Keys == s.recs.Keys
    ensures forall y | y in s.recs :: s'.recs[y].key == s.recs[y].key && s'.recs[y].datoff == s.recs[y].datoff
  {
    hide Hash, Pending, RecLen, DataOk, Extents;
    if at.RecLoc? {
      PtrLen(s.recs[at.o], next);
      RewrittenExtents(s, s', p, at.o, s.recs[at.o].(ptr := next));
      RewrittenData(s, s', p, at.o, s.recs[at.o].(ptr := next));
    } else {
      SameData(s, s', p);
    }
  }

  // a list other than the one whose pointer field was written
  lemma PtrOther(s: State, s': State, l: nat, k: nat, at: Loc, next: nat)
    requires Shape(s, l) && Shape(s, k) && k != l && k < |s.heads| == |s'.heads| && k < |s.lists| == |s'.lists|
    requires PtrWritten(s, s', l, at, next) && s'.dat == s.dat && ListAt(s', k) == ListAt(s, k)
    ensures ListSame(s, s', k)
  {
    hide Hash, KeyFits, NoDup, Contents, RecSame;
    var path := ListAt(s, k);
    assert Contents(s.recs, k, path);
    forall i | 0 <= i < |path| ensures RecSame(s, s', path[i]) {
      if at.RecLoc? { assert path[i] != at.o by { assert path[i] in s.own && s.own[path[i]] == k; } }
      PtrRecSame(s, s', l, at, next, path[i]);
    }
  }

  lemma PtrRecSame(s: State, s': State, l: nat, at: Loc, next: nat, x: nat)
    requires PtrWritten(s, s', l, at, next) && s'.dat == s.dat && (at.RecLoc? ==> at.o != x)
    ensures RecSame(s, s', x)
  {
  }

  lemma PtrAbsent(s: State, s': State, c: Call)
    requires Absent(s, c) && ListAt(s', Chain(c)) == ListAt(s, Chain(c)) && s'.recs.Keys == s.recs.Keys
    requires forall y | y in s.recs :: s'.recs[y].key == s.recs[y].key
    ensures Absent(s', c)
  {
    hide Hash;
    var path := ListAt(s, Chain(c));
    forall i | 0 <= i < |path| ensures path[i] in s'.recs && s'.recs[path[i]].key != c.key { }
  }

  lemma ViaWritten(s: State, s': State, l: nat, at: Loc, next: nat)
    requires WholeVia(s, l, at, next) && PtrWritten(s, s', l, at, next) && s'.lists == s.lists
    ensures Whole(s', l)
  {
    hide Linked;
  }

  lemma DelChainPtrLocal(s: State, s': State, p: nat, c: Call, at: Loc, o: nat, r: Rec, i: nat)
    requires LocalAt(s, p, DelChainPtr(c, at, o, r, i)) && Base(s) && PtrWritten(s, s', Chain(c), at, r.ptr)
    requires s' == s.(heads := s'.heads, recs := s'.recs, procs := s'.procs) && s'.recs.Keys == s.recs.Keys
    requires forall y | y in s.recs :: s'.recs[y].key == s.recs[y].key && s'.recs[y].datoff == s.recs[y].datoff
    requires Whole(s', 0)
    ensures LocalAt(s', p, DelUnlock(c))
  {
    hide Hash, Base, Shape, CallOk, RecLen, Absent, ChainMap, SpecResult, Whole, WholeVia, PtrWritten, Owned, DataOk,
         Extents;
    BaseShape(s, Chain(c));
    ViaWritten(s, s', Chain(c), at, r.ptr);
    ChainMapPtr(s.recs, s'.recs, s.dat, s.lists[Chain(c)], Chain(c), s.m - {c.key});
    PtrAbsent(s, s', c);
  }

  lemma DelChainPtrKnows(s: State, p: nat, c: Call, at: Loc, o: nat, r: Rec, i: nat)
    requires LocalAt(s, p, DelChainPtr(c, at, o, r, i))
    ensures Writes(c) && Whole(s, 0)
  {
    hide Hash, CallOk, Whole, WholeVia, Mapped, Absent, SpecResult;
  }

  lemma DelChainPtrStep(s: State, s': State, p: nat, c: Call, at: Loc, o: nat, r: Rec, i: nat)
    requires Base(s) && p in s.procs && s.procs[p] == DelChainPtr(c, at, o, r, i)
             && LocalAt(s, p, DelChainPtr(c, at, o, r, i))
    requires PtrWritten(s, s', Chain(c), at, r.ptr)
    requires s' == s.(heads := s'.heads, recs := s'.recs, procs := s.procs[p := DelUnlock(c)])
    ensures Good(s, s', p)
  {
    hide Good, Hash, Guar, Base, Shape, Owned, DataOk, Extents, LocalAt, Whole, ListSame, RecLen, PtrWritten;
    BaseShape(s, Chain(c));
    BaseShape(s, 0);
    DelChainPtrKnows(s, p, c, at, o, r, i);
    PtrWrittenSize(s, s', Chain(c), at, r.ptr);
    PtrData(s, s', p, Chain(c), at, r.ptr);
    PtrOther(s, s', Chain(c), 0, at, r.ptr);
    WholeSame(s, s', 0);
    DelChainPtrLocal(s, s', p, c, at, o, r, i);
    PtrBase(s, s', p, Chain(c), at, r.ptr);
    MakeGood(s, s', p, DelUnlock(c));
  }

  lemma PtrBase(s: State, s': State, p: nat, l: nat, at: Loc, next: nat)
    requires Base(s) && p in s.procs && l < NLISTS && HoldsList(s.procs[p], l) && PtrWritten(s, s', l, at, next)
    requires s'.dat == s.dat && s'.idxEnd == s.idxEnd && s'.datEnd == s.datEnd && s'.m == s.m && s'.lists == s.lists
             && s'.own == s.own
    requires p in s'.procs && s'.procs == s.procs[p := s'.procs[p]]
    requires Pending(s.procs[p]) == None && Pending(s'.procs[p]) == None && Carried(s.procs[p]) == None
    ensures Base(s') && Guar(s, s', p)
  {
    hide Hash, Contents, NoDup, Owns, Owned, DataOk, Extents, Guar, HoldsList, Carried, Pending, Touchable, Untouched,
         RecSame;
    BaseShape(s, l);
    PtrData(s, s', p, l, at, next);
    forall k | 0 <= k < NLISTS ensures Shape(s', k) { assert Shape(s, k); ShapePtr(s, s', k); }
    var o := if at.RecLoc? then at.o else 0;
    if at.RecLoc? { OnHeld(s, p, l, o); OwnedAt(s, o); } else { OwnedKeys(s); }
    OwnedFrom(s, s', p, o);
    forall x | x in s.recs && x != o ensures RecSame(s, s', x) { PtrRecSame(s, s', l, at, next, x); }
    GuarOnly(s, s', p, {o});
  }

  lemma OwnedKeys(s: State)
    requires Owned(s)
    ensures s.own.Keys == s.recs.Keys && 0 !in s.recs
  {
  }

  // ---- taking a record off the free list ----

  lemma FreeTakeShapes(s: State, s': State, p: nat, at: Loc, o: nat, r: Rec, i: nat)
    requires Base(s) && i < |ListAt(s, 0)| && ListAt(s, 0)[i] == o && o in s.own && s.own[o] == 0
    requires PtrWritten(s, s', 0, at, r.ptr) && s'.dat == s.dat
    requires s'.recs.Keys == s.recs.Keys && forall y | y in s.recs :: s'.recs[y].key == s.recs[y].key
    requires s'.lists == s.lists[0 := Remove(s.lists[0], i)] && s'.own == s.own[o := Private(p)]
    ensures forall k | 0 <= k < NLISTS :: Shape(s', k) && (k > 0 ==> ListSame(s, s', k))
    ensures forall y | y in ListAt(s, 0) && y != o :: y in ListAt(s', 0)
  {
    hide Hash, Contents, NoDup, Owns, Owned, DataOk, Extents, RecSame, Remove, ListSame;
    BaseShape(s, 0);
    assert s'.lists[0] == Remove(s.lists[0], i);
    ShapeRemove(s, s', 0, i, Private(p));
    forall k | 0 <= k < NLISTS ensures Shape(s', k) && (k > 0 ==> ListSame(s, s', k)) {
      assert Shape(s, k);
      if k > 0 { NotOn(s, k, o); ShapeOther(s, s', k, o); PtrOther(s, s', 0, k, at, r.ptr); }
    }
  }

  // record i of the free list is bypassed by its pointer field, and becomes p's own
  ghost predicate TakenOff(s: State, s': State, p: nat, at: Loc, o: nat, r: Rec, i: nat) {
    && p in s.procs && p in s'.procs && s'.procs == s.procs[p := s'.procs[p]]
    && 0 < |s.lists| && i < |ListAt(s, 0)| && ListAt(s, 0)[i] == o && o in s.own && s.own[o] == 0
    && PtrWritten(s, s', 0, at, r.ptr) && (at.RecLoc? ==> at.o != o)
    && s'.recs.Keys == s.recs.Keys && (forall y | y in s.recs :: s'.recs[y].key == s.recs[y].key)
    && s'.dat == s.dat && s'.idxEnd == s.idxEnd && s'.datEnd == s.datEnd && s'.m == s.m
    && s'.lists == s.lists[0 := Remove(s.lists[0], i)] && s'.own == s.own[o := Private(p)]
  }

  lemma FreeTakeOwned(s: State, s': State, p: nat, at: Loc, o: nat, r: Rec, i: nat)
    requires Base(s) && TakenOff(s, s', p, at, o, r, i)
    requires Carried(s'.procs[p]) == Some(o) && Carried(s.procs[p]) == None
    ensures Owned(s') && forall k | 0 <= k < NLISTS :: Shape(s', k) && (k > 0 ==> ListSame(s, s', k))
  {
    hide Hash, Base, Shape, Owned, DataOk, Extents, Carried, RecSame, Remove, ListSame, RecLen, PtrWritten;
    BaseShape(s, 0);
    assert o in s.recs by { OwnedKeys(s); }
    OwnedAt(s, o);
    FreeTakeShapes(s, s', p, at, o, r, i);
    OwnedFrom(s, s', p, o);
  }

  lemma FreeTakeGuar(s: State, s': State, p: nat, at: Loc, o: nat, r: Rec, i: nat)
    requires Base(s) && TakenOff(s, s', p, at, o, r, i) && HoldsList(s.procs[p], 0)
    ensures Guar(s, s', p)
  {
    hide Hash, Base, Shape, Owned, DataOk, Extents, Guar, HoldsList, Pending, Touchable, RecSame, Remove, ListSame,
         RecLen;
    BaseShape(s, 0);
    OnHeld(s, p, 0, o);
    var touched := {o, if at.RecLoc? then at.o else o};
    if at.RecLoc? { OnHeld(s, p, 0, at.o); }
    forall x | x in s.recs && x !in touched ensures RecSame(s, s', x) { PtrRecSame(s, s', 0, at, r.ptr, x); }
    PtrWrittenSize(s, s', 0, at, r.ptr);
    GuarOnly(s, s', p, touched);
  }

  lemma FreeTakeBase(s: State, s': State, p: nat, at: Loc, o: nat, r: Rec, i: nat)
    requires Base(s) && p in s.procs && HoldsList(s.procs[p], 0) && i < |ListAt(s, 0)| && ListAt(s, 0)[i] == o
    requires PtrWritten(s, s', 0, at, r.ptr) && (at.RecLoc? ==> at.o != o)
    requires s'.dat == s.dat && s'.idxEnd == s.idxEnd && s'.datEnd == s.datEnd && s'.m == s.m
    requires s'.lists == s.lists[0 := Remove(s.lists[0], i)] && s'.own == s.own[o := Private(p)]
    requires p in s'.procs && s'.procs == s.procs[p := s'.procs[p]] && Carried(s'.procs[p]) == Some(o)
    requires Pending(s.procs[p]) == None && Pending(s'.procs[p]) == None && Carried(s.procs[p]) == None
    ensures Base(s') && Guar(s, s', p)
    ensures forall k | 0 < k < NLISTS :: ListSame(s, s', k)
  {
    hide Hash, Base, Shape, Owned, DataOk, Extents, Guar, HoldsList, Carried, Pending, RecSame, Remove, ListSame,
         RecLen, PtrWritten;
    BaseShape(s, 0);
    PtrData(s, s', p, 0, at, r.ptr);
    OnHeld(s, p, 0, o);
    PtrWrittenSize(s, s', 0, at, r.ptr);
    assert TakenOff(s, s', p, at, o, r, i);
    hide TakenOff;
    FreeTakeOwned(s, s', p, at, o, r, i);
    FreeTakeGuar(s, s', p, at, o, r, i);
    MakeBase(s');
  }

  // the free list without record i, once the pointer field before it is written
  lemma FreeTakeLinked(s: State, s': State, at: Loc, o: nat, i: nat)
    requires Whole(s, 0) && Shape(s, 0) && AtPos(s, 0, at, o, i) && o in s.recs
             && PtrWritten(s, s', 0, at, s.recs[o].ptr)
    requires |s'.heads| == |s.heads| && s'.lists == s.lists[0 := Remove(s.lists[0], i)]
    ensures Whole(s', 0) && (at.RecLoc? ==> at.o != o) && o in s'.recs && s'.recs[o] == s.recs[o]
  {
    hide Contents, Owns, Remove, Linked;
    LinkedRemove(s.recs, s.heads[0], s.lists[0], i);
    LinkedAt(s.recs, s.heads[0], s.lists[0], i);
  }

  lemma FreeTakeLocal(s: State, s': State, p: nat, c: Call, ptr: nat, at: Loc, o: nat, r: Rec, i: nat)
    requires LocalAt(s, p, FreeTake(c, ptr, at, o, r, i)) && Shape(s, Chain(c)) && ListSame(s, s', Chain(c))
             && s'.m == s.m
    requires Whole(s', 0) && Mine(s', p, o, r)
    ensures LocalAt(s', p, FreeUnlock(c, ptr, true, o, r))
  {
    hide Hash, CallOk, ListSame, MapSame, Ready, Shape, Whole, Mine;
    MapSameRefl(s.m, Chain(c));
    ReadySame(s, s', c);
    ListSameParts(s, s', Chain(c));
  }

  lemma FreeTakeKnows(s: State, p: nat, c: Call, ptr: nat, at: Loc, o: nat, r: Rec, i: nat)
    requires LocalAt(s, p, FreeTake(c, ptr, at, o, r, i))
    ensures Whole(s, 0) && AtPos(s, 0, at, o, i) && o in s.recs && s.recs[o] == r
  {
    hide Hash, CallOk, ReadyAt, Whole, AtPos;
  }

  lemma FreeTakeStep(s: State, s': State, p: nat, c: Call, ptr: nat, at: Loc, o: nat, r: Rec, i: nat)
    requires Base(s) && p in s.procs && s.procs[p] == FreeTake(c, ptr, at, o, r, i)
             && LocalAt(s, p, FreeTake(c, ptr, at, o, r, i))
    requires PtrWritten(s, s', 0, at, r.ptr) && i < |s.lists[0]|
    requires s' == s.(heads := s'.heads, recs := s'.recs, lists := s.lists[0 := Remove(s.lists[0], i)],
             own := s.own[o := Private(p)],
                      procs := s.procs[p := FreeUnlock(c, ptr, true, o, r)])
    ensures Good(s, s', p)
  {
    hide Good, Hash, CallOk, Guar, RecLen, KeyText, ListSame, Base, MapSame, Ready, Shape, Owned, DataOk, Extents,
         Remove, Whole, PtrWritten, LocalAt;
    BaseShape(s, 0);
    BaseShape(s, Chain(c));
    FreeTakeKnows(s, p, c, ptr, at, o, r, i);
    PtrWrittenSize(s, s', 0, at, r.ptr);
    FreeTakeLinked(s, s', at, o, i);
    FreeTakeBase(s, s', p, at, o, r, i);
    FreeTakeLocal(s, s', p, c, ptr, at, o, r, i);
    MakeGood(s, s', p, FreeUnlock(c, ptr, true, o, r));
  }

  lemma PtrWrittenSize(s: State, s': State, l: nat, at: Loc, next: nat)
    requires PtrWritten(s, s', l, at, next)
    ensures |s'.heads| == |s.heads|
  {
  }

  lemma LinkedAt(recs: map<nat, Rec>, head: nat, path: seq<nat>, i: nat)
    requires Linked(recs, head, path) && i < |path| && NoDup(path)
    ensures recs[path[i]].ptr == NextOf(path, i)
    ensures i > 0 ==> path[i - 1] in recs && path[i - 1] != path[i]
  {
  }

  // ---- reusing it ----

  // new data of the right length for a record that p has to itself
  lemma PrivateDat(s: State, s': State, p: nat, o: nat, t: string, l: nat)
    requires Base(s) && p in s.procs && o in s.recs && o in s.own && s.own[o] == Private(p) && l < NLISTS
    requires |t| + 1 == s.recs[o].datlen && s'.dat == s.dat[s.recs[o].datoff := t]
    requires s'.recs == s.recs && s'.heads == s.heads && s'.lists == s.lists && s'.own == s.own && s'.m == s.m
    requires s'.idxEnd == s.idxEnd && s'.datEnd == s.datEnd
    requires p in s'.procs && s'.procs == s.procs[p := s'.procs[p]]
    requires Carried(s.procs[p]) == Some(o) == Carried(s'.procs[p])
             && Pending(s.procs[p]) == None == Pending(s'.procs[p])
    ensures Base(s') && Guar(s, s', p) && ListSame(s, s', l)
  {
    hide Hash, Guar, RecLen, KeyText, ListSame, Contents, NoDup, Owns, Owned, DataOk, Extents, Touchable, Untouched,
         RecSame, Carried, Pending, HoldsList;
    BaseShape(s, l);
    OwnedAt(s, o);
    DataWrite(s, s', p, o, t);
    forall k | 0 <= k < NLISTS ensures Shape(s', k) { assert Shape(s, k); }
    OwnedFrom(s, s', p, o);
    TouchPrivate(s, p, o);
    GuarOnly(s, s', p, {o});
    NotOn(s, l, o);
    DataListSame(s, s', l, o);
  }

  lemma ReuseDatStep(s: State, s': State, p: nat, c: Call, ptr: nat, o: nat, r: Rec)
    requires Base(s) && p in s.procs && s.procs[p] == ReuseDat(c, ptr, o, r) && LocalAt(s, p, ReuseDat(c, ptr, o, r))
    requires s' == s.(dat := s.dat[r.datoff := DataOf(c)], procs := s.procs[p := ReuseIdx(c, ptr, o, r)])
    ensures Good(s, s', p)
  {
    hide Good, Hash, CallOk, Guar, RecLen, KeyText, ListSame, Ready, Base, Shape;
    assert o in s.recs && s.recs[o] == r && o in s.own && s.own[o] == Private(p) && |DataOf(c)| + 1 == r.datlen;
    hide LocalAt;
    PrivateDat(s, s', p, o, DataOf(c), Chain(c));
    BaseShape(s, Chain(c));
    ReuseDatLocal(s, s', p, c, ptr, o, r);
    MakeGood(s, s', p, ReuseIdx(c, ptr, o, r));
  }

  lemma ReuseDatLocal(s: State, s': State, p: nat, c: Call, ptr: nat, o: nat, r: Rec)
    requires LocalAt(s, p, ReuseDat(c, ptr, o, r)) && ListSame(s, s', Chain(c)) && Shape(s, Chain(c))
    requires s'.recs == s.recs && s'.own == s.own && s'.dat == s.dat[r.datoff := DataOf(c)] && s'.m == s.m
    ensures LocalAt(s', p, ReuseIdx(c, ptr, o, r))
  {
    hide Hash, CallOk, ListSame, MapSame, Ready, Shape;
    MapSameRefl(s.m, Chain(c));
    ReadySame(s, s', c);
    ListSameParts(s, s', Chain(c));
  }

  lemma DataListSame(s: State, s': State, l: nat, o: nat)
    requires Shape(s, l) && o !in ListAt(s, l)
    requires s'.lists == s.lists && s'.heads == s.heads
    requires forall y | y in s.recs && y != o :: RecSame(s, s', y)
    ensures ListSame(s, s', l)
  {
    hide KeyFits, NoDup, Owns, RecSame;
    var path := ListAt(s, l);
    assert forall i | 0 <= i < |path| :: path[i] in s.recs && path[i] != o;
  }

  lemma ReuseIdxStep(s: State, s': State, p: nat, c: Call, ptr: nat, o: nat, r: Rec)
    requires Base(s) && p in s.procs && s.procs[p] == ReuseIdx(c, ptr, o, r) && LocalAt(s, p, ReuseIdx(c, ptr, o, r))
    requires s' == s.(recs := s.recs[o := Rec(ptr, c.key, r.datoff, |DataOf(c)| + 1)],
             procs := s.procs[p := PutHead(c, o)])
    ensures Good(s, s', p)
  {
    hide Good, Hash, Guar, RecLen, ListSame, Shape, Base, Owned, DataOk, Extents, LocalAt;
    var q := Rec(ptr, c.key, r.datoff, |DataOf(c)| + 1);
    BaseShape(s, Chain(c));
    ReuseIdxKnows(s, p, c, ptr, o, r);
    SameLen(r, q);
    PrivateRec(s, s', p, o, q);
    ReuseIdxLocal(s, s', p, c, ptr, o, r);
    MakeGood(s, s', p, PutHead(c, o));
  }

  lemma ReuseIdxKnows(s: State, p: nat, c: Call, ptr: nat, o: nat, r: Rec)
    requires LocalAt(s, p, ReuseIdx(c, ptr, o, r))
    ensures Mine(s, p, o, r) && Fits(c, r)
  {
    hide Hash, CallOk, ReadyAt, DbAtomic.Appended, Mine, Fits;
  }

  lemma ReuseIdxLocal(s: State, s': State, p: nat, c: Call, ptr: nat, o: nat, r: Rec)
    requires LocalAt(s, p, ReuseIdx(c, ptr, o, r)) && ListSame(s, s', Chain(c)) && Shape(s, Chain(c))
    requires s'.recs == s.recs[o := Rec(ptr, c.key, r.datoff, |DataOf(c)| + 1)] && s'.own == s.own && s'.dat == s.dat
             && s'.m == s.m
    ensures LocalAt(s', p, PutHead(c, o))
  {
    hide Hash, CallOk, ListSame, MapSame, Ready, Shape;
    MapSameRefl(s.m, Chain(c));
    ReadySame(s, s', c);
    ListSameParts(s, s', Chain(c));
  }

  // the reused record keeps its length because its key and its data keep theirs
  lemma SameLen(r: Rec, q: Rec)
    requires |q.key| == |r.key| && q.datoff == r.datoff && q.datlen == r.datlen
    ensures RecLen(q) == RecLen(r)
  {
  }

  // ---- appending ----

  lemma DatWriteStep(s: State, s': State, p: nat, c: Call, ptr: nat, d: nat)
    requires Base(s) && p in s.procs && s.procs[p] == DatWrite(c, ptr, d) && LocalAt(s, p, DatWrite(c, ptr, d))
    requires s' == s.(dat := s.dat[d := DataOf(c)], datEnd := Max(s.datEnd, d + |DataOf(c)| + 1),
             procs := s.procs[p := DatUnlock(c, ptr, d)])
    ensures Good(s, s', p)
  {
    hide Good, Hash, CallOk, Guar, RecLen, KeyText, ListSame, MapSame, Ready, Contents, NoDup, Owns, Owned, DataOk,
         Extents, Touchable, Untouched, RecSame, Linked;
    BaseShape(s, Chain(c));
    OwnedKeys(s);
    AppendData(s, s', p, DataOf(c));
    forall k | 0 <= k < NLISTS ensures Shape(s', k) { assert Shape(s, k); }
    OwnedFrom(s, s', p, 0);
    GuarOnly(s, s', p, {});
    ZeroOff(s, Chain(c));
    DataListSame(s, s', Chain(c), 0);
    MapSameRefl(s.m, Chain(c));
    ReadySame(s, s', c);
    MakeGood(s, s', p, DatUnlock(c, ptr, d));
  }

  lemma ZeroOff(s: State, l: nat)
    requires Shape(s, l) && 0 !in s.recs
    ensures 0 !in ListAt(s, l)
  {
    hide KeyFits, NoDup, Owns;
  }

  lemma AppendData(s: State, s': State, p: nat, t: string)
    requires DataOk(s) && Extents(s) && p in s.procs
    requires s'.dat == s.dat[s.datEnd := t] && s'.datEnd == s.datEnd + |t| + 1 && s'.recs == s.recs
             && s'.idxEnd == s.idxEnd
    requires p in s'.procs && s'.procs == s.procs[p := s'.procs[p]] && Pending(s.procs[p]) == None
             && Pending(s'.procs[p]) == Some(s.datEnd)
    ensures DataOk(s') && Extents(s')
    ensures forall y | y in s.recs :: RecSame(s, s', y)
    ensures forall q | q in s.procs && q != p && Pending(s.procs[q]).Some? ::
              var d := Pending(s.procs[q]).value; d in s.dat ==> d in s'.dat && s'.dat[d] == s.dat[d]
  {
    hide Hash, RecLen, Pending;
    assert s.datEnd !in s.dat;
    assert Extents(s');
    hide Extents;
    forall y | y in s.recs ensures HasData(s', y) && RecSame(s, s', y) { assert HasData(s, y); }
  }

  // a new index record at the end of the file, for the data record p has pending
  ghost predicate IdxAppended(s: State, s': State, p: nat, r: Rec) {
    && p in s.procs && Pending(s.procs[p]) == Some(r.datoff) && r.datoff in s.dat && |s.dat[r.datoff]| + 1 == r.datlen
    && s'.recs == s.recs[s.idxEnd := r] && s'.idxEnd == s.idxEnd + RecLen(r) && s'.dat == s.dat && s'.datEnd == s.datEnd
    && p in s'.procs && s'.procs == s.procs[p := s'.procs[p]] && Pending(s'.procs[p]) == None
  }

  lemma AppendIdxData(s: State, s': State, p: nat, r: Rec)
    requires DataOk(s) && IdxAppended(s, s', p, r) && s.idxEnd !in s.recs
    ensures DataOk(s')
  {
    hide Hash, Pending, RecLen;
    forall y | y in s'.recs ensures HasData(s', y) { if y != s.idxEnd { assert HasData(s, y); } }
    assert forall y | y in s.recs :: s.recs[y].datoff != r.datoff;
  }

  lemma AppendIdxExtents(s: State, s': State, p: nat, r: Rec)
    requires Extents(s) && IdxAppended(s, s', p, r)
    ensures 0 < s.idxEnd && s.idxEnd !in s.recs && Extents(s')
  {
    hide Hash, Pending;
    assert s.idxEnd !in s.recs;
    hide RecLen;
  }

  lemma IdxWriteShapes(s: State, s': State, p: nat, l: nat, r: Rec)
    requires Base(s) && IdxAppended(s, s', p, r) && s.idxEnd !in s.recs && l < NLISTS
    requires s'.own == s.own[s.idxEnd := Private(p)] && s'.lists == s.lists && s'.heads == s.heads
    ensures Shape(s', l) && ListSame(s, s', l)
  {
    hide Hash, Base, RecLen, ListSame, Shape, Owned, DataOk, Extents, RecSame;
    BaseShape(s, l);
    NewOff(s, l, s.idxEnd);
    ShapeOther(s, s', l, s.idxEnd);
    ListSameOff(s, s', l, s.idxEnd);
  }

  lemma IdxWriteGuar(s: State, s': State, p: nat, r: Rec)
    requires Base(s) && IdxAppended(s, s', p, r) && s.idxEnd !in s.recs && HoldsIdx(s.procs[p])
    requires s'.own == s.own[s.idxEnd := Private(p)] && s'.lists == s.lists && s'.heads == s.heads && s'.m == s.m
    ensures Guar(s, s', p)
  {
    hide Hash, Base, Guar, RecLen, Shape, Owned, DataOk, Extents, Touchable, RecSame, HoldsIdx, HoldsList, Pending;
    BaseShape(s, 0);
    var o := s.idxEnd;
    forall x | x in s.recs && x != o ensures RecSame(s, s', x) { RecSameOff(s, s', o, x); }
    GuarOnly(s, s', p, {o});
  }

  lemma IdxWriteBase(s: State, s': State, p: nat, l: nat, r: Rec)
    requires Base(s) && IdxAppended(s, s', p, r) && HoldsIdx(s.procs[p]) && l < NLISTS
    requires s'.own == s.own[s.idxEnd := Private(p)] && s'.lists == s.lists && s'.heads == s.heads && s'.m == s.m
    requires Carried(s.procs[p]) == None && Carried(s'.procs[p]) == Some(s.idxEnd)
    ensures Base(s') && Guar(s, s', p) && ListSame(s, s', l)
  {
    hide Hash, Base, Guar, RecLen, ListSame, Shape, Owned, DataOk, Extents, HoldsIdx, Carried, Pending;
    BaseShape(s, l);
    OwnedKeys(s);
    EndIsNew(s);
    AppendIdxExtents(s, s', p, r);
    AppendIdxData(s, s', p, r);
    forall k | 0 <= k < NLISTS ensures Shape(s', k) { IdxWriteShapes(s, s', p, k, r); }
    IdxWriteShapes(s, s', p, l, r);
    OwnedFrom(s, s', p, s.idxEnd);
    IdxWriteGuar(s, s', p, r);
    MakeBase(s');
  }

  lemma EndIsNew(s: State)
    requires Extents(s)
    ensures s.idxEnd !in s.recs && 0 < s.idxEnd
  {
  }

  lemma IdxWriteLocal(s: State, s': State, p: nat, c: Call, ptr: nat, d: nat, o: nat)
    requires LocalAt(s, p, IdxWrite(c, ptr, d, o)) && ListSame(s, s', Chain(c)) && Shape(s, Chain(c))
    requires o in s'.recs && s'.recs[o] == Rec(ptr, c.key, d, |DataOf(c)| + 1) && o in s'.own && s'.own[o] == Private(p)
    requires s'.dat == s.dat && s'.m == s.m
    ensures LocalAt(s', p, IdxUnlock(c, o))
  {
    hide Hash, CallOk, ListSame, MapSame, Ready, Shape;
    MapSameRefl(s.m, Chain(c));
    ReadySame(s, s', c);
    ListSameParts(s, s', Chain(c));
  }

  lemma IdxWriteStep(s: State, s': State, p: nat, c: Call, ptr: nat, d: nat, o: nat)
    requires Base(s) && p in s.procs && s.procs[p] == IdxWrite(c, ptr, d, o) && LocalAt(s, p, IdxWrite(c, ptr, d, o))
    requires var r := Rec(ptr, c.key, d, |DataOf(c)| + 1);
             s' == s.(recs := s.recs[o := r], idxEnd := Max(s.idxEnd, o + RecLen(r)), own := s.own[o := Private(p)],
                      procs := s.procs[p := IdxUnlock(c, o)])
    ensures Good(s, s', p)
  {
    hide Good, Hash, Guar, RecLen, ListSame, Shape, Base, LocalAt;
    var r := Rec(ptr, c.key, d, |DataOf(c)| + 1);
    IdxWriteKnows(s, p, c, ptr, d, o);
    assert IdxAppended(s, s', p, r);
    hide IdxAppended;
    BaseShape(s, Chain(c));
    IdxWriteBase(s, s', p, Chain(c), r);
    IdxWriteLocal(s, s', p, c, ptr, d, o);
    MakeGood(s, s', p, IdxUnlock(c, o));
  }

  lemma IdxWriteKnows(s: State, p: nat, c: Call, ptr: nat, d: nat, o: nat)
    requires LocalAt(s, p, IdxWrite(c, ptr, d, o))
    ensures o == s.idxEnd && d in s.dat && s.dat[d] == DataOf(c)
  {
    hide Hash, CallOk, ReadyAt;
  }

  lemma NewOff(s: State, l: nat, o: nat)
    requires Shape(s, l) && o !in s.recs
    ensures o !in ListAt(s, l)
  {
    hide KeyFits, NoDup, Owns;
  }

  // ---- the last write and the return ----

  lemma PutHeadLocal(s: State, s': State, p: nat, c: Call, o: nat)
    requires LocalAt(s, p, PutHead(c, o)) && |s.heads| == |s.lists| == NLISTS
    requires s'.heads == s.heads[Chain(c) := o] && s'.lists == s.lists[Chain(c) := [o] + s.lists[Chain(c)]]
    requires s'.recs == s.recs && s'.dat == s.dat && s'.m == s.m
    ensures LocalAt(s', p, Unlock(c, Code(0)))
  {
    hide Hash, KeyText, Linked, ChainMap, CallOk;
    var l := Chain(c);
    LinkedPush(s.recs, s.heads[l], s.lists[l], o);
    ChainMapPush(s.recs, s.dat, s.lists[l], l, s.m - {c.key}, o);
    assert (s.m - {c.key})[c.key := DataOf(c)] == s.m[c.key := DataOf(c)];
  }

  lemma PutHeadBase(s: State, s': State, p: nat, c: Call, o: nat)
    requires Base(s) && p in s.procs && s.procs[p] == PutHead(c, o) && CallOk(c) && Written(s, p, c, o)
    requires s' == s.(heads := s.heads[Chain(c) := o], lists := s.lists[Chain(c) := [o] + s.lists[Chain(c)]],
             own := s.own[o := Chain(c)],
                      procs := s.procs[p := Unlock(c, Code(0))])
    ensures Base(s') && Guar(s, s', p)
  {
    hide Hash, Guar, RecLen, KeyText, ListSame, Base, Whole, Mapped, Owned, DataOk, Extents, Shape;
    BaseShape(s, Chain(c));
    assert KeyFits(s.recs[o].key, Chain(c));
    PushHead(s, s', p, Chain(c), o);
  }

  lemma PutHeadStep(s: State, s': State, p: nat, c: Call, o: nat)
    requires Base(s) && p in s.procs && s.procs[p] == PutHead(c, o) && LocalAt(s, p, PutHead(c, o))
    requires s' == s.(heads := s.heads[Chain(c) := o], lists := s.lists[Chain(c) := [o] + s.lists[Chain(c)]],
             own := s.own[o := Chain(c)],
                      procs := s.procs[p := Unlock(c, Code(0))])
    ensures Good(s, s', p)
  {
    hide Good, Hash, Guar, RecLen, KeyText, ListSame, Base, Whole, Mapped, Owned, DataOk, Extents, Shape, Written;
    BaseShape(s, Chain(c));
    PutHeadLocal(s, s', p, c, o);
    PutHeadBase(s, s', p, c, o);
    MakeGood(s, s', p, Unlock(c, Code(0)));
  }

  lemma UnlockStep(s: State, s': State, p: nat, c: Call, res: Result)
    requires Base(s) && p in s.procs && s.procs[p] == Unlock(c, res) && LocalAt(s, p, s.procs[p])
    requires s' == s.(m := SpecMap(s.m, c), procs := s.procs[p := Idle])
    ensures Good(s, s', p)
  {
    hide Hash, RecLen, KeyText, Linked, ChainMap, Owned, DataOk, Extents, Contents, NoDup, Owns, SpecResult, MapSame,
         ListSame;
    BaseShape(s, Chain(c));
    OwnedIgnoresMap(s, s'.m);
    QuietOwned(s.(m := s'.m), s', p);
    QuietData(s.(m := s'.m), s', p);
    forall l | 0 <= l < NLISTS ensures Shape(s', l) { assert Shape(s, l); }
    assert Base(s');
    forall l | 0 <= l < NLISTS && !HoldsList(s.procs[p], l) ensures ListSame(s, s', l) && MapSame(s.m, s'.m, l) {
      ListSameRefl(s, s', l);
      SpecMapOther(s.m, c, l);
    }
    forall o | o in s.own ensures OwnSame(s, s', o) { }
    assert Guar(s, s', p);
  }

  lemma OwnedIgnoresMap(s: State, m': map<string, string>)
    requires Owned(s) && DataOk(s) && Extents(s)
    ensures var s' := s.(m := m'); Owned(s') && DataOk(s') && Extents(s')
  {
    hide Owned, DataOk, Extents;
    OwnedOnly(s, m');
    DataOnly(s, m');
    ExtentsOnly(s, m');
  }

  lemma OwnedOnly(s: State, m': map<string, string>)
    requires Owned(s)
    ensures Owned(s.(m := m'))
  {
    hide Carried;
    var s' := s.(m := m');
    forall y | y in s'.recs && s'.own[y] < NLISTS ensures y in ListAt(s', s'.own[y]) {
      assert ListAt(s', s'.own[y]) == ListAt(s, s.own[y]);
    }
  }

  lemma DataOnly(s: State, m': map<string, string>)
    requires DataOk(s)
    ensures DataOk(s.(m := m'))
  {
    hide Pending;
    var s' := s.(m := m');
    forall y | y in s'.recs ensures HasData(s', y) { assert HasData(s, y); }
  }

  lemma ExtentsOnly(s: State, m': map<string, string>)
    requires Extents(s)
    ensures Extents(s.(m := m'))
  {
    hide RecLen;
  }

  lemma ListSameRefl(s: State, s': State, l: nat)
    requires s'.recs == s.recs && s'.dat == s.dat && s'.lists == s.lists && s'.heads == s.heads
    ensures ListSame(s, s', l)
  {
  }

  // a call changes the map only at its own key, hence only on its own chain
  lemma SpecMapOther(m: map<string, string>, c: Call, l: nat)
    requires !(Chain(c) == l && Writes(c))
    ensures MapSame(m, SpecMap(m, c), l)
  {
    hide Hash;
  }

  // ---- all steps ----

  lemma AtWritten(s: State, s': State, l: nat, at: Loc, o: nat, i: nat, next: nat)
    requires Base(s) && l < NLISTS && i <= |ListAt(s, l)| && at == LocOf(l, ListAt(s, l), i)
    requires s'.heads == WritePtr(s, at, next).heads && s'.recs == WritePtr(s, at, next).recs
    ensures PtrWritten(s, s', l, at, next)
  {
    hide Hash, Contents, NoDup, Owned, DataOk, Extents;
    BaseShape(s, l);
    if i > 0 {
      assert ListAt(s, l)[i - 1] in s.own;
      OwnedMember(s, ListAt(s, l)[i - 1]);
    }
  }

  lemma OwnedMember(s: State, x: nat)
    requires Owned(s) && x in s.own
    ensures x in s.recs
  {
  }

  lemma OverwriteGood(s: State, p: nat, input: Call, c: Call, o: nat, r: Rec, i: nat)
    requires Base(s) && p in s.procs && s.procs[p] == Overwrite(c, o, r, i) && LocalAt(s, p, s.procs[p])
    ensures Good(s, Next(s, p, input), p)
  {
    hide Hash, Base, Good, RecLen, Ready, Mapped, Whole, Fresh, Absent, SpecResult, SpecMap, CallOk, Passed, Written,
         Mine, Fits, Remove, WholeVia;
    var s' := Next(s, p, input);
    BaseShape(s, 0);
    BaseShape(s, Chain(c));
    OverwriteStep(s, s', p, c, o, r, i);
  }

  lemma DelDatGood(s: State, p: nat, input: Call, c: Call, at: Loc, o: nat, r: Rec, i: nat)
    requires Base(s) && p in s.procs && s.procs[p] == DelDat(c, at, o, r, i) && LocalAt(s, p, s.procs[p])
    ensures Good(s, Next(s, p, input), p)
  {
    hide Hash, Base, Good, RecLen, Ready, Mapped, Whole, Fresh, Absent, SpecResult, SpecMap, CallOk, Passed, Written,
         Mine, Fits, Remove, WholeVia;
    var s' := Next(s, p, input);
    BaseShape(s, 0);
    BaseShape(s, Chain(c));
    DelDatStep(s, s', p, c, at, o, r, i);
  }

  lemma DelIdxGood(s: State, p: nat, input: Call, c: Call, at: Loc, o: nat, r: Rec, i: nat, free: nat)
    requires Base(s) && p in s.procs && s.procs[p] == DelIdx(c, at, o, r, i, free) && LocalAt(s, p, s.procs[p])
    ensures Good(s, Next(s, p, input), p)
  {
    hide Hash, Base, Good, RecLen, Ready, Mapped, Whole, Fresh, Absent, SpecResult, SpecMap, CallOk, Passed, Written,
         Mine, Fits, Remove, WholeVia;
    var s' := Next(s, p, input);
    BaseShape(s, 0);
    BaseShape(s, Chain(c));
    DelIdxStep(s, s', p, c, at, o, r, i, free);
  }

  lemma DelFreePtrGood(s: State, p: nat, input: Call, c: Call, at: Loc, o: nat, r: Rec, i: nat)
    requires Base(s) && p in s.procs && s.procs[p] == DelFreePtr(c, at, o, r, i) && LocalAt(s, p, s.procs[p])
    ensures Good(s, Next(s, p, input), p)
  {
    hide Hash, Base, Good, RecLen, Ready, Mapped, Whole, Fresh, Absent, SpecResult, SpecMap, CallOk, Passed, Written,
         Mine, Fits, Remove, WholeVia;
    var s' := Next(s, p, input);
    BaseShape(s, 0);
    BaseShape(s, Chain(c));
    DelFreePtrStep(s, s', p, c, at, o, r, i);
  }

  lemma DelChainPtrGood(s: State, p: nat, input: Call, c: Call, at: Loc, o: nat, r: Rec, i: nat)
    requires Base(s) && p in s.procs && s.procs[p] == DelChainPtr(c, at, o, r, i) && LocalAt(s, p, s.procs[p])
    ensures Good(s, Next(s, p, input), p)
  {
    hide Hash, Base, Good, RecLen, Ready, Mapped, Whole, Fresh, Absent, SpecResult, SpecMap, CallOk, Passed, Written,
         Mine, Fits, Remove, WholeVia;
    var s' := Next(s, p, input);
    BaseShape(s, 0);
    BaseShape(s, Chain(c));
    AtWritten(s, s', Chain(c), at, o, i, r.ptr);
    DelChainPtrStep(s, s', p, c, at, o, r, i);
  }

  lemma FreeTakeGood(s: State, p: nat, input: Call, c: Call, ptr: nat, at: Loc, o: nat, r: Rec, i: nat)
    requires Base(s) && p in s.procs && s.procs[p] == FreeTake(c, ptr, at, o, r, i) && LocalAt(s, p, s.procs[p])
    ensures Good(s, Next(s, p, input), p)
  {
    hide Hash, Base, Good, RecLen, Ready, Mapped, Whole, Fresh, Absent, SpecResult, SpecMap, CallOk, Passed, Written,
         Mine, Fits, Remove, WholeVia;
    var s' := Next(s, p, input);
    BaseShape(s, 0);
    BaseShape(s, Chain(c));
    AtWritten(s, s', 0, at, o, i, r.ptr);
    FreeTakeStep(s, s', p, c, ptr, at, o, r, i);
  }

  lemma ReuseDatGood(s: State, p: nat, input: Call, c: Call, ptr: nat, o: nat, r: Rec)
    requires Base(s) && p in s.procs && s.procs[p] == ReuseDat(c, ptr, o, r) && LocalAt(s, p, s.procs[p])
    ensures Good(s, Next(s, p, input), p)
  {
    hide Hash, Base, Good, RecLen, Ready, Mapped, Whole, Fresh, Absent, SpecResult, SpecMap, CallOk, Passed, Written,
         Mine, Fits, Remove, WholeVia;
    var s' := Next(s, p, input);
    BaseShape(s, 0);
    BaseShape(s, Chain(c));
    ReuseDatStep(s, s', p, c, ptr, o, r);
  }

  lemma ReuseIdxGood(s: State, p: nat, input: Call, c: Call, ptr: nat, o: nat, r: Rec)
    requires Base(s) && p in s.procs && s.procs[p] == ReuseIdx(c, ptr, o, r) && LocalAt(s, p, s.procs[p])
    ensures Good(s, Next(s, p, input), p)
  {
    hide Hash, Base, Good, RecLen, Ready, Mapped, Whole, Fresh, Absent, SpecResult, SpecMap, CallOk, Passed, Written,
         Mine, Fits, Remove, WholeVia;
    var s' := Next(s, p, input);
    BaseShape(s, 0);
    BaseShape(s, Chain(c));
    ReuseIdxStep(s, s', p, c, ptr, o, r);
  }

  lemma DatWriteGood(s: State, p: nat, input: Call, c: Call, ptr: nat, d: nat)
    requires Base(s) && p in s.procs && s.procs[p] == DatWrite(c, ptr, d) && LocalAt(s, p, s.procs[p])
    ensures Good(s, Next(s, p, input), p)
  {
    hide Hash, Base, Good, RecLen, Ready, Mapped, Whole, Fresh, Absent, SpecResult, SpecMap, CallOk, Passed, Written,
         Mine, Fits, Remove, WholeVia;
    var s' := Next(s, p, input);
    BaseShape(s, 0);
    BaseShape(s, Chain(c));
    DatWriteStep(s, s', p, c, ptr, d);
  }

  lemma IdxWriteGood(s: State, p: nat, input: Call, c: Call, ptr: nat, d: nat, o: nat)
    requires Base(s) && p in s.procs && s.procs[p] == IdxWrite(c, ptr, d, o) && LocalAt(s, p, s.procs[p])
    ensures Good(s, Next(s, p, input), p)
  {
    hide Hash, Base, Good, RecLen, Ready, Mapped, Whole, Fresh, Absent, SpecResult, SpecMap, CallOk, Passed, Written,
         Mine, Fits, Remove, WholeVia;
    var s' := Next(s, p, input);
    BaseShape(s, 0);
    BaseShape(s, Chain(c));
    IdxWriteStep(s, s', p, c, ptr, d, o);
  }

  lemma PutHeadGood(s: State, p: nat, input: Call, c: Call, o: nat)
    requires Base(s) && p in s.procs && s.procs[p] == PutHead(c, o) && LocalAt(s, p, s.procs[p])
    ensures Good(s, Next(s, p, input), p)
  {
    hide Hash, Base, Good, RecLen, Ready, Mapped, Whole, Fresh, Absent, SpecResult, SpecMap, CallOk, Passed, Written,
         Mine, Fits, Remove, WholeVia;
    var s' := Next(s, p, input);
    BaseShape(s, 0);
    BaseShape(s, Chain(c));
    PutHeadStep(s, s', p, c, o);
  }

  lemma UnlockGood(s: State, p: nat, input: Call, c: Call, res: Result)
    requires Base(s) && p in s.procs && s.procs[p] == Unlock(c, res) && LocalAt(s, p, s.procs[p])
    ensures Good(s, Next(s, p, input), p)
  {
    hide Hash, Base, Good, RecLen, Ready, Mapped, Whole, Fresh, Absent, SpecResult, SpecMap, CallOk, Passed, Written,
         Mine, Fits, Remove, WholeVia;
    var s' := Next(s, p, input);
    BaseShape(s, 0);
    BaseShape(s, Chain(c));
    UnlockStep(s, s', p, c, res);
  }

  // the step of a process that writes
  lemma WriteStep(s: State, p: nat, input: Call)
    requires Base(s) && p in s.procs && !IsQuiet(s.procs[p]) && LocalAt(s, p, s.procs[p])
    ensures Good(s, Next(s, p, input), p)
  {
    hide Hash, Base, Good, Next, LocalAt;
    match s.procs[p] {
      case Overwrite(c, o, r, i) => OverwriteGood(s, p, input, c, o, r, i);
      case DelDat(c, at, o, r, i) => DelDatGood(s, p, input, c, at, o, r, i);
      case DelIdx(c, at, o, r, i, free) => DelIdxGood(s, p, input, c, at, o, r, i, free);
      case DelFreePtr(c, at, o, r, i) => DelFreePtrGood(s, p, input, c, at, o, r, i);
      case DelChainPtr(c, at, o, r, i) => DelChainPtrGood(s, p, input, c, at, o, r, i);
      case FreeTake(c, ptr, at, o, r, i) => FreeTakeGood(s, p, input, c, ptr, at, o, r, i);
      case ReuseDat(c, ptr, o, r) => ReuseDatGood(s, p, input, c, ptr, o, r);
      case ReuseIdx(c, ptr, o, r) => ReuseIdxGood(s, p, input, c, ptr, o, r);
      case DatWrite(c, ptr, d) => DatWriteGood(s, p, input, c, ptr, d);
      case IdxWrite(c, ptr, d, o) => IdxWriteGood(s, p, input, c, ptr, d, o);
      case PutHead(c, o) => PutHeadGood(s, p, input, c, o);
      case Unlock(c, res) => UnlockGood(s, p, input, c, res);
    }
  }

  lemma GoodStep(s: State, p: nat, input: Call)
    requires Enabled(s, p) && Inv(s) && CallOk(input)
    ensures Good(s, Next(s, p, input), p)
  {
    hide Hash, Next, Inv, Good, Enabled, Base, LocalAt, IsQuiet;
    assert p in s.procs by { EnabledProc(s, p); }
    InvParts(s, p);
    if IsQuiet(s.procs[p]) { QuietStep(s, p, input); } else { WriteStep(s, p, input); }
  }

  lemma EnabledProc(s: State, p: nat)
    requires Enabled(s, p)
    ensures p in s.procs
  {
  }

  lemma SettledKept(s: State, s': State, p: nat, l: nat)
    requires Inv(s) && Good(s, s', p) && l < NLISTS
    ensures Settled(s', l)
  {
    hide Hash, LocalAt, Base, Exclusive, Whole, Mapped, HoldsList, ListSame, MapSame;
    if forall q | q in s'.procs :: !HoldsList(s'.procs[q], l) {
      if !HoldsList(s.procs[p], l) {
        assert forall q | q in s.procs :: !HoldsList(s.procs[q], l);
        assert Settled(s, l);
        WholeSame(s, s', l);
        if l > 0 { BaseShape(s, l); MappedSame(s, s', l, s.m, s'.m); }
      }
    }
  }

  // the invariant survives every step of every process
  lemma StepKeeps(s: State, p: nat, input: Call)
    requires Inv(s) && Enabled(s, p) && CallOk(input)
    ensures Inv(Next(s, p, input))
  {
    hide Hash, Effect, Next, LocalAt, Base, Settled, Guar, Blocks, Compatible;
    var s' := Next(s, p, input);
    GoodStep(s, p, input);
    LocksKept(s, p, input);
    forall q | q in s'.procs ensures LocalAt(s', q, s'.procs[q]) {
      if q != p { GuarProcs(s, s', p); Stable(s, s', p, q); }
    }
    forall l | 0 <= l < NLISTS ensures Settled(s', l) { SettledKept(s, s', p, l); }
  }

  lemma GuarProcs(s: State, s': State, p: nat)
    requires Guar(s, s', p)
    ensures s'.procs.Keys == s.procs.Keys && p in s.procs && forall q | q in s.procs
            && q != p :: s'.procs[q] == s.procs[q]
  {
  }

  lemma InitInv(s: State)
    requires Init(s)
    ensures Inv(s)
  {
    hide Hash;
    forall l | 0 <= l < NLISTS ensures Shape(s, l) && Settled(s, l) { assert ListAt(s, l) == []; }
  }
}
