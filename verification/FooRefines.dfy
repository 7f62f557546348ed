/**
 Every run of the two-lock table projects onto a run of the one-lock table: at the step where a
 call takes effect, the one-lock version runs that call from its first step to its last.
 */
module FooRefines {
  import opened Common
  import opened FooOneLock
  import opened FooTwoLock
  import opened FooSafety

  // ---- what else a thread knows: it passed over no match, and it saw more than one reference ----

  // a search of chain c for id has got as far as position k, where fp is (NULL at the end)
  ghost predicate Reached(objs: map<nat, Obj>, c: seq<nat>, id: int, fp: nat, k: nat) {
    && k <= |c| && fp == (if k < |c| then c[k] else 0)
    && forall i | 0 <= i < k :: ObjAt(objs, c[i]).id != id
  }

  ghost predicate Passed(s: State2, id: int, fp: nat) {
    exists k: nat :: Reached(s.objs, ChainAt(s.chains, Hash(id)), id, fp, k)
  }

  ghost predicate Knows(s: State2, th: Thread2) {
    match th.pc
    case FTest(id, fp) => Passed(s, id, fp)
    case FObj(id, fp) => Passed(s, id, fp)
    case FInc(id, fp) => Passed(s, id, fp)
    case RDec(fp) => ObjAt(s.objs, fp).count != 1
    case RDec2(fp) => ObjAt(s.objs, fp).count != 1
    case _ => true
  }

  ghost predicate Inv(s: State2) {
    Inv2(s) && forall t | 0 <= t < |s.threads| :: Knows(s, s.threads[t])
  }

  lemma PassedNext(s: State2, id: int, fp: nat)
    requires Chained(s) && 0 !in s.objs && Passed(s, id, fp) && fp != 0 && ObjAt(s.objs, fp).id != id
    ensures Passed(s, id, ObjAt(s.objs, fp).next)
  {
    hide Hash, Chained;
    var c := ChainAt(s.chains, Hash(id));
    var k: nat :| Reached(s.objs, c, id, fp, k);
    NextMeans(s, Hash(id), k);
    assert Reached(s.objs, c, id, ObjAt(s.objs, fp).next, k + 1);
  }

  lemma PassedHead(s: State2, id: int)
    requires Chained(s)
    ensures Passed(s, id, HeadOf(s.heads, Hash(id)))
  {
    hide Chained;
    HeadMeans(s, Hash(id));
    assert Reached(s.objs, ChainAt(s.chains, Hash(id)), id, HeadOf(s.heads, Hash(id)), 0);
  }

  lemma PassedKept(s: State2, s': State2, id: int, fp: nat)
    requires Passed(s, id, fp) && s'.chains == s.chains
    requires forall i | 0 <= i < |ChainAt(s.chains, Hash(id))| ::
               ObjAt(s'.objs, ChainAt(s.chains, Hash(id))[i]).id == ObjAt(s.objs, ChainAt(s.chains, Hash(id))[i]).id
    ensures Passed(s', id, fp)
  {
    hide Hash;
    var k: nat :| Reached(s.objs, ChainAt(s.chains, Hash(id)), id, fp, k);
    assert Reached(s'.objs, ChainAt(s'.chains, Hash(id)), id, fp, k);
  }

  lemma OwnKnows(s: State2, t: nat)
    requires Inv(s) && t < |s.threads| && !s.threads[t].pc.Idle2?
    ensures Knows(Next2(s, t, Find(0)), Next2(s, t, Find(0)).threads[t])
  {
    hide Hash, Inv2, Chained, Counted, Locals, Placed, Locked, Drop, Passed, Local, SetChain, SetHead, SetNext,
         AddCount;
    Parts(s, t);
    NullOut(s, t);
    var s', pc := Next2(s, t, Find(0)), s.threads[t].pc;
    match pc {
      case FHead(id) => PassedHead(s, id); PassedKept(s, s', id, HeadOf(s.heads, Hash(id)));
      case FTest(id, fp) =>
        if fp != 0 && ObjAt(s.objs, fp).id != id {
          PassedNext(s, id, fp);
          PassedKept(s, s', id, ObjAt(s.objs, fp).next);
        } else if fp != 0 {
          PassedKept(s, s', id, fp);
        }
      case FObj(id, fp) => PassedKept(s, s', id, fp);
      case _ =>
    }
  }

  lemma ChainIdsKept(s: State2, t: nat, h: nat)
    requires Inv2(s) && t < |s.threads| && !s.threads[t].pc.Idle2? && !HasHash(s.threads[t].pc)
    ensures var c := ChainAt(s.chains, h);
            forall i | 0 <= i < |c| :: ObjAt(Next2(s, t, Find(0)).objs, c[i]).id == ObjAt(s.objs, c[i]).id
  {
    hide Hash, Inv2, Chained, Counted, Locals, Placed, Locked, Next2, OnChain;
    Parts(s, t);
    var c := ChainAt(s.chains, h);
    forall i | 0 <= i < |c| ensures ObjAt(Next2(s, t, Find(0)).objs, c[i]).id == ObjAt(s.objs, c[i]).id {
      ChainLive(s, h, c[i]);
      ChainListed(s, h, c[i]);
      if s.threads[t].pc == RFree(c[i]) { FreedIsOff(s, t, c[i]); }
      FieldsKept(s, t, c[i]);
    }
  }

  lemma CountHeld(s: State2, t: nat, u: nat, fp: nat)
    requires Inv2(s) && t < |s.threads| && u < |s.threads| && t != u && !s.threads[t].pc.Idle2?
    requires fp != 0 && HasObj(s.threads[u].pc) == fp && ObjAt(s.objs, fp).count != 1
    ensures ObjAt(Next2(s, t, Find(0)).objs, fp).count != 1
  {
    hide Hash, Inv2, Chained, Counted, Locals, Placed, Next2, OnChain, Drop;
    Parts(s, t);
    assert HasObj(s.threads[t].pc) != fp;
    assert fp in s.objs;
    FieldsKept(s, t, fp);
  }

  lemma OtherKnows(s: State2, t: nat, u: nat)
    requires Inv(s) && t < |s.threads| && u < |s.threads| && t != u && !s.threads[t].pc.Idle2?
    ensures Knows(Next2(s, t, Find(0)), s.threads[u])
  {
    hide Hash, Inv2, Chained, Counted, Locals, Placed, Locked, Next2, Passed;
    Parts(s, u);
    var s', pc := Next2(s, t, Find(0)), s.threads[u].pc;
    if pc.FTest? || pc.FObj? || pc.FInc? {
      HashExcludes(s, t, u);
      NoRelink(s, t);
      ChainIdsKept(s, t, Hash(pc.id));
      PassedKept(s, s', pc.id, pc.fp);
    }
    if pc.RDec? || pc.RDec2? { CountHeld(s, t, u, pc.fp); }
  }

  lemma CallKnows(s: State2, s': State2, th: Thread2)
    requires Chained(s) && Calls(s, s') && Knows(s, th) && (th.pc.RDec? || th.pc.RDec2? ==> th.pc.fp in s.objs)
    ensures Knows(s', th)
  {
    hide Hash, Chained, Passed;
    var pc := th.pc;
    if pc.FTest? || pc.FObj? || pc.FInc? {
      forall i | 0 <= i < |ChainAt(s.chains, Hash(pc.id))|
        ensures ObjAt(s'.objs, ChainAt(s.chains, Hash(pc.id))[i]).id
                == ObjAt(s.objs, ChainAt(s.chains, Hash(pc.id))[i]).id
      {
        ChainLive(s, Hash(pc.id), ChainAt(s.chains, Hash(pc.id))[i]);
      }
      PassedKept(s, s', pc.id, pc.fp);
    }
  }

  lemma DecIsLive(s: State2, u: nat)
    requires Inv2(s) && u < |s.threads|
    ensures s.threads[u].pc.RDec? || s.threads[u].pc.RDec2? ==> s.threads[u].pc.fp in s.objs
  {
    hide Hash, Inv2, Chained, Counted, Locals, Placed, Locked;
    Parts(s, u);
    if HasObj(s.threads[u].pc) != 0 { HeldIsLive(s, u); }
  }

  lemma BeginKnows(s: State2, t: nat, c: Call)
    requires Inv(s) && t < |s.threads| && s.threads[t].pc.Idle2? && CallOk2(s, t, c)
    ensures forall u | 0 <= u < |s.threads| :: Knows(Begin2(s, t, c), Begin2(s, t, c).threads[u])
  {
    hide Hash, Inv2, Chained, Counted, Locals, Placed, Locked, Passed, Knows;
    Parts(s, t);
    BeginPlaced(s, t, c);
    var s' := Begin2(s, t, c);
    forall u | 0 <= u < |s.threads| ensures Knows(s', s'.threads[u]) {
      assert Knows(s, s.threads[u]);
      DecIsLive(s, u);
      CallKnows(s, s', s.threads[u]);
      KnowsByPc(s', s.threads[u], s'.threads[u]);
    }
  }

  lemma KnowsByPc(s: State2, th: Thread2, th': Thread2)
    requires Knows(s, th)
    requires th'.pc == th.pc || th'.pc.AHash? || th'.pc.HObj? || th'.pc.FHash? || th'.pc.RObj?
    ensures Knows(s, th')
  {
    hide Passed;
  }

  lemma StepInv(s: State2, t: nat, c: Call, s': State2)
    requires Inv(s) && Step2(s, t, c, s')
    ensures Inv(s')
  {
    hide Hash, Inv2, Knows, Begin2, Effect2, CallOk2;
    StepInv2(s, t, c, s');
    if s.threads[t].pc.Idle2? {
      BeginKnows(s, t, c);
      BeginThreads(s, t, c);
    } else {
      assert s' == Next2(s, t, Find(0));
      forall u | 0 <= u < |s'.threads| ensures Knows(s', s'.threads[u]) {
        if u == t { OwnKnows(s, t); } else { OtherKnows(s, t, u); }
      }
    }
  }

  lemma BeginThreads(s: State2, t: nat, c: Call)
    requires t < |s.threads|
    ensures |Begin2(s, t, c).threads| == |s.threads|
  {
  }

  // ---- whole calls of the one-lock table ----

  function At(s: State, t: nat, heads: seq<nat>, objs: map<nat, Obj>, hash: bool, locks: set<nat>, th: Thread,
      log: seq<Event>): State
    requires t < |s.threads|
  {
    State(heads, objs, hash, locks, s.threads[t := th], log)
  }

  // thread t can start a call and run it alone
  ghost predicate Free(s: State, t: nat) {
    t < |s.threads| && s.threads[t].pc.Idle? && !s.hash && s.locks == {}
  }

  // thread t alone, with a call in progress before every step, gets from s to s'
  ghost predicate Inside(s: State, sched: seq<(nat, Call)>, t: nat, s': State)
    decreases |sched|
  {
    if sched == [] then s == s'
    else
      && t < |s.threads| && sched[0].0 == t && !s.threads[t].pc.Idle?
      && Enabled(s, t) && Inside(Next(s, t, sched[0].1), sched[1..], t, s')
  }

  // at s the idle thread t starts call c, and alone it gets to s' within that call
  ghost predicate RunsTo(s: State, sched: seq<(nat, Call)>, t: nat, c: Call, s': State) {
    && t < |s.threads| && s.threads[t].pc.Idle? && CallOk(s, t, c)
    && sched != [] && sched[0] == (t, c) && Inside(Begin(s, t, c), sched[1..], t, s')
  }

  // t makes the call c from its first step to its last, and nothing else
  ghost predicate WholeCall(s: State, sched: seq<(nat, Call)>, t: nat, c: Call, s': State) {
    RunsTo(s, sched, t, c, s') && t < |s'.threads| && s'.threads[t].pc.Idle?
  }

  lemma Starts(s: State, t: nat, c: Call, s': State)
    requires t < |s.threads| && s.threads[t].pc.Idle? && CallOk(s, t, c) && s' == Begin(s, t, c)
    ensures RunsTo(s, [(t, c)], t, c, s')
  {
    hide Begin, CallOk;
    assert [(t, c)][1..] == [];
  }

  lemma {:induction false} InsideThen(s: State, sched: seq<(nat, Call)>, t: nat, m: State, c: Call, m': State)
    requires Inside(s, sched, t, m) && t < |m.threads| && !m.threads[t].pc.Idle? && Step(m, t, c, m')
    ensures Inside(s, sched + [(t, c)], t, m')
    decreases |sched|
  {
    hide Hash, Next, CallOk, Enabled;
    if sched == [] {
      assert ([] + [(t, c)])[1..] == [];
      assert Inside(m', [], t, m');
    } else {
      assert (sched + [(t, c)])[1..] == sched[1..] + [(t, c)];
      InsideThen(Next(s, t, sched[0].1), sched[1..], t, m, c, m');
    }
  }

  lemma Go(s: State, sched: seq<(nat, Call)>, m: State, t: nat, c: Call, m': State)
    requires RunsTo(s, sched, t, c, m) && t < |m.threads| && !m.threads[t].pc.Idle? && Step(m, t, c, m')
    ensures RunsTo(s, sched + [(t, c)], t, c, m')
  {
    hide Hash, Begin, CallOk, Step, Inside;
    InsideThen(Begin(s, t, c), sched[1..], t, m, c, m');
    assert (sched + [(t, c)])[1..] == sched[1..] + [(t, c)];
  }

  lemma {:induction false} InsideReaches(s: State, sched: seq<(nat, Call)>, t: nat, s': State)
    requires Inside(s, sched, t, s')
    ensures Reaches(s, sched, s')
    decreases |sched|
  {
    hide Next, CallOk, Enabled;
    if sched != [] { InsideReaches(Next(s, t, sched[0].1), sched[1..], t, s'); }
  }

  lemma WholeReaches(s: State, sched: seq<(nat, Call)>, t: nat, c: Call, s': State)
    requires RunsTo(s, sched, t, c, s')
    ensures Reaches(s, sched, s')
  {
    hide Begin, CallOk, Inside;
    assert Begin(s, t, c) == Next(s, t, c);
    InsideReaches(Begin(s, t, c), sched[1..], t, s');
  }

  lemma HoldRun(s: State, t: nat, fp: nat) returns (sched: seq<(nat, Call)>)
    requires Free(s, t) && fp in s.threads[t].refs
    ensures RunsTo(s, sched, t, Hold(fp), At(s, t, s.heads, AddCount(s.objs, fp, 1), false, {},
                                 Thread(Idle, s.threads[t].refs + multiset{fp}), s.log + [Held(t, fp)]))
  {
    hide Hash, RunsTo;
    var c, r, h := Hold(fp), s.threads[t].refs, s.heads;
    var o, l := AddCount(s.objs, fp, 1), s.log + [Held(t, fp)];
    var s1 := At(s, t, h, s.objs, false, {}, Thread(HoldLock(fp), r), s.log);
    var s2 := At(s, t, h, s.objs, true, {}, Thread(HoldInc(fp), r), s.log);
    var s3 := At(s, t, h, o, true, {}, Thread(HoldUnlock(fp), r), l);
    var s4 := At(s, t, h, o, false, {}, Thread(Idle, r + multiset{fp}), l);
    sched := [(t, c)];
    Starts(s, t, c, s1);
    Go(s, sched, s1, t, c, s2); sched := sched + [(t, c)];
    Go(s, sched, s2, t, c, s3); sched := sched + [(t, c)];
    Go(s, sched, s3, t, c, s4); sched := sched + [(t, c)];
  }

  lemma ReleRun(s: State, t: nat, fp: nat) returns (sched: seq<(nat, Call)>)
    requires Free(s, t) && fp in s.threads[t].refs && ObjAt(s.objs, fp).count != 1
    ensures RunsTo(s, sched, t, Rele(fp), At(s, t, s.heads, AddCount(s.objs, fp, -1), false, {},
                                 Thread(Idle, s.threads[t].refs - multiset{fp}), s.log + [Released(t, fp, false)]))
  {
    hide Hash, RunsTo;
    var c, r, h := Rele(fp), s.threads[t].refs - multiset{fp}, s.heads;
    var o, l := AddCount(s.objs, fp, -1), s.log + [Released(t, fp, false)];
    var s1 := At(s, t, h, s.objs, false, {}, Thread(ReleLock(fp), r), s.log);
    var s2 := At(s, t, h, s.objs, true, {}, Thread(ReleDec(fp), r), s.log);
    var s3 := At(s, t, h, o, true, {}, Thread(ReleUnlock, r), l);
    var s4 := At(s, t, h, o, false, {}, Thread(Idle, r), l);
    sched := [(t, c)];
    Starts(s, t, c, s1);
    Go(s, sched, s1, t, c, s2); sched := sched + [(t, c)];
    Go(s, sched, s2, t, c, s3); sched := sched + [(t, c)];
    Go(s, sched, s3, t, c, s4); sched := sched + [(t, c)];
  }

  lemma AllocRun(s: State, t: nat, fp: nat, id: int) returns (sched: seq<(nat, Call)>)
    requires Free(s, t) && fp != 0 && fp !in s.objs
    ensures RunsTo(s, sched, t, Alloc(fp, id), At(s, t, SetHead(s.heads, Hash(id), fp),
            s.objs[fp := Obj(1, id, HeadOf(s.heads, Hash(id)))], false, {},
                                 Thread(Idle, s.threads[t].refs + multiset{fp}), s.log + [Allocated(t, fp, id)]))
  {
    hide Hash, RunsTo, SetHead, HeadOf;
    var c, r, h := Alloc(fp, id), s.threads[t].refs, s.heads;
    var h', l := SetHead(h, Hash(id), fp), s.log + [Allocated(t, fp, id)];
    var o1, o2 := s.objs[fp := Obj(1, id, 0)], s.objs[fp := Obj(1, id, HeadOf(h, Hash(id)))];
    assert SetNext(o1, fp, HeadOf(h, Hash(id))) == o2;
    var s1 := At(s, t, h, o1, false, {}, Thread(AllocLock(fp, id), r), s.log);
    var s2 := At(s, t, h, o1, true, {}, Thread(AllocNext(fp, id), r), s.log);
    var s3 := At(s, t, h, o2, true, {}, Thread(AllocHead(fp, id), r), s.log);
    var s4 := At(s, t, h', o2, true, {}, Thread(AllocLockObj(fp), r), l);
    var s5 := At(s, t, h', o2, true, {fp}, Thread(AllocUnlock(fp), r), l);
    var s6 := At(s, t, h', o2, false, {fp}, Thread(AllocUnlockObj(fp), r), l);
    var s7 := At(s, t, h', o2, false, {}, Thread(Idle, r + multiset{fp}), l);
    sched := [(t, c)];
    Starts(s, t, c, s1);
    Go(s, sched, s1, t, c, s2); sched := sched + [(t, c)];
    Go(s, sched, s2, t, c, s3); sched := sched + [(t, c)];
    Go(s, sched, s3, t, c, s4); sched := sched + [(t, c)];
    Go(s, sched, s4, t, c, s5); sched := sched + [(t, c)];
    Go(s, sched, s5, t, c, s6); sched := sched + [(t, c)];
    Go(s, sched, s6, t, c, s7); sched := sched + [(t, c)];
  }

  // the search of chain ch gets from its head to position k
  lemma {:induction false} FindWalk(s: State, t: nat, id: int, ch: seq<nat>, k: nat) returns (sched: seq<(nat, Call)>)
    requires Free(s, t) && Linked(s.objs, HeadOf(s.heads, Hash(id)), ch) && 0 !in ch
    requires k <= |ch| && forall i | 0 <= i < k :: ObjAt(s.objs, ch[i]).id != id
    ensures RunsTo(s, sched, t, Find(id), At(s, t, s.heads, s.objs, true, {},
                                 Thread(FindTest(id, if k < |ch| then ch[k] else 0), s.threads[t].refs), s.log))
    decreases k
  {
    hide Hash, RunsTo, HeadOf;
    var c, r, h := Find(id), s.threads[t].refs, s.heads;
    if k == 0 {
      var s1 := At(s, t, h, s.objs, false, {}, Thread(FindLock(id), r), s.log);
      var s2 := At(s, t, h, s.objs, true, {}, Thread(FindHead(id), r), s.log);
      var s3 := At(s, t, h, s.objs, true, {}, Thread(FindTest(id, HeadOf(h, Hash(id))), r), s.log);
      sched := [(t, c)];
      Starts(s, t, c, s1);
      Go(s, sched, s1, t, c, s2); sched := sched + [(t, c)];
      Go(s, sched, s2, t, c, s3); sched := sched + [(t, c)];
    } else {
      sched := FindWalk(s, t, id, ch, k - 1);
      var s1 := At(s, t, h, s.objs, true, {}, Thread(FindTest(id, ch[k - 1]), r), s.log);
      var s2 := At(s, t, h, s.objs, true, {}, Thread(FindTest(id, if k < |ch| then ch[k] else 0), r), s.log);
      assert s.objs[ch[k - 1]].next == Succ(ch, k - 1);
      Go(s, sched, s1, t, c, s2); sched := sched + [(t, c)];
    }
  }

  lemma MissRun(s: State, t: nat, id: int, ch: seq<nat>) returns (sched: seq<(nat, Call)>)
    requires Free(s, t) && Linked(s.objs, HeadOf(s.heads, Hash(id)), ch) && 0 !in ch
    requires forall i | 0 <= i < |ch| :: ObjAt(s.objs, ch[i]).id != id
    ensures RunsTo(s, sched, t, Find(id), At(s, t, s.heads, s.objs, false, {}, Thread(Idle, s.threads[t].refs),
            s.log + [Found(t, id, 0)]))
  {
    hide Hash, RunsTo, HeadOf;
    var c, r, h, l := Find(id), s.threads[t].refs, s.heads, s.log + [Found(t, id, 0)];
    sched := FindWalk(s, t, id, ch, |ch|);
    var s1 := At(s, t, h, s.objs, true, {}, Thread(FindTest(id, 0), r), s.log);
    var s2 := At(s, t, h, s.objs, true, {}, Thread(FindUnlock(0), r), l);
    var s3 := At(s, t, h, s.objs, false, {}, Thread(Idle, r), l);
    Go(s, sched, s1, t, c, s2); sched := sched + [(t, c)];
    Go(s, sched, s2, t, c, s3); sched := sched + [(t, c)];
  }

  lemma HitRun(s: State, t: nat, id: int, ch: seq<nat>, k: nat) returns (sched: seq<(nat, Call)>)
    requires Free(s, t) && Linked(s.objs, HeadOf(s.heads, Hash(id)), ch) && 0 !in ch
    requires k < |ch| && forall i | 0 <= i < k :: ObjAt(s.objs, ch[i]).id != id
    requires ObjAt(s.objs, ch[k]).id == id
    ensures RunsTo(s, sched, t, Find(id), At(s, t, s.heads, AddCount(s.objs, ch[k], 1), false, {},
                                 Thread(Idle, s.threads[t].refs + multiset{ch[k]}), s.log + [Found(t, id, ch[k])]))
  {
    hide Hash, RunsTo, HeadOf;
    var c, r, h, fp := Find(id), s.threads[t].refs, s.heads, ch[k];
    var o, l := AddCount(s.objs, fp, 1), s.log + [Found(t, id, fp)];
    sched := FindWalk(s, t, id, ch, k);
    var s1 := At(s, t, h, s.objs, true, {}, Thread(FindTest(id, fp), r), s.log);
    var s2 := At(s, t, h, s.objs, true, {}, Thread(FindInc(id, fp), r), s.log);
    var s3 := At(s, t, h, o, true, {}, Thread(FindUnlock(fp), r), l);
    var s4 := At(s, t, h, o, false, {}, Thread(Idle, r + multiset{fp}), l);
    Go(s, sched, s1, t, c, s2); sched := sched + [(t, c)];
    Go(s, sched, s2, t, c, s3); sched := sched + [(t, c)];
    Go(s, sched, s3, t, c, s4); sched := sched + [(t, c)];
  }

  // the last release up to the point where it starts to look for fp's chain
  lemma LastStarts(s: State, t: nat, fp: nat) returns (sched: seq<(nat, Call)>)
    requires Free(s, t) && fp in s.threads[t].refs && ObjAt(s.objs, fp).count == 1
    ensures RunsTo(s, sched, t, Rele(fp), At(s, t, s.heads, AddCount(s.objs, fp, -1), true, {},
                                 Thread(ReleHead(fp), s.threads[t].refs - multiset{fp}),
                                   s.log + [Released(t, fp, true)]))
  {
    hide Hash, RunsTo;
    var c, r, h := Rele(fp), s.threads[t].refs - multiset{fp}, s.heads;
    var o, l := AddCount(s.objs, fp, -1), s.log + [Released(t, fp, true)];
    var s1 := At(s, t, h, s.objs, false, {}, Thread(ReleLock(fp), r), s.log);
    var s2 := At(s, t, h, s.objs, true, {}, Thread(ReleDec(fp), r), s.log);
    var s3 := At(s, t, h, o, true, {}, Thread(ReleHead(fp), r), l);
    sched := [(t, c)];
    Starts(s, t, c, s1);
    Go(s, sched, s1, t, c, s2); sched := sched + [(t, c)];
    Go(s, sched, s2, t, c, s3); sched := sched + [(t, c)];
  }

  // the walk for fp's predecessor gets to position k
  lemma {:induction false} LastWalk(s: State, t: nat, ch: seq<nat>, i: nat, k: nat) returns (sched: seq<(nat, Call)>)
    requires Free(s, t) && k < i < |ch| && NoDup(ch) && ch[i] in s.threads[t].refs && ObjAt(s.objs, ch[i]).count == 1
    requires Linked(s.objs, HeadOf(s.heads, Hash(ObjAt(s.objs, ch[i]).id)), ch)
    ensures var fp := ch[i];
            RunsTo(s, sched, t, Rele(fp), At(s, t, s.heads, AddCount(s.objs, fp, -1), true, {},
                                 Thread(ReleWalk(fp, ch[k]), s.threads[t].refs - multiset{fp}),
                                   s.log + [Released(t, fp, true)]))
    decreases k
  {
    hide Hash, RunsTo, HeadOf;
    var fp := ch[i];
    var c, r, h := Rele(fp), s.threads[t].refs - multiset{fp}, s.heads;
    var o, l := AddCount(s.objs, fp, -1), s.log + [Released(t, fp, true)];
    var s2 := At(s, t, h, o, true, {}, Thread(ReleWalk(fp, ch[k]), r), l);
    if k == 0 {
      sched := LastStarts(s, t, fp);
      var s1 := At(s, t, h, o, true, {}, Thread(ReleHead(fp), r), l);
      Go(s, sched, s1, t, c, s2); sched := sched + [(t, c)];
    } else {
      sched := LastWalk(s, t, ch, i, k - 1);
      var s1 := At(s, t, h, o, true, {}, Thread(ReleWalk(fp, ch[k - 1]), r), l);
      assert s.objs[ch[k - 1]].next == Succ(ch, k - 1);
      Go(s, sched, s1, t, c, s2); sched := sched + [(t, c)];
    }
  }

  // once fp is unlinked the call unlocks and frees it
  lemma LastEnds(s: State, t: nat, sched0: seq<(nat, Call)>, fp: nat, h: seq<nat>, o: map<nat, Obj>, r: multiset<nat>,
      l: seq<Event>)
    returns (sched: seq<(nat, Call)>)
    requires t < |s.threads| && RunsTo(s, sched0, t, Rele(fp),
             At(s, t, h, o, true, {}, Thread(ReleUnlockLast(fp), r), l))
    ensures RunsTo(s, sched, t, Rele(fp), At(s, t, h, o - {fp}, false, {}, Thread(Idle, r), l))
  {
    hide Hash, RunsTo;
    var c := Rele(fp);
    sched := sched0;
    var s3 := At(s, t, h, o, true, {}, Thread(ReleUnlockLast(fp), r), l);
    var s4 := At(s, t, h, o, false, {}, Thread(ReleFree(fp), r), l);
    var s5 := At(s, t, h, o - {fp}, false, {}, Thread(Idle, r), l);
    Go(s, sched, s3, t, c, s4); sched := sched + [(t, c)];
    Go(s, sched, s4, t, c, s5); sched := sched + [(t, c)];
  }

  lemma LastRunHead(s: State, t: nat, fp: nat) returns (sched: seq<(nat, Call)>)
    requires Free(s, t) && fp in s.threads[t].refs && fp in s.objs && s.objs[fp].count == 1
    requires HeadOf(s.heads, Hash(s.objs[fp].id)) == fp
    ensures RunsTo(s, sched, t, Rele(fp), At(s, t, SetHead(s.heads, Hash(s.objs[fp].id), s.objs[fp].next),
            s.objs - {fp}, false, {},
                                 Thread(Idle, s.threads[t].refs - multiset{fp}), s.log + [Released(t, fp, true)]))
  {
    hide Hash, RunsTo, HeadOf, SetHead;
    var c, r, h := Rele(fp), s.threads[t].refs - multiset{fp}, s.heads;
    var h' := SetHead(h, Hash(s.objs[fp].id), s.objs[fp].next);
    var o, l := AddCount(s.objs, fp, -1), s.log + [Released(t, fp, true)];
    sched := LastStarts(s, t, fp);
    var s1 := At(s, t, h, o, true, {}, Thread(ReleHead(fp), r), l);
    var s2 := At(s, t, h, o, true, {}, Thread(ReleSetHead(fp), r), l);
    var s3 := At(s, t, h', o, true, {}, Thread(ReleUnlockLast(fp), r), l);
    assert o - {fp} == s.objs - {fp};
    Go(s, sched, s1, t, c, s2); sched := sched + [(t, c)];
    Go(s, sched, s2, t, c, s3); sched := sched + [(t, c)];
    sched := LastEnds(s, t, sched, fp, h', o, r, l);
  }

  lemma LastRunNext(s: State, t: nat, ch: seq<nat>, k: nat) returns (sched: seq<(nat, Call)>)
    requires Free(s, t) && k + 1 < |ch| && NoDup(ch) && ch[k + 1] in s.threads[t].refs
             && ObjAt(s.objs, ch[k + 1]).count == 1
    requires Linked(s.objs, HeadOf(s.heads, Hash(ObjAt(s.objs, ch[k + 1]).id)), ch)
    ensures var fp := ch[k + 1];
            RunsTo(s, sched, t, Rele(fp), At(s, t, s.heads, SetNext(s.objs, ch[k], ObjAt(s.objs, fp).next) - {fp},
              false, {},
                                 Thread(Idle, s.threads[t].refs - multiset{fp}), s.log + [Released(t, fp, true)]))
  {
    hide Hash, RunsTo, HeadOf;
    var fp, tfp := ch[k + 1], ch[k];
    var c, r, h := Rele(fp), s.threads[t].refs - multiset{fp}, s.heads;
    var o, l := AddCount(s.objs, fp, -1), s.log + [Released(t, fp, true)];
    var o' := SetNext(o, tfp, s.objs[fp].next);
    sched := LastWalk(s, t, ch, k + 1, k);
    assert s.objs[tfp].next == Succ(ch, k);
    var s1 := At(s, t, h, o, true, {}, Thread(ReleWalk(fp, tfp), r), l);
    var s2 := At(s, t, h, o, true, {}, Thread(ReleSetNext(fp, tfp), r), l);
    var s3 := At(s, t, h, o', true, {}, Thread(ReleUnlockLast(fp), r), l);
    assert o' - {fp} == SetNext(s.objs, tfp, s.objs[fp].next) - {fp};
    Go(s, sched, s1, t, c, s2); sched := sched + [(t, c)];
    Go(s, sched, s2, t, c, s3); sched := sched + [(t, c)];
    sched := LastEnds(s, t, sched, fp, h, o', r, l);
  }

  // ---- the one-lock table a two-lock state stands for ----

  // a reference of a call in progress counts from the instant the call takes effect
  function Credit(pc: Pc2): multiset<nat> {
    if Credited(pc) != 0 then multiset{Credited(pc)} else multiset{}
  }

  function Credited(pc: Pc2): nat { if Private2(pc) == 0 then Owed(pc) else 0 }

  function AbsThread(th: Thread2): Thread { Thread(Idle, th.refs + Credit(th.pc)) }

  function AbsThreads(ths: seq<Thread2>): (r: seq<Thread>) {
    seq(|ths|, i requires 0 <= i < |ths| => AbsThread(ths[i]))
  }

  ghost function AbsObjs(s: State2): map<nat, Obj> { map a | a in s.objs && OnChain(s, a) :: s.objs[a] }

  // the linked objects, no lock held, every thread between calls
  ghost function Abs(s: State2): State { State(s.heads, AbsObjs(s), false, {}, AbsThreads(s.threads), s.log) }

  lemma AbsPut(ths: seq<Thread2>, t: nat, th: Thread2)
    requires t < |ths|
    ensures AbsThreads(ths[t := th]) == AbsThreads(ths)[t := AbsThread(th)]
  {
  }

  lemma AbsObjsAre(s: State2, objs: map<nat, Obj>)
    requires forall a :: OnChain(s, a) <==> a in objs
    requires forall a | a in objs && a in s.objs :: objs[a] == s.objs[a]
    ensures AbsObjs(s) == objs
  {
    hide Hash;
    forall a | OnChain(s, a) ensures a in s.objs { }
  }

  lemma AbsChain(s: State2, h: nat)
    requires Chained(s) && 0 !in s.objs && h < NHASH
    ensures Linked(AbsObjs(s), HeadOf(s.heads, h), ChainAt(s.chains, h)) && NoDup(ChainAt(s.chains, h))
            && 0 !in ChainAt(s.chains, h)
    ensures forall a | a in ChainAt(s.chains, h) :: a in s.objs && a in AbsObjs(s) && AbsObjs(s)[a] == s.objs[a]
  {
    hide Hash, OnChain;
    var c := ChainAt(s.chains, h);
    forall a | a in c ensures a in s.objs && OnChain(s, a) { ChainLive(s, h, a); }
    assert ChainOk(s.heads, s.objs, s.chains, h);
    forall i | 0 <= i < |c| ensures c[i] in AbsObjs(s) && AbsObjs(s)[c[i]] == s.objs[c[i]]
      && AbsObjs(s)[c[i]].next == Succ(c, i) {
      assert c[i] in c;
      assert s.objs[c[i]].next == Succ(c, i);
    }
  }

  // an object a thread has a reference to is linked, unless that thread is bringing it in or taking it out
  lemma SharedIsLinked(s: State2, t: nat, a: nat)
    requires Inv2(s) && t < |s.threads| && a != 0 && Share(s.threads[t], a) > 0 && Private2(s.threads[t].pc) != a
    ensures OnChain(s, a) && a in s.objs && a in AbsObjs(s) && AbsObjs(s)[a] == s.objs[a]
  {
    hide Hash, Inv2, Counted, Chained, Locked, Locals, OnChain, Share;
    Parts(s, t);
    LiveIfShared(s, t, a);
    if !OnChain(s, a) {
      var u :| 0 <= u < |s.threads| && Private2(s.threads[u].pc) == a;
      PrivateAlone(s, u, t);
      assert Share(s.threads[u], a) > 0 by { PrivateShares(s.threads[u]); }
      Alone(s, u, t, a);
    }
  }

  lemma PrivateShares(th: Thread2)
    requires Private2(th.pc) != 0
    ensures Share(th, Private2(th.pc)) > 0
  {
  }

  // ---- steps ----

  // the step at which the call takes effect
  predicate TakesEffect(pc: Pc2) {
    pc.AHead? || pc.HInc? || pc.FInc? || pc.RDec? || pc.RDec2? || pc.RSetHead? || pc.RSetNext?
      || (pc.FTest? && pc.fp == 0)
  }

  lemma SilentMem(s: State2, t: nat)
    requires t < |s.threads| && !s.threads[t].pc.Idle2? && !TakesEffect(s.threads[t].pc)
    ensures Next2(s, t, Find(0)).log == s.log && Next2(s, t, Find(0)).heads == s.heads
  {
    hide Hash, Drop, SetChain, SetHead, SetNext, AddCount, ObjAt, HeadOf, ChainAt;
  }

  // the thread's references stay as they are, or the one a call has earned is handed over
  ghost predicate SameCredit(th: Thread2, th': Thread2) {
    || (th'.refs == th.refs && Credited(th'.pc) == Credited(th.pc))
    || (th'.pc.Idle2? && Credited(th.pc) != 0 && th'.refs == th.refs + multiset{Credited(th.pc)})
  }

  lemma SilentFinding(s: State2, t: nat)
    requires t < |s.threads| && Finding(s.threads[t].pc) && !TakesEffect(s.threads[t].pc)
    requires Local(s, s.threads[t])
    ensures SameCredit(s.threads[t], Effect2(MemOf(s), t, s.threads[t]).1)
  {
    hide Hash, Drop, SetChain, SetHead, SetNext, AddCount, ObjAt, HeadOf, ChainAt, Sole;
  }

  lemma SilentReleasing(s: State2, t: nat)
    requires t < |s.threads| && !Finding(s.threads[t].pc) && !s.threads[t].pc.Idle2? && !TakesEffect(s.threads[t].pc)
    ensures SameCredit(s.threads[t], Effect2(MemOf(s), t, s.threads[t]).1)
  {
    hide Hash, Drop, SetChain, SetHead, SetNext, AddCount, ObjAt, HeadOf, ChainAt;
  }

  lemma SameCreditSame(th: Thread2, th': Thread2)
    requires SameCredit(th, th')
    ensures AbsThread(th') == AbsThread(th)
  {
    hide Credited;
    IdleCredit();
  }

  lemma IdleCredit()
    ensures Credit(Idle2) == multiset{}
  {
  }

  lemma SilentObjs(s: State2, t: nat, a: nat)
    requires t < |s.threads| && !s.threads[t].pc.Idle2? && !TakesEffect(s.threads[t].pc)
    requires a in s.objs && a != Private2(s.threads[t].pc)
    ensures var (m, th) := Effect2(MemOf(s), t, s.threads[t]); a in m.objs && m.objs[a] == s.objs[a]
  {
    hide Hash, Drop, SetChain, SetHead, ObjAt, HeadOf, ChainAt, Before, Adjacent, OnChain;
  }

  lemma SilentStep(s: State2, t: nat)
    requires Inv(s) && t < |s.threads| && !s.threads[t].pc.Idle2? && !TakesEffect(s.threads[t].pc)
    ensures Abs(Next2(s, t, Find(0))) == Abs(s)
  {
    hide Hash, Inv2, Chained, Counted, Locked, Locals, Local, Placed, Knows, OnChain, Effect2, AbsThread;
    Parts(s, t);
    NullOut(s, t);
    var s' := Next2(s, t, Find(0));
    SilentMem(s, t);
    if Finding(s.threads[t].pc) { SilentFinding(s, t); } else { SilentReleasing(s, t); }
    SameCreditSame(s.threads[t], s'.threads[t]);
    AbsPut(s.threads, t, s'.threads[t]);
    assert AbsThreads(s.threads)[t] == AbsThread(s.threads[t]);
    assert AbsThreads(s'.threads) == AbsThreads(s.threads);
    PlainLinks(s, t);
    SameChains(s, s');
    PlainKeys(s, t);
    if Private2(s.threads[t].pc) != 0 { PrivateOff(s, t); }
    var objs := AbsObjs(s);
    forall a ensures OnChain(s', a) <==> a in objs {
      if a in s.objs && a !in s'.objs { NotOnIfDead(s', a); }
      if a in objs { }
      if OnChain(s', a) { OnlyLive(s', a); }
      if OnChain(s, a) { OnlyLive(s, a); }
    }
    forall a | a in objs && a in s'.objs ensures objs[a] == s'.objs[a] { SilentObjs(s, t, a); }
    AbsObjsAre(s', objs);
  }

  lemma BeginAbs(s: State2, t: nat, c: Call)
    requires Inv(s) && t < |s.threads| && s.threads[t].pc.Idle2? && CallOk2(s, t, c) && !c.Pass?
    ensures Abs(Begin2(s, t, c)) == Abs(s)
  {
    hide Hash, Inv2, Chained, Counted, Locked, Locals, Local, Placed, Knows, OnChain;
    Parts(s, t);
    var s' := Begin2(s, t, c);
    BeginPlaced(s, t, c);
    BeginMem(s, t, c);
    BeginThread(s, t, c);
    AbsPut(s.threads, t, s'.threads[t]);
    assert AbsThreads(s.threads)[t] == AbsThread(s.threads[t]);
    assert AbsThreads(s'.threads) == AbsThreads(s.threads);
    CallsChained(s, s');
    var objs := AbsObjs(s);
    forall a ensures OnChain(s', a) <==> a in objs {
      if OnChain(s, a) { OnlyLive(s, a); }
    }
    AbsObjsAre(s', objs);
  }

  lemma BeginMem(s: State2, t: nat, c: Call)
    requires t < |s.threads| && !c.Pass?
    ensures |Begin2(s, t, c).threads| == |s.threads|
            && Begin2(s, t, c).threads == s.threads[t := Begin2(s, t, c).threads[t]]
    ensures Begin2(s, t, c).heads == s.heads && Begin2(s, t, c).log == s.log
  {
  }

  lemma BeginThread(s: State2, t: nat, c: Call)
    requires Counted(s) && t < |s.threads| && s.threads[t].pc.Idle2? && CallOk2(s, t, c) && !c.Pass?
    ensures AbsThread(Begin2(s, t, c).threads[t]) == AbsThread(s.threads[t])
  {
    hide CountIs;
  }

  lemma PassThreads(s: State2, t: nat, fp: nat, to: nat)
    requires t < |s.threads| && s.threads[t].pc.Idle2? && fp in s.threads[t].refs && to < |s.threads|
    ensures AbsThreads(Begin2(s, t, Pass(fp, to)).threads) == Begin(Abs(s), t, Pass(fp, to)).threads
  {
    hide AbsObjs, Credit;
    var a, b := s.threads, AbsThreads(s.threads);
    var th := a[t].(refs := a[t].refs - multiset{fp});
    AbsPut(a, t, th);
    IdleCredit();
    assert AbsThread(th) == b[t].(refs := b[t].refs - multiset{fp});
    var a1, b1 := a[t := th], b[t := AbsThread(th)];
    AbsPut(a1, to, a1[to].(refs := a1[to].refs + multiset{fp}));
    assert a1[to].refs + multiset{fp} + Credit(a1[to].pc) == a1[to].refs + Credit(a1[to].pc) + multiset{fp};
  }

  lemma PassAbs(s: State2, t: nat, fp: nat, to: nat)
    requires Inv(s) && t < |s.threads| && s.threads[t].pc.Idle2? && CallOk2(s, t, Pass(fp, to))
    ensures WholeCall(Abs(s), [(t, Pass(fp, to))], t, Pass(fp, to), Abs(Begin2(s, t, Pass(fp, to))))
  {
    hide Hash, Inv2, Knows, OnChain;
    var c := Pass(fp, to);
    var s', m := Begin2(s, t, c), Abs(s);
    AbsObjsAre(s', AbsObjs(s)) by {
      forall a ensures OnChain(s', a) <==> a in AbsObjs(s) {
        OnChainSame(s, s', a);
        if OnChain(s, a) { OnlyLive(s, a); }
      }
    }
    PassThreads(s, t, fp, to);
    assert Step(m, t, c, Abs(s'));
    Starts(m, t, c, Abs(s'));
  }

  lemma AbsFree(s: State2, t: nat)
    requires t < |s.threads|
    ensures Free(Abs(s), t) && Abs(s).threads[t].refs == s.threads[t].refs + Credit(s.threads[t].pc)
    ensures s.threads[t].refs + multiset{} == s.threads[t].refs
    ensures forall fp :: s.threads[t].refs + multiset{fp} - multiset{fp} == s.threads[t].refs
  {
    hide AbsObjs, Credit;
  }

  // the two-lock step leaves what the whole one-lock call leaves
  lemma AbsAfter(s: State2, s': State2, t: nat, objs: map<nat, Obj>, refs: multiset<nat>, e: Event)
    requires t < |s.threads| == |s'.threads| && s'.threads == s.threads[t := s'.threads[t]]
             && AbsThread(s'.threads[t]).refs == refs
    requires s'.log == s.log + [e]
    requires forall a :: OnChain(s', a) <==> a in objs
    requires forall a | a in objs && a in s'.objs :: objs[a] == s'.objs[a]
    ensures Abs(s') == At(Abs(s), t, s'.heads, objs, false, {}, Thread(Idle, refs), s.log + [e])
  {
    hide Hash, OnChain, Credit;
    AbsObjsAre(s', objs);
    AbsPut(s.threads, t, s'.threads[t]);
  }

  // t's step left this history, these chain heads and a thread whose references count as refs
  ghost predicate Took(s: State2, t: nat, refs: multiset<nat>, e: Event) {
    && t < |s.threads|
    && var s' := Next2(s, t, Find(0));
       |s'.threads| == |s.threads| && s'.threads == s.threads[t := s'.threads[t]]
         && AbsThread(s'.threads[t]).refs == refs && s'.log == s.log + [e]
  }

  lemma LinkStep(s: State2, t: nat, fp: nat, id: int)
    requires t < |s.threads| && s.threads[t].pc == AHead(fp, id) && fp != 0
    ensures Took(s, t, s.threads[t].refs + multiset{fp}, Allocated(t, fp, id)) && Credit(s.threads[t].pc) == multiset{}
    ensures Next2(s, t, Find(0)).heads == SetHead(s.heads, Hash(id), fp) && Next2(s, t, Find(0)).objs == s.objs
  {
    hide SetHead, Hash, SetChain, ChainAt;
  }

  lemma UnlinkHeadStep(s: State2, t: nat, fp: nat)
    requires t < |s.threads| && s.threads[t].pc == RSetHead(fp) && fp != 0
    ensures Took(s, t, s.threads[t].refs, Released(t, fp, true)) && Credit(s.threads[t].pc) == multiset{fp}
    ensures var s', o := Next2(s, t, Find(0)), ObjAt(s.objs, fp);
    s'.heads == SetHead(s.heads, Hash(o.id), o.next) && s'.objs == s.objs
  {
    hide SetHead, Hash, ObjAt, SetChain, Drop, ChainAt;
    assert s.threads[t].refs + multiset{} == s.threads[t].refs;
  }

  lemma AllocEffect(s: State2, t: nat, fp: nat, id: int) returns (sched: seq<(nat, Call)>)
    requires Inv(s) && t < |s.threads| && s.threads[t].pc == AHead(fp, id)
    ensures WholeCall(Abs(s), sched, t, Alloc(fp, id), Abs(Next2(s, t, Find(0))))
  {
    hide Hash, Inv2, Chained, Counted, Locked, Locals, Placed, Knows, OnChain, AbsObjs, RunsTo, Next2, Credit,
         AbsThread, SetHead, HeadOf;
    Parts(s, t);
    LinkStep(s, t, fp, id);
    PrivateOff(s, t);
    assert Private2(s.threads[t].pc) == fp;
    var s', m := Next2(s, t, Find(0)), Abs(s);
    AbsFree(s, t);
    AbsMember(s, fp);
    sched := AllocRun(m, t, fp, id);
    HeadLinked(s, t, fp, id);
    var objs := m.objs[fp := Obj(1, id, HeadOf(s.heads, Hash(id)))];
    forall a ensures OnChain(s', a) <==> a in objs { AbsMember(s, a); }
    forall a | a in objs && a in s'.objs ensures objs[a] == s'.objs[a] { AbsMember(s, a); }
    AbsAfter(s, s', t, objs, m.threads[t].refs + multiset{fp}, Allocated(t, fp, id));
  }

  lemma AbsMember(s: State2, a: nat)
    ensures a in AbsObjs(s) <==> OnChain(s, a)
    ensures OnChain(s, a) ==> a in s.objs && AbsObjs(s)[a] == s.objs[a]
  {
  }

  // a step that only changes the count of a linked object
  lemma CountEffect(s: State2, s': State2, t: nat, fp: nat, d: int, refs: multiset<nat>, e: Event)
    requires t < |s.threads| == |s'.threads| && s'.threads == s.threads[t := s'.threads[t]]
             && AbsThread(s'.threads[t]).refs == refs
    requires s'.log == s.log + [e] && s'.heads == s.heads && s'.chains == s.chains
    requires OnChain(s, fp) && s'.objs == AddCount(s.objs, fp, d)
    ensures Abs(s') == At(Abs(s), t, s.heads, AddCount(AbsObjs(s), fp, d), false, {}, Thread(Idle, refs), s.log + [e])
  {
    hide Hash, AbsObjs, Credit, AbsThread;
    AbsMember(s, fp);
    var objs := AddCount(AbsObjs(s), fp, d);
    forall a ensures OnChain(s', a) <==> a in objs { AbsMember(s, a); }
    forall a | a in objs && a in s'.objs ensures objs[a] == s'.objs[a] { AbsMember(s, a); }
    AbsAfter(s, s', t, objs, refs, e);
  }

  lemma HoldStep(s: State2, t: nat, fp: nat)
    requires t < |s.threads| && s.threads[t].pc == HInc(fp) && fp in s.threads[t].refs && fp != 0
    ensures Took(s, t, s.threads[t].refs + multiset{fp}, Held(t, fp)) && Credit(s.threads[t].pc) == multiset{}
            && Share(s.threads[t], fp) > 0
    ensures var s' := Next2(s, t, Find(0));
              s'.heads == s.heads && s'.chains == s.chains
              && s'.objs == AddCount(s.objs, fp, 1)
  {
    hide AddCount, Hash;
  }

  lemma HoldEffect(s: State2, t: nat, fp: nat) returns (sched: seq<(nat, Call)>)
    requires Inv(s) && t < |s.threads| && s.threads[t].pc == HInc(fp)
    ensures WholeCall(Abs(s), sched, t, Hold(fp), Abs(Next2(s, t, Find(0))))
  {
    hide Hash, Inv2, Chained, Counted, Locked, Locals, Placed, Knows, OnChain, AbsObjs, RunsTo, Next2, Credit,
         AbsThread, Share, AddCount;
    Parts(s, t);
    SharedNonNull(s, t, fp);
    HoldStep(s, t, fp);
    SharedIsLinked(s, t, fp);
    AbsFree(s, t);
    sched := HoldRun(Abs(s), t, fp);
    CountEffect(s, Next2(s, t, Find(0)), t, fp, 1, s.threads[t].refs + multiset{fp}, Held(t, fp));
  }

  lemma DecStep(s: State2, t: nat, fp: nat)
    requires t < |s.threads| && (s.threads[t].pc == RDec(fp) || s.threads[t].pc == RDec2(fp)) && fp != 0
    ensures Took(s, t, s.threads[t].refs, Released(t, fp, false)) && Credit(s.threads[t].pc) == multiset{fp}
            && Share(s.threads[t], fp) > 0
    ensures Private2(s.threads[t].pc) == 0
    ensures var s' := Next2(s, t, Find(0));
              s'.heads == s.heads && s'.chains == s.chains
              && s'.objs == AddCount(s.objs, fp, -1)
  {
    hide AddCount, Hash;
    assert s.threads[t].refs + multiset{} == s.threads[t].refs;
  }

  lemma IncStep(s: State2, t: nat, id: int, fp: nat)
    requires t < |s.threads| && s.threads[t].pc == FInc(id, fp) && fp != 0
    ensures Took(s, t, s.threads[t].refs + multiset{fp}, Found(t, id, fp)) && Credit(s.threads[t].pc) == multiset{}
    ensures var s' := Next2(s, t, Find(0));
              s'.heads == s.heads && s'.chains == s.chains
              && s'.objs == AddCount(s.objs, fp, 1)
  {
    hide AddCount, Hash;
  }

  lemma UnlinkStep(s: State2, t: nat, fp: nat, tfp: nat)
    requires t < |s.threads| && s.threads[t].pc == RSetNext(fp, tfp) && fp != 0
    ensures Took(s, t, s.threads[t].refs, Released(t, fp, true)) && Credit(s.threads[t].pc) == multiset{fp}
    ensures var s' := Next2(s, t, Find(0));
              s'.heads == s.heads
              && s'.objs == SetNext(s.objs, tfp, ObjAt(s.objs, fp).next)
  {
    hide SetNext, Hash, ObjAt, SetChain, Drop, ChainAt;
    assert s.threads[t].refs + multiset{} == s.threads[t].refs;
  }

  lemma ReleEffect(s: State2, t: nat, fp: nat) returns (sched: seq<(nat, Call)>)
    requires Inv(s) && t < |s.threads| && (s.threads[t].pc == RDec(fp) || s.threads[t].pc == RDec2(fp))
    ensures WholeCall(Abs(s), sched, t, Rele(fp), Abs(Next2(s, t, Find(0))))
  {
    hide Hash, Inv2, Chained, Counted, Locked, Locals, Placed, OnChain, AbsObjs, RunsTo, Next2, Credit, AbsThread,
         Share, AddCount;
    Parts(s, t);
    DecStep(s, t, fp);
    SharedIsLinked(s, t, fp);
    AbsFree(s, t);
    sched := ReleRun(Abs(s), t, fp);
    CountEffect(s, Next2(s, t, Find(0)), t, fp, -1, s.threads[t].refs, Released(t, fp, false));
  }

  lemma SameIds(s: State2, id: int, k: nat)
    requires Chained(s) && 0 !in s.objs && k <= |ChainAt(s.chains, Hash(id))|
    requires forall i | 0 <= i < k :: ObjAt(s.objs, ChainAt(s.chains, Hash(id))[i]).id != id
    ensures forall i | 0 <= i < k :: ObjAt(AbsObjs(s), ChainAt(s.chains, Hash(id))[i]).id != id
  {
    hide Hash, AbsObjs, OnChain, Chained;
    AbsChain(s, Hash(id));
  }

  lemma HitEffect(s: State2, t: nat, id: int, fp: nat) returns (sched: seq<(nat, Call)>)
    requires Inv(s) && t < |s.threads| && s.threads[t].pc == FInc(id, fp)
    ensures WholeCall(Abs(s), sched, t, Find(id), Abs(Next2(s, t, Find(0))))
  {
    hide Hash, Inv2, Chained, Counted, Locked, Locals, Placed, OnChain, AbsObjs, RunsTo, Next2, Credit, AbsThread,
         AddCount;
    Parts(s, t);
    NullOut(s, t);
    ChainLive(s, Hash(id), fp);
    AbsChain(s, Hash(id));
    var ch := ChainAt(s.chains, Hash(id));
    var k: nat :| Reached(s.objs, ch, id, fp, k);
    IncStep(s, t, id, fp);
    AbsFree(s, t);
    SameIds(s, id, k);
    sched := HitRun(Abs(s), t, id, ch, k);
    CountEffect(s, Next2(s, t, Find(0)), t, fp, 1, s.threads[t].refs + multiset{fp}, Found(t, id, fp));
  }

  lemma MissEffect(s: State2, t: nat, id: int) returns (sched: seq<(nat, Call)>)
    requires Inv(s) && t < |s.threads| && s.threads[t].pc == FTest(id, 0)
    ensures WholeCall(Abs(s), sched, t, Find(id), Abs(Next2(s, t, Find(0))))
  {
    hide Hash, Inv2, Chained, Counted, Locked, Locals, Placed, OnChain, AbsObjs, RunsTo;
    Parts(s, t);
    NullOut(s, t);
    AbsChain(s, Hash(id));
    var s', ch := Next2(s, t, Find(0)), ChainAt(s.chains, Hash(id));
    var k: nat :| Reached(s.objs, ch, id, 0, k);
    assert k == |ch|;
    AbsFree(s, t);
    SameIds(s, id, k);
    sched := MissRun(Abs(s), t, id, ch);
    forall a ensures OnChain(s', a) <==> a in AbsObjs(s) { AbsMember(s, a); OnChainSame(s, s', a); }
    forall a | a in AbsObjs(s) && a in s'.objs ensures AbsObjs(s)[a] == s'.objs[a] { AbsMember(s, a); }
    AbsAfter(s, s', t, AbsObjs(s), s.threads[t].refs, Found(t, id, 0));
  }

  lemma LastHeadEffect(s: State2, t: nat, fp: nat) returns (sched: seq<(nat, Call)>)
    requires Inv(s) && t < |s.threads| && s.threads[t].pc == RSetHead(fp)
    ensures WholeCall(Abs(s), sched, t, Rele(fp), Abs(Next2(s, t, Find(0))))
  {
    hide Hash, Inv2, Chained, Counted, Locked, Locals, Placed, OnChain, AbsObjs, RunsTo, Drop, Next2, Credit,
         AbsThread, SetHead, HeadOf, Before, Adjacent;
    Parts(s, t);
    UnlinkHeadStep(s, t, fp);
    AbsMember(s, fp);
    AbsFree(s, t);
    HeadMeans(s, Hash(s.objs[fp].id));
    sched := LastRunHead(Abs(s), t, fp);
    HeadUnlinked(s, t, fp);
    var s', objs := Next2(s, t, Find(0)), AbsObjs(s) - {fp};
    forall a ensures OnChain(s', a) <==> a in objs { AbsMember(s, a); }
    forall a | a in objs && a in s'.objs ensures objs[a] == s'.objs[a] { AbsMember(s, a); }
    AbsAfter(s, s', t, objs, s.threads[t].refs, Released(t, fp, true));
  }

  lemma LastNextEffect(s: State2, t: nat, fp: nat, tfp: nat) returns (sched: seq<(nat, Call)>)
    requires Inv(s) && t < |s.threads| && s.threads[t].pc == RSetNext(fp, tfp)
    ensures WholeCall(Abs(s), sched, t, Rele(fp), Abs(Next2(s, t, Find(0))))
  {
    hide Hash, Inv2, Chained, Counted, Locked, Locals, Placed, OnChain, AbsObjs, RunsTo, Drop, Next2, Credit,
         AbsThread, Before, HeadOf;
    Parts(s, t);
    NullOut(s, t);
    UnlinkStep(s, t, fp, tfp);
    AbsMember(s, fp);
    AbsFree(s, t);
    var ch := ChainOf(s, fp);
    AbsChain(s, Hash(s.objs[fp].id));
    var k: nat :| k < |ch| - 1 && ch[k] == tfp && ch[k + 1] == fp;
    sched := LastRunNext(Abs(s), t, ch, k);
    NextUnlinked(s, t, fp, tfp);
    PredLive(s, fp, tfp);
    var s', objs := Next2(s, t, Find(0)), SetNext(AbsObjs(s), tfp, s.objs[fp].next) - {fp};
    AbsMember(s, tfp);
    forall a ensures OnChain(s', a) <==> a in objs { AbsMember(s, a); }
    forall a | a in objs && a in s'.objs ensures objs[a] == s'.objs[a] { AbsMember(s, a); }
    AbsAfter(s, s', t, objs, s.threads[t].refs, Released(t, fp, true));
  }

  // a thread at pc is executing c, which has not taken effect
  predicate Serves(pc: Pc2, c: Call) {
    match c
    case Alloc(fp, id) => pc == AHash(fp, id) || pc == ANext(fp, id) || pc == AHead(fp, id)
    case Hold(fp) => pc == HObj(fp) || pc == HInc(fp)
    case Find(id) =>
      pc == FHash(id) || pc == FHead(id) || ((pc.FTest? || pc.FObj? || pc.FInc?) && pc.id == id)
    case Rele(fp) =>
      && (pc.RObj? || pc.RTest? || pc.RDec? || pc.RRetry? || pc.RHash? || pc.RObj2? || pc.RTest2? || pc.RDec2?
          || pc.RHead? || pc.RSetHead? || pc.RWalk? || pc.RSetNext?)
      && pc.fp == fp
    case Pass(_, _) => false
  }

  // every step of the two-lock table is no step of the one-lock table, or one call by the same
  // thread, from its first step to its last, where the two-lock call takes effect
  lemma StepRefines(s: State2, t: nat, c: Call, s': State2) returns (d: Call, sched: seq<(nat, Call)>)
    requires Inv(s) && Step2(s, t, c, s')
    ensures Inv(s')
    ensures !Acts(s, t, c) ==> sched == [] && Abs(s') == Abs(s)
    ensures Acts(s, t, c) ==> WholeCall(Abs(s), sched, t, d, Abs(s'))
    ensures Acts(s, t, c) ==> if s.threads[t].pc.Idle2? then d == c else Serves(s.threads[t].pc, d)
  {
    hide Hash, Inv, WholeCall, Effect2, Begin2, CallOk2, Serves;
    StepInv(s, t, c, s');
    d, sched := c, [];
    if s.threads[t].pc.Idle2? {
      if c.Pass? { PassAbs(s, t, c.fp, c.to); sched := [(t, c)]; } else { BeginAbs(s, t, c); }
    } else {
      assert s' == Next2(s, t, Find(0));
      if TakesEffect(s.threads[t].pc) { d, sched := EffectRefines(s, t); } else { SilentStep(s, t); }
    }
  }

  // the step is one at which a call takes effect
  predicate Acts(s: State2, t: nat, c: Call)
    requires t < |s.threads|
  {
    if s.threads[t].pc.Idle2? then c.Pass? else TakesEffect(s.threads[t].pc)
  }

  lemma EffectRefines(s: State2, t: nat) returns (d: Call, sched: seq<(nat, Call)>)
    requires Inv(s) && t < |s.threads| && TakesEffect(s.threads[t].pc)
    ensures WholeCall(Abs(s), sched, t, d, Abs(Next2(s, t, Find(0)))) && Serves(s.threads[t].pc, d)
  {
    hide Hash, Inv, WholeCall, Next2, Abs;
    match s.threads[t].pc {
      case AHead(fp, id) => d := Alloc(fp, id); sched := AllocEffect(s, t, fp, id);
      case HInc(fp) => d := Hold(fp); sched := HoldEffect(s, t, fp);
      case FInc(id, fp) => d := Find(id); sched := HitEffect(s, t, id, fp);
      case FTest(id, fp) => d := Find(id); sched := MissEffect(s, t, id);
      case RDec(fp) => d := Rele(fp); sched := ReleEffect(s, t, fp);
      case RDec2(fp) => d := Rele(fp); sched := ReleEffect(s, t, fp);
      case RSetHead(fp) => d := Rele(fp); sched := LastHeadEffect(s, t, fp);
      case RSetNext(fp, tfp) => d := Rele(fp); sched := LastNextEffect(s, t, fp, tfp);
    }
  }

  // ---- runs ----

  ghost predicate Init(s: State) {
    && s.heads == seq(NHASH, _ => 0) && s.objs == map[] && !s.hash && s.locks == {} && s.log == []
    && forall t | 0 <= t < |s.threads| :: s.threads[t] == Thread(Idle, multiset{})
  }

  // a whole call of the one-lock table, with its steps
  datatype Block = Block(t: nat, c: Call, sched: seq<(nat, Call)>)

  // whole calls one after the other, nothing in between
  ghost predicate Serial(s: State, blocks: seq<Block>, s': State)
    decreases |blocks|
  {
    if blocks == [] then s == s'
    else
      var n := |blocks| - 1;
      exists m :: Serial(s, blocks[..n], m) && WholeCall(m, blocks[n].sched, blocks[n].t, blocks[n].c, s')
  }

  function Flat(blocks: seq<Block>): seq<(nat, Call)> {
    if blocks == [] then [] else Flat(blocks[..|blocks| - 1]) + blocks[|blocks| - 1].sched
  }

  // calls made one after the other are a run of the one-lock table
  lemma {:induction false} SerialReaches(s: State, blocks: seq<Block>, s': State)
    requires Serial(s, blocks, s')
    ensures Reaches(s, Flat(blocks), s')
    decreases |blocks|
  {
    hide Inside, Begin, CallOk;
    if blocks == [] {
    } else {
      hide Reaches;
      var n := |blocks| - 1;
      var b := blocks[n];
      var m :| Serial(s, blocks[..n], m) && WholeCall(m, b.sched, b.t, b.c, s');
      SerialReaches(s, blocks[..n], m);
      WholeReaches(m, b.sched, b.t, b.c, s');
      ReachesThen(s, Flat(blocks[..n]), m, b.sched, s');
    }
  }

  lemma SerialThen(s: State, blocks: seq<Block>, m: State, b: Block, s': State)
    requires Serial(s, blocks, m) && WholeCall(m, b.sched, b.t, b.c, s')
    ensures Serial(s, blocks + [b], s')
  {
    hide WholeCall;
    assert (blocks + [b])[..|blocks|] == blocks;
  }

  // every run of the two-lock table, of any length and by any number of threads, projects onto a
  // run of the one-lock table that makes whole calls one after the other, with the same history of
  // calls and results
  lemma {:induction false} RunRefines(trace: seq<State2>) returns (blocks: seq<Block>)
    requires Run2(trace)
    ensures Init(Abs(trace[0])) && Serial(Abs(trace[0]), blocks, Abs(trace[|trace| - 1]))
    ensures Reaches(Abs(trace[0]), Flat(blocks), Abs(trace[|trace| - 1]))
    ensures Inv(trace[|trace| - 1]) && Abs(trace[|trace| - 1]).log == trace[|trace| - 1].log
    decreases |trace|
  {
    hide Hash, Inv, Reaches, WholeCall, Acts, Step2, Init2, AbsObjs;
    var n := |trace| - 1;
    if n == 0 {
      InitRefines(trace[0]);
      blocks := [];
    } else {
      var prefix := trace[..n];
      forall i | 0 <= i < n - 1 ensures StepsTo(prefix[i], prefix[i + 1]) { assert StepsTo(trace[i], trace[i + 1]); }
      blocks := RunRefines(prefix);
      assert StepsTo(trace[n - 1], trace[n]);
      var t, c :| 0 <= t < |trace[n - 1].threads| && Step2(trace[n - 1], t, c, trace[n]);
      var d, sched := StepRefines(trace[n - 1], t, c, trace[n]);
      if Acts(trace[n - 1], t, c) {
        SerialThen(Abs(trace[0]), blocks, Abs(trace[n - 1]), Block(t, d, sched), Abs(trace[n]));
        blocks := blocks + [Block(t, d, sched)];
      }
    }
    SerialReaches(Abs(trace[0]), blocks, Abs(trace[n]));
  }

  lemma InitRefines(s: State2)
    requires Init2(s)
    ensures Inv(s) && Init(Abs(s))
  {
    InitInv2(s);
    hide Hash, Inv2;
    assert AbsObjs(s) == map[];
  }
}
