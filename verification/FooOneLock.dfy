/**
 The reference-counted object table protected by one lock (hashlock), as a step machine.  One
 step is one lock call or one read or write of shared memory.
 */
module FooOneLock {

  const NHASH := 29

  // ((unsigned long)id) % NHASH
  function Hash(id: int): (h: nat)
    ensures h < NHASH
  {
    id % 0x1_0000_0000_0000_0000 % NHASH
  }

  // address 0 is NULL
  datatype Obj = Obj(count: int, id: int, next: nat)

  // what a call did, recorded at the instant it takes effect
  datatype Event =
    | Allocated(t: nat, fp: nat, id: int)
    | Held(t: nat, fp: nat)
    | Found(t: nat, id: int, fp: nat)
    | Released(t: nat, fp: nat, last: bool)

  datatype Pc =
    | Idle
    // foo_alloc, the object already filled in
    | AllocLock(fp: nat, id: int)
    | AllocNext(fp: nat, id: int)
    | AllocHead(fp: nat, id: int)
    | AllocLockObj(fp: nat)
    | AllocUnlock(fp: nat)
    | AllocUnlockObj(fp: nat)
    // foo_hold
    | HoldLock(fp: nat)
    | HoldInc(fp: nat)
    | HoldUnlock(fp: nat)
    // foo_find
    | FindLock(id: int)
    | FindHead(id: int)
    | FindTest(id: int, fp: nat)
    | FindInc(id: int, fp: nat)
    | FindUnlock(fp: nat)
    // foo_rele
    | ReleLock(fp: nat)
    | ReleDec(fp: nat)
    | ReleHead(fp: nat)
    | ReleSetHead(fp: nat)
    | ReleWalk(fp: nat, tfp: nat)
    | ReleSetNext(fp: nat, tfp: nat)
    | ReleUnlock
    | ReleUnlockLast(fp: nat)
    | ReleFree(fp: nat)

  datatype Thread = Thread(pc: Pc, refs: multiset<nat>)

  datatype State = State(
    heads: seq<nat>,         // fh
    objs: map<nat, Obj>,     // live memory
    hash: bool,              // hashlock is held
    locks: set<nat>,         // objects whose f_lock is held
    threads: seq<Thread>,
    log: seq<Event>)

  // the call an idle thread makes; an allocation comes with the address malloc returns
  datatype Call =
    | Alloc(fp: nat, id: int)
    | Hold(fp: nat)
    | Find(id: int)
    | Rele(fp: nat)
    | Pass(fp: nat, to: nat)   // hand a reference to another thread

  // callers use only objects they hold a reference to; malloc returns memory not in use
  predicate CallOk(s: State, t: nat, c: Call)
    requires t < |s.threads|
  {
    match c
    case Alloc(fp, _) => fp != 0 && fp !in s.objs
    case Hold(fp) => fp in s.threads[t].refs
    case Find(_) => true
    case Rele(fp) => fp in s.threads[t].refs
    case Pass(fp, to) => fp in s.threads[t].refs && to < |s.threads|
  }

  function HeadOf(heads: seq<nat>, h: nat): nat { if h < |heads| then heads[h] else 0 }

  function SetHead(heads: seq<nat>, h: nat, v: nat): seq<nat> { if h < |heads| then heads[h := v] else heads }

  function ObjAt(objs: map<nat, Obj>, a: nat): Obj { if a in objs then objs[a] else Obj(0, 0, 0) }

  function SetNext(objs: map<nat, Obj>, a: nat, v: nat): map<nat, Obj> { objs[a := ObjAt(objs, a).(next := v)] }

  function AddCount(objs: map<nat, Obj>, a: nat, d: int): map<nat, Obj> {
    objs[a := ObjAt(objs, a).(count := ObjAt(objs, a).count + d)]
  }

  function Move(s: State, t: nat, pc: Pc): State
    requires t < |s.threads|
  {
    s.(threads := s.threads[t := s.threads[t].(pc := pc)])
  }

  function Gain(s: State, t: nat, fp: nat): State
    requires t < |s.threads|
  {
    s.(threads := s.threads[t := s.threads[t].(pc := Idle, refs := s.threads[t].refs + multiset{fp})])
  }

  function Begin(s: State, t: nat, c: Call): State
    requires t < |s.threads|
  {
    var th := s.threads[t];
    match c
    case Alloc(fp, id) => Move(s.(objs := s.objs[fp := Obj(1, id, 0)]), t, AllocLock(fp, id))
    case Hold(fp) => Move(s, t, HoldLock(fp))
    case Find(id) => Move(s, t, FindLock(id))
    case Rele(fp) => s.(threads := s.threads[t := Thread(ReleLock(fp), th.refs - multiset{fp})])
    case Pass(fp, to) =>
      if to >= |s.threads| then s else
      var ths := s.threads[t := th.(refs := th.refs - multiset{fp})];
      s.(threads := ths[to := ths[to].(refs := ths[to].refs + multiset{fp})])
  }

  // a lock call that finds the lock taken waits
  predicate Enabled(s: State, t: nat) {
    t < |s.threads| &&
    match s.threads[t].pc
    case AllocLock(_, _) => !s.hash
    case HoldLock(_) => !s.hash
    case FindLock(_) => !s.hash
    case ReleLock(_) => !s.hash
    case AllocLockObj(fp) => fp !in s.locks
    case _ => true
  }

  function Next(s: State, t: nat, c: Call): State
    requires t < |s.threads|
  {
    match s.threads[t].pc
    case Idle => Begin(s, t, c)
    case AllocLock(fp, id) => Move(s.(hash := true), t, AllocNext(fp, id))
    case AllocNext(fp, id) => Move(s.(objs := SetNext(s.objs, fp, HeadOf(s.heads, Hash(id)))), t, AllocHead(fp, id))
    case AllocHead(fp, id) =>
      Move(s.(heads := SetHead(s.heads, Hash(id), fp), log := s.log + [Allocated(t, fp, id)]), t, AllocLockObj(fp))
    case AllocLockObj(fp) => Move(s.(locks := s.locks + {fp}), t, AllocUnlock(fp))
    case AllocUnlock(fp) => Move(s.(hash := false), t, AllocUnlockObj(fp))
    case AllocUnlockObj(fp) => Gain(s.(locks := s.locks - {fp}), t, fp)
    case HoldLock(fp) => Move(s.(hash := true), t, HoldInc(fp))
    case HoldInc(fp) => Move(s.(objs := AddCount(s.objs, fp, 1), log := s.log + [Held(t, fp)]), t, HoldUnlock(fp))
    case HoldUnlock(fp) => Gain(s.(hash := false), t, fp)
    case FindLock(id) => Move(s.(hash := true), t, FindHead(id))
    case FindHead(id) => Move(s, t, FindTest(id, HeadOf(s.heads, Hash(id))))
    case FindTest(id, fp) =>
      if fp == 0 then Move(s.(log := s.log + [Found(t, id, 0)]), t, FindUnlock(0))
      else if ObjAt(s.objs, fp).id == id then Move(s, t, FindInc(id, fp))
      else Move(s, t, FindTest(id, ObjAt(s.objs, fp).next))
    case FindInc(id, fp) => Move(s.(objs := AddCount(s.objs, fp, 1), log := s.log + [Found(t, id, fp)]), t,
      FindUnlock(fp))
    case FindUnlock(fp) => if fp == 0 then Move(s.(hash := false), t, Idle) else Gain(s.(hash := false), t, fp)
    case ReleLock(fp) => Move(s.(hash := true), t, ReleDec(fp))
    case ReleDec(fp) =>
      var last := ObjAt(s.objs, fp).count == 1;
      Move(s.(objs := AddCount(s.objs, fp, -1), log := s.log + [Released(t, fp, last)]), t, if last then ReleHead(fp)
        else ReleUnlock)
    case ReleHead(fp) =>
      var tfp := HeadOf(s.heads, Hash(ObjAt(s.objs, fp).id));
      Move(s, t, if tfp == fp then ReleSetHead(fp) else ReleWalk(fp, tfp))
    case ReleSetHead(fp) =>
      var o := ObjAt(s.objs, fp);
      Move(s.(heads := SetHead(s.heads, Hash(o.id), o.next)), t, ReleUnlockLast(fp))
    case ReleWalk(fp, tfp) =>
      var next := ObjAt(s.objs, tfp).next;
      Move(s, t, if next == fp then ReleSetNext(fp, tfp) else ReleWalk(fp, next))
    case ReleSetNext(fp, tfp) => Move(s.(objs := SetNext(s.objs, tfp, ObjAt(s.objs, fp).next)), t, ReleUnlockLast(fp))
    case ReleUnlock => Move(s.(hash := false), t, Idle)
    case ReleUnlockLast(fp) => Move(s.(hash := false), t, ReleFree(fp))
    case ReleFree(fp) => Move(s.(objs := s.objs - {fp}), t, Idle)
  }

  ghost predicate Step(s: State, t: nat, c: Call, s': State) {
    Enabled(s, t) && (s.threads[t].pc.Idle? ==> CallOk(s, t, c)) && s' == Next(s, t, c)
  }

  // a schedule: who steps, and the call made if it is idle
  ghost predicate Reaches(s: State, sched: seq<(nat, Call)>, s': State)
    decreases |sched|
  {
    if sched == [] then s == s'
    else
      var (t, c) := sched[0];
      t < |s.threads| && Step(s, t, c, Next(s, t, c)) && Reaches(Next(s, t, c), sched[1..], s')
  }

  lemma {:induction false} ReachesThen(s: State, a: seq<(nat, Call)>, m: State, b: seq<(nat, Call)>, s': State)
    requires Reaches(s, a, m) && Reaches(m, b, s')
    ensures Reaches(s, a + b, s')
    decreases |a|
  {
    if a == [] {
      assert a + b == b;
    } else {
      assert (a + b)[0] == a[0] && (a + b)[1..] == a[1..] + b;
      ReachesThen(Next(s, a[0].0, a[0].1), a[1..], m, b, s');
    }
  }
}
