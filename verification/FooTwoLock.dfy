/**
 The same table under two kinds of locks: hashlock protects the chains, each object's f_lock
 protects its count.  foo_rele gives up f_lock before it takes hashlock, so it must look at the
 count again.  One step is one lock call or one read or write of shared memory.
 */
module FooTwoLock {
  import opened One = FooOneLock

  datatype Pc2 =
    | Idle2
    // foo_alloc
    | AHash(fp: nat, id: int)        // lock hashlock
    | ANext(fp: nat, id: int)        // fp->f_next = fh[idx]
    | AHead(fp: nat, id: int)        // fh[idx] = fp
    | AObj(fp: nat)                  // lock f_lock
    | AUnhash(fp: nat)               // unlock hashlock
    | AUnobj(fp: nat)                // unlock f_lock
    // foo_hold
    | HObj(fp: nat)
    | HInc(fp: nat)
    | HUnobj(fp: nat)
    // foo_find
    | FHash(id: int)
    | FHead(id: int)
    | FTest(id: int, fp: nat)
    | FObj(id: int, fp: nat)
    | FInc(id: int, fp: nat)
    | FUnobj(fp: nat)
    | FUnhash(fp: nat)
    // foo_rele
    | RObj(fp: nat)                  // lock f_lock
    | RTest(fp: nat)                 // f_count == 1 ?
    | RDec(fp: nat)
    | RUnobj(fp: nat)
    | RRetry(fp: nat)                // unlock f_lock
    | RHash(fp: nat)                 // lock hashlock
    | RObj2(fp: nat)                 // lock f_lock again
    | RTest2(fp: nat)                // f_count != 1 ?
    | RDec2(fp: nat)
    | RUnobj2(fp: nat)
    | RUnhash2
    | RHead(fp: nat)
    | RSetHead(fp: nat)
    | RWalk(fp: nat, tfp: nat)
    | RSetNext(fp: nat, tfp: nat)
    | RUnhash3(fp: nat)
    | RUnobj3(fp: nat)
    | RFree(fp: nat)

  datatype Thread2 = Thread2(pc: Pc2, refs: multiset<nat>)

  datatype State2 = State2(
    heads: seq<nat>,
    objs: map<nat, Obj>,
    hash: bool,
    locks: set<nat>,
    threads: seq<Thread2>,
    log: seq<Event>,
    chains: seq<seq<nat>>)   // auxiliary: the objects linked from each head, in order

  predicate CallOk2(s: State2, t: nat, c: Call)
    requires t < |s.threads|
  {
    match c
    case Alloc(fp, _) => fp != 0 && fp !in s.objs
    case Hold(fp) => fp in s.threads[t].refs
    case Find(_) => true
    case Rele(fp) => fp in s.threads[t].refs
    case Pass(fp, to) => fp in s.threads[t].refs && to < |s.threads|
  }

  predicate Enabled2(s: State2, t: nat) {
    t < |s.threads| &&
    match s.threads[t].pc
    case AHash(_, _) => !s.hash
    case FHash(_) => !s.hash
    case RHash(_) => !s.hash
    case AObj(fp) => fp !in s.locks
    case HObj(fp) => fp !in s.locks
    case FObj(_, fp) => fp !in s.locks
    case RObj(fp) => fp !in s.locks
    case RObj2(fp) => fp !in s.locks
    case _ => true
  }

  // the shared memory a step leaves behind
  datatype Mem = Mem(heads: seq<nat>, objs: map<nat, Obj>, hash: bool, locks: set<nat>, log: seq<Event>,
      chains: seq<seq<nat>>)

  function MemOf(s: State2): Mem { Mem(s.heads, s.objs, s.hash, s.locks, s.log, s.chains) }

  function ChainAt(chains: seq<seq<nat>>, h: nat): seq<nat> { if h < |chains| then chains[h] else [] }

  function SetChain(chains: seq<seq<nat>>, h: nat, c: seq<nat>): seq<seq<nat>> {
    if h < |chains| then chains[h := c] else chains
  }

  function Drop(c: seq<nat>, a: nat): seq<nat> {
    if c == [] then [] else if c[0] == a then c[1..] else [c[0]] + Drop(c[1..], a)
  }

  // the effect of thread t's step at position pc
  function Effect2(m: Mem, t: nat, th: Thread2): (Mem, Thread2) {
    match th.pc
    case Idle2 => (m, th)
    case AHash(fp, id) => (m.(hash := true), th.(pc := ANext(fp, id)))
    case ANext(fp, id) => (m.(objs := SetNext(m.objs, fp, HeadOf(m.heads, Hash(id)))), th.(pc := AHead(fp, id)))
    case AHead(fp, id) =>
      (m.(heads := SetHead(m.heads, Hash(id), fp), log := m.log + [Allocated(t, fp, id)],
          chains := SetChain(m.chains, Hash(id), [fp] + ChainAt(m.chains, Hash(id)))), th.(pc := AObj(fp)))
    case AObj(fp) => (m.(locks := m.locks + {fp}), th.(pc := AUnhash(fp)))
    case AUnhash(fp) => (m.(hash := false), th.(pc := AUnobj(fp)))
    case AUnobj(fp) => (m.(locks := m.locks - {fp}), Thread2(Idle2, th.refs + multiset{fp}))
    case HObj(fp) => (m.(locks := m.locks + {fp}), th.(pc := HInc(fp)))
    case HInc(fp) => (m.(objs := AddCount(m.objs, fp, 1), log := m.log + [Held(t, fp)]), th.(pc := HUnobj(fp)))
    case HUnobj(fp) => (m.(locks := m.locks - {fp}), Thread2(Idle2, th.refs + multiset{fp}))
    case FHash(id) => (m.(hash := true), th.(pc := FHead(id)))
    case FHead(id) => (m, th.(pc := FTest(id, HeadOf(m.heads, Hash(id)))))
    case FTest(id, fp) =>
      if fp == 0 then (m.(log := m.log + [Found(t, id, 0)]), th.(pc := FUnhash(0)))
      else if ObjAt(m.objs, fp).id == id then (m, th.(pc := FObj(id, fp)))
      else (m, th.(pc := FTest(id, ObjAt(m.objs, fp).next)))
    case FObj(id, fp) => (m.(locks := m.locks + {fp}), th.(pc := FInc(id, fp)))
    case FInc(id, fp) => (m.(objs := AddCount(m.objs, fp, 1), log := m.log + [Found(t, id, fp)]), th.(pc := FUnobj(fp)))
    case FUnobj(fp) => (m.(locks := m.locks - {fp}), th.(pc := FUnhash(fp)))
    case FUnhash(fp) => (m.(hash := false), if fp == 0 then th.(pc := Idle2)
      else Thread2(Idle2, th.refs + multiset{fp}))
    case RObj(fp) => (m.(locks := m.locks + {fp}), th.(pc := RTest(fp)))
    case RTest(fp) => (m, th.(pc := if ObjAt(m.objs, fp).count == 1 then RRetry(fp) else RDec(fp)))
    case RDec(fp) => (m.(objs := AddCount(m.objs, fp, -1), log := m.log + [Released(t, fp, false)]),
      th.(pc := RUnobj(fp)))
    case RUnobj(fp) => (m.(locks := m.locks - {fp}), th.(pc := Idle2))
    case RRetry(fp) => (m.(locks := m.locks - {fp}), th.(pc := RHash(fp)))
    case RHash(fp) => (m.(hash := true), th.(pc := RObj2(fp)))
    case RObj2(fp) => (m.(locks := m.locks + {fp}), th.(pc := RTest2(fp)))
    case RTest2(fp) => (m, th.(pc := if ObjAt(m.objs, fp).count != 1 then RDec2(fp) else RHead(fp)))
    case RDec2(fp) => (m.(objs := AddCount(m.objs, fp, -1), log := m.log + [Released(t, fp, false)]),
      th.(pc := RUnobj2(fp)))
    case RUnobj2(fp) => (m.(locks := m.locks - {fp}), th.(pc := RUnhash2))
    case RUnhash2 => (m.(hash := false), th.(pc := Idle2))
    case RHead(fp) =>
      var tfp := HeadOf(m.heads, Hash(ObjAt(m.objs, fp).id));
      (m, th.(pc := if tfp == fp then RSetHead(fp) else RWalk(fp, tfp)))
    case RSetHead(fp) =>
      var o := ObjAt(m.objs, fp);
      (m.(heads := SetHead(m.heads, Hash(o.id), o.next), log := m.log + [Released(t, fp, true)],
          chains := SetChain(m.chains, Hash(o.id), Drop(ChainAt(m.chains, Hash(o.id)), fp))), th.(pc := RUnhash3(fp)))
    case RWalk(fp, tfp) =>
      var next := ObjAt(m.objs, tfp).next;
      (m, th.(pc := if next == fp then RSetNext(fp, tfp) else RWalk(fp, next)))
    case RSetNext(fp, tfp) =>
      var o := ObjAt(m.objs, fp);
      (m.(objs := SetNext(m.objs, tfp, o.next), log := m.log + [Released(t, fp, true)],
          chains := SetChain(m.chains, Hash(o.id), Drop(ChainAt(m.chains, Hash(o.id)), fp))), th.(pc := RUnhash3(fp)))
    case RUnhash3(fp) => (m.(hash := false), th.(pc := RUnobj3(fp)))
    case RUnobj3(fp) => (m.(locks := m.locks - {fp}), th.(pc := RFree(fp)))
    case RFree(fp) => (m.(objs := m.objs - {fp}), th.(pc := Idle2))
  }

  function Put(s: State2, t: nat, m: Mem, th: Thread2): State2
    requires t < |s.threads|
  {
    State2(m.heads, m.objs, m.hash, m.locks, s.threads[t := th], m.log, m.chains)
  }

  function Begin2(s: State2, t: nat, c: Call): State2
    requires t < |s.threads|
  {
    var th := s.threads[t];
    match c
    case Alloc(fp, id) => Put(s, t, MemOf(s).(objs := s.objs[fp := Obj(1, id, 0)]), th.(pc := AHash(fp, id)))
    case Hold(fp) => Put(s, t, MemOf(s), th.(pc := HObj(fp)))
    case Find(id) => Put(s, t, MemOf(s), th.(pc := FHash(id)))
    case Rele(fp) => Put(s, t, MemOf(s), Thread2(RObj(fp), th.refs - multiset{fp}))
    case Pass(fp, to) =>
      if to >= |s.threads| then s else
      var s1 := Put(s, t, MemOf(s), th.(refs := th.refs - multiset{fp}));
      s1.(threads := s1.threads[to := s1.threads[to].(refs := s1.threads[to].refs + multiset{fp})])
  }

  function Next2(s: State2, t: nat, c: Call): State2
    requires t < |s.threads|
  {
    if s.threads[t].pc.Idle2? then Begin2(s, t, c)
    else var (m, th) := Effect2(MemOf(s), t, s.threads[t]); Put(s, t, m, th)
  }

  ghost predicate Step2(s: State2, t: nat, c: Call, s': State2) {
    Enabled2(s, t) && (s.threads[t].pc.Idle2? ==> CallOk2(s, t, c)) && s' == Next2(s, t, c)
  }

  ghost predicate Init2(s: State2) {
    && s.heads == seq(NHASH, _ => 0) && s.chains == seq(NHASH, _ => []) && s.objs == map[] && !s.hash && s.locks == {}
      && s.log == []
    && forall t | 0 <= t < |s.threads| :: s.threads[t] == Thread2(Idle2, multiset{})
  }

  ghost predicate StepsTo(s: State2, s': State2) { exists t, c :: 0 <= t < |s.threads| && Step2(s, t, c, s') }

  // a run: any number of threads, any interleaving, any calls
  ghost predicate Run2(trace: seq<State2>) {
    |trace| > 0 && Init2(trace[0]) && forall i | 0 <= i < |trace| - 1 :: StepsTo(trace[i], trace[i + 1])
  }

  // ---- what a thread holds ----

  predicate HasHash(pc: Pc2) {
    match pc
    case ANext(_, _) => true
    case AHead(_, _) => true
    case AObj(_) => true
    case AUnhash(_) => true
    case FHead(_) => true
    case FTest(_, _) => true
    case FObj(_, _) => true
    case FInc(_, _) => true
    case FUnobj(_) => true
    case FUnhash(_) => true
    case RObj2(_) => true
    case RTest2(_) => true
    case RDec2(_) => true
    case RUnobj2(_) => true
    case RUnhash2 => true
    case RHead(_) => true
    case RSetHead(_) => true
    case RWalk(_, _) => true
    case RSetNext(_, _) => true
    case RUnhash3(_) => true
    case _ => false
  }

  // the object whose f_lock the thread holds; 0 for none
  function HasObj(pc: Pc2): nat {
    match pc
    case AUnhash(fp) => fp
    case AUnobj(fp) => fp
    case HInc(fp) => fp
    case HUnobj(fp) => fp
    case FInc(_, fp) => fp
    case FUnobj(fp) => fp
    case RTest(fp) => fp
    case RDec(fp) => fp
    case RUnobj(fp) => fp
    case RRetry(fp) => fp
    case RTest2(fp) => fp
    case RDec2(fp) => fp
    case RUnobj2(fp) => fp
    case RHead(fp) => fp
    case RSetHead(fp) => fp
    case RWalk(fp, _) => fp
    case RSetNext(fp, _) => fp
    case RUnhash3(fp) => fp
    case RUnobj3(fp) => fp
    case _ => 0
  }

  // the object to which a call in progress contributes one reference; 0 for none
  function Owed(pc: Pc2): nat {
    match pc
    case AHash(fp, _) => fp
    case ANext(fp, _) => fp
    case AHead(fp, _) => fp
    case AObj(fp) => fp
    case AUnhash(fp) => fp
    case AUnobj(fp) => fp
    case HUnobj(fp) => fp
    case FUnobj(fp) => fp
    case FUnhash(fp) => fp
    case RObj(fp) => fp
    case RTest(fp) => fp
    case RDec(fp) => fp
    case RRetry(fp) => fp
    case RHash(fp) => fp
    case RObj2(fp) => fp
    case RTest2(fp) => fp
    case RDec2(fp) => fp
    case RHead(fp) => fp
    case RSetHead(fp) => fp
    case RWalk(fp, _) => fp
    case RSetNext(fp, _) => fp
    case RUnhash3(fp) => fp
    case RUnobj3(fp) => fp
    case RFree(fp) => fp
    case _ => 0
  }

  // an object that exists but is on no chain, and the thread bringing it in or taking it out
  function Private2(pc: Pc2): nat {
    match pc
    case AHash(fp, _) => fp
    case ANext(fp, _) => fp
    case AHead(fp, _) => fp
    case RUnhash3(fp) => fp
    case RUnobj3(fp) => fp
    case RFree(fp) => fp
    case _ => 0
  }

  // the objects whose memory the next step reads or writes
  function Touches(m: Mem, pc: Pc2): set<nat> {
    match pc
    case ANext(fp, _) => {fp}
    case AHead(fp, _) => {fp}
    case AObj(fp) => {fp}
    case AUnobj(fp) => {fp}
    case HObj(fp) => {fp}
    case HInc(fp) => {fp}
    case HUnobj(fp) => {fp}
    case FTest(_, fp) => if fp == 0 then {} else {fp}
    case FObj(_, fp) => {fp}
    case FInc(_, fp) => {fp}
    case FUnobj(fp) => {fp}
    case RObj(fp) => {fp}
    case RTest(fp) => {fp}
    case RDec(fp) => {fp}
    case RUnobj(fp) => {fp}
    case RRetry(fp) => {fp}
    case RObj2(fp) => {fp}
    case RTest2(fp) => {fp}
    case RDec2(fp) => {fp}
    case RUnobj2(fp) => {fp}
    case RHead(fp) => {fp}
    case RSetHead(fp) => {fp}
    case RWalk(fp, tfp) => {tfp}
    case RSetNext(fp, tfp) => {fp, tfp}
    case RUnobj3(fp) => {fp}
    case RFree(fp) => {fp}
    case _ => {}
  }
}
