/**
 The three-member System V semaphore set behind sem_create, sem_close and sem_op, as a step machine.
 */
module Semaph {

  // One step is one system call, or the exit of a process, at which the kernel adds the process's
  // undo values back.  Member [0] is the semaphore, [1] counts down the users from BIGCOUNT, [2] is
  // a lock.

  const BIGCOUNT := 10000

  datatype Pc =
    | Idle
    // sem_create
    | CGet(initval: nat)                  // semget
    | CLock(initval: nat, id: nat)        // semop op_lock
    | CCount(initval: nat, id: nat)       // semctl GETVAL [1]
    | CSet0(initval: nat, id: nat)        // semctl SETVAL [0]
    | CSet1(id: nat)                      // semctl SETVAL [1]
    | CEnd(id: nat)                       // semop op_endcreate
    // sem_close
    | XLock(id: nat)                      // semop op_close
    | XCount(id: nat)                     // semctl GETVAL [1]
    | XRemove(id: nat)                    // semctl IPC_RMID
    | XUnlock(id: nat)                    // semop op_unlock
    // sem_op
    | Op(id: nat, amount: int)            // semop op_op

  // joined: sem_create calls returned and not yet closed, all on set id; adj0..2: the undo values
  datatype Proc = Proc(pc: Pc, joined: nat, id: nat, adj0: int, adj1: int, adj2: int)

  // live: the key's set exists, its identifier is gen; identifiers are never reused
  // inited, init, lost are auxiliary: [1] has been set, the value [0] was set to, and what the
  // kernel dropped when an undo would have made [0] negative
  datatype State = State(live: bool, gen: nat, v0: nat, v1: nat, v2: nat, inited: bool, init: nat, lost: nat,
      ps: seq<Proc>)

  datatype Call = Create(initval: nat) | Close | Change(amount: int)

  datatype Act = Go(call: Call) | Exit

  const FRESH := Proc(Idle, 0, 0, 0, 0, 0)

  function Clamp(x: int): nat { if x < 0 then 0 else x }

  // the kernel's exit processing; the slot is free for a new process
  function Exited(s: State, p: nat): State
    requires p < |s.ps|
  {
    var q := s.ps[p];
    if !s.live then s.(ps := s.ps[p := FRESH])
    else s.(v0 := Clamp(s.v0 + q.adj0), v1 := Clamp(s.v1 + q.adj1), v2 := Clamp(s.v2 + q.adj2),
            lost := s.lost + Clamp(-(s.v0 + q.adj0)), ps := s.ps[p := FRESH])
  }

  function Jump(s: State, p: nat, pc: Pc): State
    requires p < |s.ps|
  {
    s.(ps := s.ps[p := s.ps[p].(pc := pc)])
  }

  // SETVAL forgets every process's undo value for that member; IPC_RMID forgets them all
  function Clear0(ps: seq<Proc>): (r: seq<Proc>) { seq(|ps|, i requires 0 <= i < |ps| => ps[i].(adj0 := 0)) }

  function Clear1(ps: seq<Proc>): (r: seq<Proc>) { seq(|ps|, i requires 0 <= i < |ps| => ps[i].(adj1 := 0)) }

  function ClearAll(ps: seq<Proc>): (r: seq<Proc>) {
    seq(|ps|, i requires 0 <= i < |ps| => ps[i].(adj0 := 0, adj1 := 0, adj2 := 0))
  }

  predicate Is(s: State, id: nat) { s.live && s.gen == id }

  // a semop that cannot be carried out as a whole waits; on a set that is gone it fails at once
  predicate Enabled(s: State, p: nat) {
    p < |s.ps| &&
    match s.ps[p].pc
    case CLock(_, id) => Is(s, id) ==> s.v2 == 0
    case CEnd(id) => Is(s, id) ==> s.v1 >= 1 && s.v2 >= 1
    case XLock(id) => Is(s, id) ==> s.v2 == 0
    case XUnlock(id) => Is(s, id) ==> s.v2 >= 1
    case Op(id, amount) => Is(s, id) ==> s.v0 + amount >= 0
    case _ => true
  }

  // only users close or operate
  predicate CallOk(q: Proc, c: Call) { c.Create? || q.joined > 0 }

  function Begin(s: State, p: nat, c: Call): State
    requires p < |s.ps|
  {
    match c
    case Create(initval) => Jump(s, p, CGet(initval))
    case Close => Jump(s, p, XLock(s.ps[p].id))
    case Change(amount) => if amount == 0 then Exited(s, p) else Jump(s, p, Op(s.ps[p].id, amount))
  }

  function Next(s: State, p: nat, c: Call): State
    requires p < |s.ps|
  {
    var q := s.ps[p];
    match q.pc
    case Idle => Begin(s, p, c)
    case CGet(initval) =>
      if s.live then Jump(s, p, CLock(initval, s.gen))
      else Jump(s.(live := true, gen := s.gen + 1, v0 := 0, v1 := 0, v2 := 0, inited := false, init := 0, lost := 0),
        p, CLock(initval, s.gen + 1))
    case CLock(initval, id) =>
      if !Is(s, id) then Jump(s, p, CGet(initval))
      else s.(v2 := s.v2 + 1, ps := s.ps[p := q.(pc := CCount(initval, id), adj2 := q.adj2 - 1)])
    case CCount(initval, id) =>
      if !Is(s, id) then Exited(s, p)
      else Jump(s, p, if s.v1 == 0 then CSet0(initval, id) else CEnd(id))
    case CSet0(initval, id) =>
      if !Is(s, id) then Exited(s, p)
      else Jump(s.(v0 := initval, init := initval, lost := 0, ps := Clear0(s.ps)), p, CSet1(id))
    case CSet1(id) =>
      if !Is(s, id) then Exited(s, p)
      else Jump(s.(v1 := BIGCOUNT, inited := true, ps := Clear1(s.ps)), p, CEnd(id))
    case CEnd(id) =>
      if !Is(s, id) || s.v1 < 1 || s.v2 < 1 then Exited(s, p)
      else s.(v1 := s.v1 - 1, v2 := s.v2 - 1,
              ps := s.ps[p := q.(pc := Idle, joined := q.joined + 1, id := id, adj1 := q.adj1 + 1, adj2 := q.adj2 + 1)])
    case XLock(id) =>
      if !Is(s, id) || q.joined == 0 then Exited(s, p)
      else s.(v1 := s.v1 + 1, v2 := s.v2 + 1,
              ps := s.ps[p := q.(pc := XCount(id), joined := q.joined - 1, adj1 := q.adj1 - 1, adj2 := q.adj2 - 1)])
    case XCount(id) =>
      if !Is(s, id) || s.v1 > BIGCOUNT then Exited(s, p)
      else Jump(s, p, if s.v1 == BIGCOUNT then XRemove(id) else XUnlock(id))
    case XRemove(id) =>
      if !Is(s, id) then Exited(s, p)
      else Jump(s.(live := false, v0 := 0, v1 := 0, v2 := 0, inited := false, init := 0, lost := 0,
        ps := ClearAll(s.ps)), p, Idle)
    case XUnlock(id) =>
      if !Is(s, id) || s.v2 < 1 then Exited(s, p)
      else s.(v2 := s.v2 - 1, ps := s.ps[p := q.(pc := Idle, adj2 := q.adj2 + 1)])
    case Op(id, amount) =>
      if !Is(s, id) || s.v0 + amount < 0 then Exited(s, p)
      else s.(v0 := s.v0 + amount, ps := s.ps[p := q.(pc := Idle, adj0 := q.adj0 - amount)])
  }

  ghost predicate Step(s: State, p: nat, a: Act, s': State) {
    && p < |s.ps|
    && match a
       case Exit => s' == Exited(s, p)
       case Go(c) => Enabled(s, p) && (s.ps[p].pc.Idle? ==> CallOk(s.ps[p], c)) && s' == Next(s, p, c)
  }

  ghost predicate Init(s: State) {
    && !s.live && s.v0 == s.v1 == s.v2 == 0 && !s.inited && s.init == 0 && s.lost == 0
    && forall p | 0 <= p < |s.ps| :: s.ps[p] == FRESH
  }

  // ---- what holds in every reachable state ----

  function Users(ps: seq<Proc>): nat { if ps == [] then 0 else ps[0].joined + Users(ps[1..]) }

  function Owing(ps: seq<Proc>): int { if ps == [] then 0 else ps[0].adj0 + Owing(ps[1..]) }

  predicate HasLock(pc: Pc) {
    pc.CCount? || pc.CSet0? || pc.CSet1? || pc.CEnd? || pc.XCount? || pc.XRemove? || pc.XUnlock?
  }

  ghost predicate ProcOk(s: State, q: Proc) {
    && q.adj1 == q.joined
    && q.adj2 == (if HasLock(q.pc) then -1 else 0)
    && (q.joined > 0 ==> Is(s, q.id) && s.inited)
    && (!s.inited ==> q.adj0 == 0)
    && (HasLock(q.pc) ==> Is(s, q.pc.id))
    && (q.pc.CSet0? || q.pc.CSet1? ==> !s.inited)
    && (q.pc.CEnd? || q.pc.XCount? || q.pc.XRemove? || q.pc.XUnlock? ==> s.inited)
    && (q.pc.XRemove? ==> Users(s.ps) == 0)
    && (q.pc.XLock? || q.pc.Op? ==> q.joined > 0 && q.pc.id == q.id)
    && (q.pc.CLock? ==> q.pc.id <= s.gen)
  }

  // member [2] is a lock: its value is the number of processes inside, never more than one
  ghost predicate LockOk(s: State) {
    && s.v2 <= 1
    && (forall p | 0 <= p < |s.ps| && HasLock(s.ps[p].pc) :: s.v2 == 1)
    && (forall p, r | 0 <= p < r < |s.ps| :: !(HasLock(s.ps[p].pc) && HasLock(s.ps[r].pc)))
    && (s.v2 == 1 ==> exists p :: 0 <= p < |s.ps| && HasLock(s.ps[p].pc))
  }

  // member [1] and the users always make BIGCOUNT, from the moment [1] is set
  ghost predicate CountOk(s: State) {
    && (s.inited ==> s.live && s.v1 + Users(s.ps) == BIGCOUNT)
    && (!s.inited ==> s.v1 == 0 && Users(s.ps) == 0)
  }

  // what [0] lost by operations is exactly what the undo values would give back
  ghost predicate ValueOk(s: State) {
    (s.live ==> s.v0 + Owing(s.ps) == s.init + s.lost) && (!s.inited ==> s.lost == 0)
  }

  ghost predicate Procs(s: State) { forall p | 0 <= p < |s.ps| :: ProcOk(s, s.ps[p]) }

  ghost predicate Inv(s: State) { LockOk(s) && CountOk(s) && ValueOk(s) && Procs(s) }

  // ---- sums ----

  lemma {:induction false} SumsUpdate(ps: seq<Proc>, p: nat, q: Proc)
    requires p < |ps|
    ensures Users(ps[p := q]) == Users(ps) - ps[p].joined + q.joined
    ensures Owing(ps[p := q]) == Owing(ps) - ps[p].adj0 + q.adj0
    ensures ps[p].joined <= Users(ps)
  {
    if p == 0 {
      assert ps[0 := q][1..] == ps[1..];
    } else {
      assert ps[p := q][1..] == ps[1..][p - 1 := q];
      SumsUpdate(ps[1..], p - 1, q);
    }
  }

  lemma {:induction false} SumsOfCleared(ps: seq<Proc>)
    ensures Users(Clear0(ps)) == Users(ps) && Owing(Clear0(ps)) == 0
    ensures Users(Clear1(ps)) == Users(ps) && Owing(Clear1(ps)) == Owing(ps)
    ensures Users(ClearAll(ps)) == Users(ps) && Owing(ClearAll(ps)) == 0
  {
    if ps != [] {
      SumsOfCleared(ps[1..]);
      assert Clear0(ps)[1..] == Clear0(ps[1..]);
      assert Clear1(ps)[1..] == Clear1(ps[1..]);
      assert ClearAll(ps)[1..] == ClearAll(ps[1..]);
    }
  }

  lemma {:induction false} ZeroUsers(ps: seq<Proc>, p: nat)
    requires p < |ps|
    ensures ps[p].joined <= Users(ps)
  {
    if p > 0 { ZeroUsers(ps[1..], p - 1); }
  }

  lemma {:induction false} FreshSums(ps: seq<Proc>)
    requires forall p | 0 <= p < |ps| :: ps[p] == FRESH
    ensures Users(ps) == 0 && Owing(ps) == 0
  {
    if ps != [] { FreshSums(ps[1..]); }
  }

  // ---- steps keep the invariant ----

  lemma InitInv(s: State)
    requires Init(s)
    ensures Inv(s)
  {
    FreshSums(s.ps);
  }

  lemma ExitInv(s: State, p: nat)
    requires Inv(s) && p < |s.ps|
    ensures Inv(Exited(s, p))
  {
    hide Users, Owing;
    var s', q := Exited(s, p), s.ps[p];
    SumsUpdate(s.ps, p, FRESH);
    assert ProcOk(s, q);
    if HasLock(q.pc) { assert s.v2 == 1; }
    forall r | 0 <= r < |s'.ps| ensures ProcOk(s', s'.ps[r]) {
      assert ProcOk(s, s.ps[r]);
    }
    if s'.v2 == 1 {
      var r :| 0 <= r < |s.ps| && HasLock(s.ps[r].pc);
      assert r != p;
      assert HasLock(s'.ps[r].pc);
    }
  }

  // only p itself changed, and the set is still the same one
  ghost predicate Local(s: State, s': State, p: nat) {
    && p < |s.ps| == |s'.ps| && s'.ps == s.ps[p := s'.ps[p]]
    && s'.live == s.live && s'.gen == s.gen && s'.inited == s.inited && s'.init == s.init && s'.lost == s.lost
  }

  // p enters or leaves the lock as [2] goes up or down
  lemma LockKept(s: State, s': State, p: nat)
    requires LockOk(s) && Local(s, s', p)
    requires var was, now := HasLock(s.ps[p].pc), HasLock(s'.ps[p].pc);
             || (was == now && s'.v2 == s.v2)
             || (!was && now && s.v2 == 0 && s'.v2 == 1)
             || (was && !now && s'.v2 == 0)
    ensures LockOk(s')
  {
    if s'.v2 == 1 && HasLock(s.ps[p].pc) == HasLock(s'.ps[p].pc) {
      var r :| 0 <= r < |s.ps| && HasLock(s.ps[r].pc);
      assert HasLock(s'.ps[r].pc);
    }
  }

  lemma LocalInv(s: State, s': State, p: nat)
    requires Inv(s) && Local(s, s', p) && LockOk(s')
    requires s'.v1 - s.v1 == s.ps[p].joined - s'.ps[p].joined
    requires s'.v0 - s.v0 == s.ps[p].adj0 - s'.ps[p].adj0
    requires s'.ps[p].joined != s.ps[p].joined ==> s.inited
    requires Users(s'.ps) == Users(s.ps) - s.ps[p].joined + s'.ps[p].joined && ProcOk(s', s'.ps[p])
    requires forall r | 0 <= r < |s.ps| && r != p && s.ps[r].pc.XRemove? :: s'.ps[p].joined == s.ps[p].joined
    ensures Inv(s')
  {
    hide Users, Owing, LockOk;
    SumsUpdate(s.ps, p, s'.ps[p]);
    forall r | 0 <= r < |s'.ps| ensures ProcOk(s', s'.ps[r]) { assert ProcOk(s, s.ps[r]); }
  }

  // the steps that touch nothing but p and the counters
  predicate Ordinary(s: State, pc: Pc) {
    (pc.CGet? && s.live) || pc.CLock? || pc.CCount? || pc.CEnd? || pc.XLock? || pc.XCount? || pc.XUnlock? || pc.Op?
  }

  lemma OrdinaryInv(s: State, p: nat, c: Call)
    requires Inv(s) && Enabled(s, p) && Ordinary(s, s.ps[p].pc) && Users(s.ps) < BIGCOUNT
    ensures Inv(Next(s, p, c))
  {
    hide Users, Owing, LockOk;
    var s', q := Next(s, p, c), s.ps[p];
    assert ProcOk(s, q);
    ZeroUsers(s.ps, p);
    LockFacts(s, p);
    if q.pc.CLock? && !Is(s, q.pc.id) { PutPc(s, p, CGet(q.pc.initval)); }
    SumsUpdate(s.ps, p, s'.ps[p]);
    LockKept(s, s', p);
    LocalInv(s, s', p);
  }

  lemma PutPc(s: State, p: nat, pc: Pc)
    requires p < |s.ps|
    ensures Local(s, Jump(s, p, pc), p)
  {
  }

  lemma LockFacts(s: State, p: nat)
    requires LockOk(s) && p < |s.ps|
    ensures s.v2 <= 1 && (HasLock(s.ps[p].pc) ==> s.v2 == 1 && forall r | 0 <= r < |s.ps|
            && r != p :: !HasLock(s.ps[r].pc))
    ensures s.v2 == 0 ==> forall r | 0 <= r < |s.ps| :: !HasLock(s.ps[r].pc)
  {
  }

  lemma BeginInv(s: State, p: nat, c: Call)
    requires Inv(s) && p < |s.ps| && s.ps[p].pc.Idle? && CallOk(s.ps[p], c)
    ensures Inv(Begin(s, p, c))
  {
    hide Users, Owing, LockOk;
    var s' := Begin(s, p, c);
    assert ProcOk(s, s.ps[p]);
    if c == Change(0) {
      ExitInv(s, p);
    } else {
      SumsUpdate(s.ps, p, s'.ps[p]);
      LockKept(s, s', p);
      LocalInv(s, s', p);
    }
  }

  lemma {:induction false} NoneOwing(ps: seq<Proc>)
    requires forall r | 0 <= r < |ps| :: ps[r].adj0 == 0
    ensures Owing(ps) == 0
  {
    if ps != [] { NoneOwing(ps[1..]); }
  }

  lemma {:induction false} NoneJoined(ps: seq<Proc>)
    requires Users(ps) == 0
    ensures forall r | 0 <= r < |ps| :: ps[r].joined == 0
  {
    forall r | 0 <= r < |ps| ensures ps[r].joined == 0 { ZeroUsers(ps, r); }
  }

  lemma NewSetInv(s: State, p: nat, c: Call)
    requires Inv(s) && p < |s.ps| && s.ps[p].pc.CGet? && !s.live
    ensures Inv(Next(s, p, c))
  {
    hide Users, Owing, LockOk;
    var s' := Next(s, p, c);
    forall r | 0 <= r < |s.ps| ensures s.ps[r].adj0 == 0 && !HasLock(s.ps[r].pc) && s.ps[r].joined == 0 {
      assert ProcOk(s, s.ps[r]);
    }
    SumsUpdate(s.ps, p, s'.ps[p]);
    NoneOwing(s.ps);
    forall r | 0 <= r < |s'.ps| ensures ProcOk(s', s'.ps[r]) { assert ProcOk(s, s.ps[r]); }
    assert LockOk(s') by { NoLockers(s'); }
  }

  lemma NoLockers(s: State)
    requires s.v2 == 0 && forall r | 0 <= r < |s.ps| :: !HasLock(s.ps[r].pc)
    ensures LockOk(s)
  {
  }

  lemma Set0Inv(s: State, p: nat, c: Call)
    requires Inv(s) && p < |s.ps| && s.ps[p].pc.CSet0?
    ensures Inv(Next(s, p, c))
  {
    hide Users, Owing, LockOk;
    var s', q := Next(s, p, c), s.ps[p];
    assert ProcOk(s, q);
    SumsOfCleared(s.ps);
    SumsUpdate(Clear0(s.ps), p, s'.ps[p]);
    LockFacts(s, p);
    assert LockOk(s') by { OneLocker(s', p); }
    forall r | 0 <= r < |s'.ps| ensures ProcOk(s', s'.ps[r]) { assert ProcOk(s, s.ps[r]); }
  }

  lemma OneLocker(s: State, p: nat)
    requires s.v2 == 1 && p < |s.ps| && HasLock(s.ps[p].pc) && forall r | 0 <= r < |s.ps|
             && r != p :: !HasLock(s.ps[r].pc)
    ensures LockOk(s)
  {
  }

  lemma Set1Inv(s: State, p: nat, c: Call)
    requires Inv(s) && p < |s.ps| && s.ps[p].pc.CSet1?
    ensures Inv(Next(s, p, c))
  {
    hide Users, Owing, LockOk;
    var s', q := Next(s, p, c), s.ps[p];
    assert ProcOk(s, q);
    SumsOfCleared(s.ps);
    SumsUpdate(Clear1(s.ps), p, s'.ps[p]);
    NoneJoined(s.ps);
    LockFacts(s, p);
    assert LockOk(s') by { OneLocker(s', p); }
    forall r | 0 <= r < |s'.ps| ensures ProcOk(s', s'.ps[r]) { assert ProcOk(s, s.ps[r]); }
  }

  lemma RemoveInv(s: State, p: nat, c: Call)
    requires Inv(s) && p < |s.ps| && s.ps[p].pc.XRemove?
    ensures Inv(Next(s, p, c))
  {
    hide Users, Owing, LockOk;
    var s', q := Next(s, p, c), s.ps[p];
    assert ProcOk(s, q);
    SumsOfCleared(s.ps);
    SumsUpdate(ClearAll(s.ps), p, s'.ps[p]);
    NoneJoined(s.ps);
    LockFacts(s, p);
    NoLockers(s');
    forall r | 0 <= r < |s'.ps| ensures ProcOk(s', s'.ps[r]) { assert ProcOk(s, s.ps[r]); }
  }

  // every system call and every exit keeps all of it, as long as there are fewer than BIGCOUNT users
  lemma StepInv(s: State, p: nat, a: Act, s': State)
    requires Inv(s) && Step(s, p, a, s') && Users(s.ps) < BIGCOUNT
    ensures Inv(s')
  {
    hide Users, Owing, Inv, Exited;
    match a {
      case Exit => ExitInv(s, p);
      case Go(c) =>
        var pc := s.ps[p].pc;
        if pc.Idle? { BeginInv(s, p, c); }
        else if pc.CGet? && !s.live { NewSetInv(s, p, c); }
        else if pc.CSet0? { Set0Inv(s, p, c); }
        else if pc.CSet1? { Set1Inv(s, p, c); }
        else if pc.XRemove? { RemoveInv(s, p, c); }
        else { OrdinaryInv(s, p, c); }
    }
  }

  // ---- runs ----

  ghost predicate StepsTo(s: State, s': State) { exists p, a :: 0 <= p < |s.ps| && Step(s, p, a, s') }

  ghost predicate Run(trace: seq<State>) {
    && |trace| > 0 && Init(trace[0])
    && forall i | 0 <= i < |trace| - 1 :: StepsTo(trace[i], trace[i + 1]) && Users(trace[i].ps) < BIGCOUNT
  }

  lemma {:induction false} RunInv(trace: seq<State>, k: nat)
    requires Run(trace) && k < |trace|
    ensures Inv(trace[k])
  {
    hide Inv, Init, Step, Users;
    if k == 0 {
      InitInv(trace[0]);
    } else {
      RunInv(trace, k - 1);
      assert StepsTo(trace[k - 1], trace[k - 1 + 1]);
      var p, a :| 0 <= p < |trace[k - 1].ps| && Step(trace[k - 1], p, a, trace[k]);
      StepInv(trace[k - 1], p, a, trace[k]);
    }
  }

  // ---- what the protocol promises ----

  // two processes are never inside the locked sections together, and the counter adds up
  lemma MutualExclusion(trace: seq<State>, k: nat, p: nat, r: nat)
    requires Run(trace) && k < |trace| && p < |trace[k].ps| && r < |trace[k].ps|
    requires HasLock(trace[k].ps[p].pc) && HasLock(trace[k].ps[r].pc)
    ensures p == r && trace[k].v2 == 1 && Is(trace[k], trace[k].ps[p].pc.id)
  {
    hide Run, Users;
    RunInv(trace, k);
    var s := trace[k];
    assert ProcOk(s, s.ps[p]);
  }

  // a creator that has locked an initialised set initialises it again exactly if the counter has
  // run out, which takes BIGCOUNT users
  lemma Reinitialises(s: State, p: nat, c: Call)
    requires Inv(s) && p < |s.ps| && s.ps[p].pc.CCount? && s.inited
    ensures Next(s, p, c).ps[p].pc.CSet0? <==> Users(s.ps) == BIGCOUNT
    ensures !Next(s, p, c).ps[p].pc.CSet0? <==> Next(s, p, c).ps[p].pc.CEnd?
  {
    hide Users;
    assert ProcOk(s, s.ps[p]);
  }

  // a closer that has locked the set goes on to remove it exactly if nobody uses it any more
  lemma RemovesIfLast(trace: seq<State>, k: nat, p: nat, c: Call)
    requires Run(trace) && k < |trace| && p < |trace[k].ps| && trace[k].ps[p].pc.XCount?
    ensures Next(trace[k], p, c).ps[p].pc.XRemove? <==> Users(trace[k].ps) == 0
    ensures !Next(trace[k], p, c).ps[p].pc.XRemove? <==> Next(trace[k], p, c).ps[p].pc.XUnlock?
  {
    hide Run;
    RunInv(trace, k);
    var s := trace[k];
    hide Users;
    assert ProcOk(s, s.ps[p]);
  }

  // a set disappears only while it has no user
  lemma RemovedUnused(trace: seq<State>, k: nat, p: nat, a: Act)
    requires Run(trace) && k + 1 < |trace| && Step(trace[k], p, a, trace[k + 1]) && trace[k].live && !trace[k + 1].live
    ensures Users(trace[k].ps) == 0 && a.Go? && trace[k].ps[p].pc.XRemove?
  {
    hide Run;
    RunInv(trace, k);
    var s := trace[k];
    hide Users;
    assert ProcOk(s, s.ps[p]);
  }

  // once set, [0] changes only by semop amounts and by the undo of an exit, and [1] is never set again
  lemma InitialisedOnce(s: State, p: nat, a: Act, s': State)
    requires Inv(s) && Step(s, p, a, s') && s.inited && s'.live
    ensures s'.inited && s'.gen == s.gen && s'.init == s.init
    ensures a.Go? ==> !s.ps[p].pc.CSet0? && !s.ps[p].pc.CSet1?
    ensures s'.v0 != s.v0 ==> a.Exit? || a == Go(Change(0)) || s.ps[p].pc.Op?
  {
    hide Users, Owing;
    assert ProcOk(s, s.ps[p]);
  }

  // no call of a user fails because the set is gone, and a process inside the lock never waits
  lemma NeverStuckInside(s: State, p: nat)
    requires Inv(s) && p < |s.ps| && Users(s.ps) < BIGCOUNT
    ensures HasLock(s.ps[p].pc) ==> Enabled(s, p)
    ensures HasLock(s.ps[p].pc) || s.ps[p].pc.XLock? || s.ps[p].pc.Op? ==> Is(s, s.ps[p].pc.id)
    ensures s.inited ==> s.v1 <= BIGCOUNT
  {
    hide Users;
    assert ProcOk(s, s.ps[p]);
  }

  // over a whole run, between two states with the same live set the first of which is initialised,
  // the set stays live and initialised with its first value
  lemma {:induction false} KeepsFirstValue(trace: seq<State>, i: nat, k: nat)
    requires Run(trace) && i <= k < |trace| && trace[i].inited
    requires trace[k].live && trace[k].gen == trace[i].gen
    ensures trace[k].inited && trace[k].init == trace[i].init
    ensures forall j | i <= j <= k :: trace[j].live && trace[j].gen == trace[i].gen
    decreases k
  {
    hide Inv, Init, Step, Users;
    RunInv(trace, i);
    if i == k {
      assert CountOk(trace[i]) by { Parts(trace[i]); }
    } else {
      RunInv(trace, k - 1);
      assert StepsTo(trace[k - 1], trace[k - 1 + 1]);
      var p, a :| 0 <= p < |trace[k - 1].ps| && Step(trace[k - 1], p, a, trace[k]);
      GenGrows(trace, i, k - 1);
      NotRevived(trace[k - 1], p, a, trace[k]);
      KeepsFirstValue(trace, i, k - 1);
      InitialisedOnce(trace[k - 1], p, a, trace[k]);
    }
  }

  lemma Parts(s: State)
    requires Inv(s)
    ensures LockOk(s) && CountOk(s) && ValueOk(s) && Procs(s)
  {
    hide LockOk, CountOk, ValueOk, Procs;
  }

  // a set that is gone comes back only under a new identifier
  lemma NotRevived(s: State, p: nat, a: Act, s': State)
    requires Step(s, p, a, s')
    ensures s.gen <= s'.gen && (!s.live && s'.live ==> s.gen < s'.gen) && (s.live ==> s'.gen == s.gen)
  {
  }

  lemma {:induction false} GenGrows(trace: seq<State>, i: nat, k: nat)
    requires Run(trace) && i <= k < |trace|
    ensures trace[i].gen <= trace[k].gen
    decreases k
  {
    hide Inv, Init, Step, Users;
    if i < k {
      assert StepsTo(trace[k - 1], trace[k - 1 + 1]);
      var p, a :| 0 <= p < |trace[k - 1].ps| && Step(trace[k - 1], p, a, trace[k]);
      NotRevived(trace[k - 1], p, a, trace[k]);
      GenGrows(trace, i, k - 1);
    }
  }

  // ---- what a semaphore operation does ----

  // a process gets past semop only with room for the whole amount; [0] goes up by it, the undo
  // value down, and nothing else changes
  lemma OpEffect(s: State, p: nat, c: Call, s': State)
    requires Inv(s) && Users(s.ps) < BIGCOUNT && Step(s, p, Go(c), s') && s.ps[p].pc.Op?
    ensures var q, amount := s.ps[p], s.ps[p].pc.amount;
            && s.inited && s.v0 + amount >= 0
            && s' == s.(v0 := s.v0 + amount, ps := s.ps[p := q.(pc := Idle, adj0 := q.adj0 - amount)])
  {
    hide Users, Owing;
    assert ProcOk(s, s.ps[p]);
  }

  // a call of sem_op with an amount other than 0 gets to that operation with that amount
  lemma OpStarts(s: State, p: nat, amount: int, s': State)
    requires Step(s, p, Go(Change(amount)), s') && s.ps[p].pc.Idle? && amount != 0
    ensures s' == s.(ps := s.ps[p := s.ps[p].(pc := Op(s.ps[p].id, amount))])
  {
  }

  // a process that leaves: by an exit, or by sem_op with amount 0
  predicate Leaves(s: State, p: nat, a: Act)
    requires p < |s.ps|
  {
    a.Exit? || (s.ps[p].pc.Idle? && a == Go(Change(0)))
  }

  // what the kernel gives back to [0] for an undo value of adj: no less than makes it 0
  function Back(v0: nat, adj: int): int { if v0 + adj < 0 then 0 - v0 else adj }

  lemma LeaveEffect(s: State, p: nat, a: Act, s': State)
    requires Step(s, p, a, s') && Leaves(s, p, a) && s.live
    ensures s'.v0 == s.v0 + Back(s.v0, s.ps[p].adj0) && s'.ps == s.ps[p := FRESH] && s'.live && s'.gen == s.gen
  {
  }

  // every other step of an initialised set that stays leaves [0] and all undo values for it alone
  lemma OthersKeepValue(s: State, p: nat, a: Act, s': State)
    requires Inv(s) && Users(s.ps) < BIGCOUNT && Step(s, p, a, s') && s.inited && s'.live
    requires !Leaves(s, p, a) && !s.ps[p].pc.Op?
    ensures s'.v0 == s.v0 && |s'.ps| == |s.ps| && forall r | 0 <= r < |s.ps| :: s'.ps[r].adj0 == s.ps[r].adj0
  {
    hide Users, Owing;
    assert ProcOk(s, s.ps[p]);
  }

  // ---- the value of a semaphore over a run ----

  // a run with who stepped and how
  ghost predicate Acted(trace: seq<State>, acts: seq<(nat, Act)>) {
    && Run(trace) && |trace| == |acts| + 1
    && forall i | 0 <= i < |acts| :: acts[i].0 < |trace[i].ps| && Step(trace[i], acts[i].0, acts[i].1, trace[i + 1])
  }

  // the amounts of the operations in steps i to k
  ghost function Amounts(trace: seq<State>, acts: seq<(nat, Act)>, i: nat, k: nat): int
    requires Acted(trace, acts) && i <= k <= |acts|
    decreases k
  {
    if k == i then 0
    else
      var s, p := trace[k - 1], acts[k - 1].0;
      Amounts(trace, acts, i, k - 1)
      + if acts[k - 1].1.Go? && s.ps[p].pc.Op? then s.ps[p].pc.amount else 0
  }

  // what p would be given back if it left after step k: the reverse of the operations it made since
  // step i and since it last started
  ghost function Undone(trace: seq<State>, acts: seq<(nat, Act)>, p: nat, i: nat, k: nat): int
    requires Acted(trace, acts) && i <= k <= |acts|
    decreases k
  {
    if k == i then 0
    else
      var s := trace[k - 1];
      if acts[k - 1].0 != p then Undone(trace, acts, p, i, k - 1)
      else if Leaves(s, p, acts[k - 1].1) then 0
      else Undone(trace, acts, p, i, k - 1)
           - if acts[k - 1].1.Go? && s.ps[p].pc.Op? then s.ps[p].pc.amount else 0
  }

  // what the exits in steps i to k gave back
  ghost function GivenBack(trace: seq<State>, acts: seq<(nat, Act)>, i: nat, k: nat): int
    requires Acted(trace, acts) && i <= k <= |acts|
    decreases k
  {
    if k == i then 0
    else
      var s, p := trace[k - 1], acts[k - 1].0;
      GivenBack(trace, acts, i, k - 1)
      + if Leaves(s, p, acts[k - 1].1) then Back(s.v0, Undone(trace, acts, p, i, k - 1)) else 0
  }

  // ---- what a set is initialised with ----

  // still in sem_create, with the initial value asked for
  predicate Asking(pc: Pc) { pc.CGet? || pc.CLock? || pc.CCount? || pc.CSet0? }

  lemma ClearedPc(ps: seq<Proc>)
    ensures |Clear0(ps)| == |Clear1(ps)| == |ClearAll(ps)| == |ps|
    ensures forall r | 0 <= r < |ps| ::
              Clear0(ps)[r].pc == ps[r].pc && Clear1(ps)[r].pc == ps[r].pc && ClearAll(ps)[r].pc == ps[r].pc
  {
  }

  // what a step can do to the processes: forget undo values, and change the one that steps
  ghost predicate OneMoves(s: State, s': State, p: nat) {
    && p < |s.ps| == |s'.ps|
    && (s'.ps == s.ps[p := s'.ps[p]] || s'.ps == Clear0(s.ps)[p := s'.ps[p]] || s'.ps == Clear1(s.ps)[p := s'.ps[p]]
        || s'.ps == ClearAll(s.ps)[p := s'.ps[p]])
  }

  lemma NextMoves(s: State, p: nat, c: Call)
    requires p < |s.ps|
    ensures OneMoves(s, Next(s, p, c), p)
  {
    hide Clear0, Clear1, ClearAll, Is, Clamp;
    ClearedPc(s.ps);
    match s.ps[p].pc {
      case CSet0(_, _) =>
      case CSet1(_) =>
      case XRemove(_) =>
      case _ => hide OneMoves; PlainMoves(s, p, c);
    }
  }

  lemma PlainMoves(s: State, p: nat, c: Call)
    requires p < |s.ps| && !s.ps[p].pc.CSet0? && !s.ps[p].pc.CSet1? && !s.ps[p].pc.XRemove?
    ensures OneMoves(s, Next(s, p, c), p)
  {
    hide Clear0, Clear1, ClearAll, Is, Clamp;
  }

  lemma StepMoves(s: State, p: nat, a: Act, s': State)
    requires Step(s, p, a, s')
    ensures OneMoves(s, s', p)
  {
    hide Next, Clear0, Clear1, ClearAll, Enabled, CallOk;
    if a.Go? { NextMoves(s, p, a.call); }
  }

  lemma OthersPc(s: State, p: nat, s': State, r: nat)
    requires OneMoves(s, s', p) && r < |s.ps| && r != p
    ensures s'.ps[r].pc == s.ps[r].pc
  {
    ClearedPc(s.ps);
    hide Clear0, Clear1, ClearAll;
  }

  lemma LeavingStep(s: State, p: nat)
    requires p < |s.ps|
    ensures |Exited(s, p).ps| == |s.ps| && Exited(s, p).ps[p].pc.Idle?
  {
  }

  lemma BeginAsks(s: State, p: nat, c: Call)
    requires p < |s.ps|
    ensures |Begin(s, p, c).ps| == |s.ps|
    ensures Asking(Begin(s, p, c).ps[p].pc) ==> c == Create(Begin(s, p, c).ps[p].pc.initval)
  {
    hide Exited;
    LeavingStep(s, p);
  }

  lemma AskingGoes(s: State, p: nat, c: Call)
    requires p < |s.ps| && Asking(s.ps[p].pc)
    ensures |Next(s, p, c).ps| == |s.ps|
    ensures Asking(Next(s, p, c).ps[p].pc) ==> Next(s, p, c).ps[p].pc.initval == s.ps[p].pc.initval
  {
    hide Exited, Clear0, Clear1, ClearAll, Is;
    LeavingStep(s, p);
    ClearedPc(s.ps);
  }

  lemma NeverAsks(s: State, p: nat, c: Call)
    requires p < |s.ps| && !Asking(s.ps[p].pc) && !s.ps[p].pc.Idle?
    ensures |Next(s, p, c).ps| == |s.ps| && !Asking(Next(s, p, c).ps[p].pc)
  {
    hide Exited, Clear0, Clear1, ClearAll, Is;
    LeavingStep(s, p);
    ClearedPc(s.ps);
  }

  lemma AskingStep(s: State, p: nat, a: Act, s': State)
    requires Step(s, p, a, s') && p < |s'.ps| && Asking(s'.ps[p].pc)
    ensures a.Go?
    ensures if s.ps[p].pc.Idle? then a.call == Create(s'.ps[p].pc.initval)
            else Asking(s.ps[p].pc) && s.ps[p].pc.initval == s'.ps[p].pc.initval
  {
    LeavingStep(s, p);
    hide Exited, Next, Begin, Enabled, CallOk;
    if a.Go? {
      if s.ps[p].pc.Idle? { BeginAsks(s, p, a.call); IdleBegins(s, p, a.call); }
      else if Asking(s.ps[p].pc) { AskingGoes(s, p, a.call); }
      else { NeverAsks(s, p, a.call); }
    }
  }

  lemma IdleBegins(s: State, p: nat, c: Call)
    requires p < |s.ps| && s.ps[p].pc.Idle?
    ensures Next(s, p, c) == Begin(s, p, c)
  {
  }

  // a process in sem_create was idle when it made the call, with the initial value it still has
  lemma {:induction false} CallStart(trace: seq<State>, acts: seq<(nat, Act)>, p: nat, m: nat) returns (c: nat)
    requires Acted(trace, acts) && m < |trace| && p < |trace[m].ps| && Asking(trace[m].ps[p].pc)
    ensures c < m && acts[c] == (p, Go(Create(trace[m].ps[p].pc.initval)))
    ensures p < |trace[c].ps| && trace[c].ps[p].pc.Idle?
    ensures forall x | c < x <= m :: p < |trace[x].ps| && !trace[x].ps[p].pc.Idle?
    decreases m
  {
    hide Users, Step;
    assert m > 0;
    var s, q, a := trace[m - 1], acts[m - 1].0, acts[m - 1].1;
    assert Step(s, q, a, trace[m - 1 + 1]);
    StepMoves(s, q, a, trace[m]);
    if q != p {
      OthersPc(s, q, trace[m], p);
      c := CallStart(trace, acts, p, m - 1);
    } else {
      AskingStep(s, p, a, trace[m]);
      if s.ps[p].pc.Idle? {
        c := m - 1;
      } else {
        c := CallStart(trace, acts, p, m - 1);
      }
    }
  }

  // while p is between the two SETVALs nobody else changes [0]
  lemma SetKept(s: State, p: nat, a: Act, s': State, r: nat)
    requires Inv(s) && Step(s, p, a, s') && r < |s.ps| && r != p && s.ps[r].pc.CSet1?
    ensures s'.v0 == s.v0
  {
    hide Users, Owing;
    assert ProcOk(s, s.ps[r]) && ProcOk(s, s.ps[p]);
    LockFacts(s, r);
  }

  lemma Set1Step(s: State, p: nat, a: Act, s': State)
    requires Step(s, p, a, s') && p < |s'.ps| && s'.ps[p].pc.CSet1?
    ensures a.Go? && s.ps[p].pc.CSet0? && s'.v0 == s.ps[p].pc.initval
  {
    ClearedPc(s.ps);
    hide Clear0, Clear1, ClearAll, Enabled, CallOk, Is;
    if a == Exit {
      ExitIdle(s, p);
    } else if s.ps[p].pc.CSet0? {
      hide Exited;
      Set0Sets(s, p, a.call);
    } else {
      NoSet1(s, p, a.call);
    }
  }

  lemma ExitIdle(s: State, p: nat)
    requires p < |s.ps|
    ensures Exited(s, p).ps == s.ps[p := FRESH]
  {
  }

  lemma Set0Sets(s: State, p: nat, c: Call)
    requires p < |s.ps| && s.ps[p].pc.CSet0? && Next(s, p, c).ps[p].pc.CSet1?
    ensures Next(s, p, c).v0 == s.ps[p].pc.initval
  {
    hide Clear0;
    ExitIdle(s, p);
  }

  lemma NoSet1(s: State, p: nat, c: Call)
    requires p < |s.ps| && !s.ps[p].pc.CSet0?
    ensures p < |Next(s, p, c).ps| ==> !Next(s, p, c).ps[p].pc.CSet1?
  {
    hide Exited, Clamp, Is;
    ExitIdle(s, p);
    ClearedPc(s.ps);
    hide Clear0, Clear1, ClearAll;
  }

  // a process about to set [1] has set [0] to the initial value it was called with
  lemma {:induction false} SetAt(trace: seq<State>, acts: seq<(nat, Act)>, p: nat, m: nat) returns (j: nat)
    requires Acted(trace, acts) && m < |trace| && p < |trace[m].ps| && trace[m].ps[p].pc.CSet1?
    ensures j < m && acts[j].0 == p && p < |trace[j].ps| && trace[j].ps[p].pc.CSet0?
    ensures trace[m].v0 == trace[j].ps[p].pc.initval
    ensures forall x | j < x <= m :: p < |trace[x].ps| && !trace[x].ps[p].pc.Idle?
    decreases m
  {
    hide Users, Step, Inv;
    assert m > 0;
    var s, q, a := trace[m - 1], acts[m - 1].0, acts[m - 1].1;
    assert Step(s, q, a, trace[m - 1 + 1]);
    StepMoves(s, q, a, trace[m]);
    if q != p {
      OthersPc(s, q, trace[m], p);
      RunInv(trace, m - 1);
      SetKept(s, q, a, trace[m], p);
      j := SetAt(trace, acts, p, m - 1);
    } else {
      Set1Step(s, p, a, trace[m]);
      j := m - 1;
    }
  }

  lemma SetUpStep(s: State, p: nat, a: Act, s': State)
    requires Inv(s) && Step(s, p, a, s') && !s.inited && s'.inited
    ensures a.Go? && s.ps[p].pc.CSet1? && s'.v0 == s.v0 && s'.live
    ensures forall r | 0 <= r < |s'.ps| :: s'.ps[r].adj0 == 0
  {
    hide Users, Owing;
    forall r | 0 <= r < |s.ps| ensures s.ps[r].adj0 == 0 { assert ProcOk(s, s.ps[r]); }
  }

  // state i is the one right after the set was initialised
  ghost predicate SetUp(trace: seq<State>, acts: seq<(nat, Act)>, i: nat) {
    Acted(trace, acts) && 0 < i < |trace| && trace[i].inited && !trace[i - 1].inited
  }

  // Whenever a set is initialised, [0] is the initval of the call of sem_create that does it: the one
  // that process made when it was last idle.
  lemma SetUpBy(trace: seq<State>, acts: seq<(nat, Act)>, i: nat) returns (p: nat, c: nat)
    requires SetUp(trace, acts, i)
    ensures c < i && p < |trace[c].ps| && trace[c].ps[p].pc.Idle? && p == acts[i - 1].0 == acts[c].0
    ensures acts[c].1 == Go(Create(trace[i].v0))
    ensures forall x | c < x < i :: p < |trace[x].ps| && !trace[x].ps[p].pc.Idle?
    ensures forall r | 0 <= r < |trace[i].ps| :: trace[i].ps[r].adj0 == 0
  {
    hide Run, Inv, Step;
    p := acts[i - 1].0;
    RunInv(trace, i - 1);
    assert Step(trace[i - 1], p, acts[i - 1].1, trace[i - 1 + 1]);
    SetUpStep(trace[i - 1], p, acts[i - 1].1, trace[i]);
    var j := SetAt(trace, acts, p, i - 1);
    c := CallStart(trace, acts, p, j);
  }

  // Over a run, as long as the set is the same one: the value of the semaphore is the one it was
  // initialised with, plus the amounts of the operations, plus what the exits gave back; and the undo
  // value of a process is the reverse of its operations.
  lemma {:induction false} ValueOverRun(trace: seq<State>, acts: seq<(nat, Act)>, i: nat, k: nat)
    requires SetUp(trace, acts, i) && i <= k < |trace| && trace[k].live && trace[k].gen == trace[i].gen
    ensures trace[k].v0 == trace[i].v0 + Amounts(trace, acts, i, k) + GivenBack(trace, acts, i, k)
    ensures |trace[k].ps| == |trace[i].ps|
    ensures forall p | 0 <= p < |trace[k].ps| :: trace[k].ps[p].adj0 == Undone(trace, acts, p, i, k)
    decreases k
  {
    hide Inv, Init, Users, Step, Leaves;
    if i == k {
      var p, c := SetUpBy(trace, acts, i);
    } else {
      KeepsFirstValue(trace, i, k);
      assert trace[k - 1].live && trace[k - 1].gen == trace[i].gen;
      ValueOverRun(trace, acts, i, k - 1);
      RunInv(trace, k - 1);
      KeepsFirstValue(trace, i, k - 1);
      assert StepsTo(trace[k - 1], trace[k - 1 + 1]) && Users(trace[k - 1].ps) < BIGCOUNT;
      ValueStep(trace[k - 1], acts[k - 1].0, acts[k - 1].1, trace[k - 1 + 1]);
    }
  }

  lemma ValueStep(s: State, p: nat, a: Act, s': State)
    requires Inv(s) && Users(s.ps) < BIGCOUNT && p < |s.ps| && Step(s, p, a, s') && s.inited && s'.live
    ensures |s'.ps| == |s.ps|
    ensures s'.v0 == s.v0 + (if Leaves(s, p, a) then Back(s.v0, s.ps[p].adj0)
                             else if s.ps[p].pc.Op? then s.ps[p].pc.amount else 0)
    ensures s'.ps[p].adj0 == if Leaves(s, p, a) then 0
                             else s.ps[p].adj0 - if s.ps[p].pc.Op? then s.ps[p].pc.amount else 0
    ensures forall r | 0 <= r < |s.ps| && r != p :: s'.ps[r].adj0 == s.ps[r].adj0
    ensures Leaves(s, p, a) ==> !(a.Go? && s.ps[p].pc.Op?)
    ensures !Leaves(s, p, a) ==> a.Go?
  {
    hide Inv, Users;
    assert s.live by { Parts(s); hide Procs, LockOk, ValueOk; }
    if Leaves(s, p, a) { LeaveEffect(s, p, a, s'); }
    else if s.ps[p].pc.Op? { OpEffect(s, p, a.call, s'); }
    else { OthersKeepValue(s, p, a, s'); }
  }

  // ---- a counter that runs out ----

  // a run with any number of users
  ghost predicate AnyRun(trace: seq<State>) {
    |trace| > 0 && Init(trace[0]) && forall i | 0 <= i < |trace| - 1 :: StepsTo(trace[i], trace[i + 1])
  }

  lemma Longer(trace: seq<State>, p: nat, a: Act, s': State) returns (longer: seq<State>)
    requires AnyRun(trace) && p < |trace[|trace| - 1].ps| && Step(trace[|trace| - 1], p, a, s')
    ensures AnyRun(longer) && longer[|longer| - 1] == s'
  {
    hide Init, Step;
    longer := trace + [s'];
    forall i | 0 <= i < |longer| - 1 ensures StepsTo(longer[i], longer[i + 1]) {
      if i < |trace| - 1 { assert StepsTo(trace[i], trace[i + 1]); }
    }
  }

  // one process that has joined n times
  function Joined(n: nat, pc: Pc, v2: nat): State
    requires n <= BIGCOUNT
  {
    State(true, 1, 7, BIGCOUNT - n, v2, true, 7, 0, [Proc(pc, n, 1, 0, n, 0 - v2)])
  }

  lemma {:induction false} JoinsMany(n: nat) returns (trace: seq<State>)
    requires 1 <= n <= BIGCOUNT
    ensures AnyRun(trace) && trace[|trace| - 1] == Joined(n, Idle, 0)
  {
    hide AnyRun;
    if n == 1 {
      trace := JoinsFirst();
    } else {
      trace := JoinsMany(n - 1);
      var s := Joined(n - 1, CEnd(1), 1);
      trace := LocksAgain(trace, n - 1);
      trace := Longer(trace, 0, Go(Close), s);
      trace := Longer(trace, 0, Go(Close), Joined(n, Idle, 0));
    }
  }

  lemma JoinsFirst() returns (trace: seq<State>)
    ensures AnyRun(trace) && trace[|trace| - 1] == Joined(1, Idle, 0)
  {
    var s := State(false, 0, 0, 0, 0, false, 0, 0, [FRESH]);
    trace := [s];
    assert AnyRun(trace);
    hide AnyRun;
    var a := Go(Create(7));
    var s1 := Next(s, 0, Create(7));
    var s2 := Next(s1, 0, Create(7));
    var s3 := Next(s2, 0, Create(7));
    var s4 := Next(s3, 0, Create(7));
    var s5 := Next(s4, 0, Create(7));
    var s6 := Next(s5, 0, Create(7));
    trace := Longer(trace, 0, a, s1);
    trace := Longer(trace, 0, a, s2);
    trace := Longer(trace, 0, a, s3);
    trace := Longer(trace, 0, a, s4);
    trace := Longer(trace, 0, a, s5);
    trace := Longer(trace, 0, a, s6);
    trace := Longer(trace, 0, a, Joined(1, Idle, 0));
  }

  // calls sem_create and gets as far as reading the counter
  lemma LocksAgain(trace: seq<State>, n: nat) returns (longer: seq<State>)
    requires 1 <= n <= BIGCOUNT && AnyRun(trace) && trace[|trace| - 1] == Joined(n, Idle, 0)
    ensures AnyRun(longer) && longer[|longer| - 1] == Joined(n, CCount(7, 1), 1)
  {
    hide AnyRun;
    var a := Go(Create(7));
    longer := Longer(trace, 0, a, Joined(n, CGet(7), 0));
    longer := Longer(longer, 0, a, Joined(n, CLock(7, 1), 0));
    longer := Longer(longer, 0, a, Joined(n, CCount(7, 1), 1));
  }

  // a run with BIGCOUNT users that are all still there, and then the set is initialised again
  lemma CounterRunsOut() returns (trace: seq<State>)
    ensures AnyRun(trace)
    ensures var s := trace[|trace| - 1]; s.inited && Users(s.ps) == BIGCOUNT && s.ps[0].pc == CSet0(7, 1)
  {
    hide AnyRun;
    trace := JoinsMany(BIGCOUNT);
    trace := LocksAgain(trace, BIGCOUNT);
    var s := Joined(BIGCOUNT, CSet0(7, 1), 1);
    trace := Longer(trace, 0, Go(Create(7)), s);
    assert s.ps[1..] == [];
  }

  // ---- a call that nobody interrupts ----

  // p takes n steps one after the other; c is the call it makes if it is idle
  ghost predicate Runs(s: State, p: nat, c: Call, n: nat, s': State)
    decreases n
  {
    if n == 0 then s == s'
    else
      && p < |s.ps| && Enabled(s, p) && (s.ps[p].pc.Idle? ==> CallOk(s.ps[p], c))
      && Runs(Next(s, p, c), p, c, n - 1, s')
  }

  lemma {:induction false} RunsThen(s: State, p: nat, c: Call, n: nat, m: State, s': State)
    requires Runs(s, p, c, n, m) && p < |m.ps| && Enabled(m, p) && (m.ps[p].pc.Idle? ==> CallOk(m.ps[p], c))
    requires s' == Next(m, p, c)
    ensures Runs(s, p, c, n + 1, s')
    decreases n
  {
    hide Enabled, CallOk, Next;
    if n > 0 {
      RunsThen(Next(s, p, c), p, c, n - 1, m, s');
    } else {
      assert Runs(s', p, c, 0, s');
    }
  }

  // nobody has an undo value while there is no set
  lemma NoneOwes(s: State)
    requires Inv(s) && !s.live
    ensures Clear0(s.ps) == s.ps && forall r | 0 <= r < |s.ps| :: s.ps[r].joined == 0 == s.ps[r].adj1 == s.ps[r].adj2
    ensures forall r | 0 <= r < |s.ps| :: s.ps[r].adj0 == 0
  {
    hide Users, Owing, LockOk, ValueOk;
    forall r | 0 <= r < |s.ps| ensures s.ps[r].joined == 0 == s.ps[r].adj1 == s.ps[r].adj2 && s.ps[r].adj0 == 0 {
      assert ProcOk(s, s.ps[r]);
    }
  }

  // sem_create where there is no set: [0] gets the caller's value, the caller is the one user, the lock is free
  lemma CreatesNew(s: State, p: nat, initval: nat)
    requires Inv(s) && !s.live && p < |s.ps| && s.ps[p].pc.Idle?
    ensures Runs(s, p, Create(initval), 7, State(true, s.gen + 1, initval, 9999, 0, true, initval, 0,
                   s.ps[p := Proc(Idle, 1, s.gen + 1, 0, 1, 0)]))
  {
    NoneOwes(s);
    hide Inv, Runs, Enabled;
    var c, ps, id := Create(initval), s.ps, s.gen + 1;
    var q := Proc(Idle, 0, ps[p].id, 0, 0, 0);
    var s1 := Jump(s, p, CGet(initval));
    var s2 := State(true, id, 0, 0, 0, false, 0, 0, ps[p := q.(pc := CLock(initval, id))]);
    var s3 := State(true, id, 0, 0, 1, false, 0, 0, ps[p := q.(pc := CCount(initval, id), adj2 := -1)]);
    var s4 := s3.(ps := ps[p := q.(pc := CSet0(initval, id), adj2 := -1)]);
    var ps5 := ps[p := q.(pc := CSet1(id), adj2 := -1)];
    var s5 := s3.(v0 := initval, init := initval, ps := ps5);
    var s6 := s5.(v1 := BIGCOUNT, inited := true, ps := ps[p := q.(pc := CEnd(id), adj2 := -1)]);
    var s7 := s6.(v1 := 9999, v2 := 0, ps := ps[p := Proc(Idle, 1, id, 0, 1, 0)]);
    assert ps[p] == q;
    assert Clear0(s4.ps) == s4.ps && Clear1(s5.ps) == s5.ps;
    Went(s, p, c, 0, s, s1);
    Went(s, p, c, 1, s1, s2);
    Went(s, p, c, 2, s2, s3);
    Went(s, p, c, 3, s3, s4);
    Went(s, p, c, 4, s4, s5);
    Went(s, p, c, 5, s5, s6);
    Went(s, p, c, 6, s6, s7);
  }

  lemma Went(s: State, p: nat, c: Call, n: nat, m: State, s': State)
    requires (if n == 0 then s == m else Runs(s, p, c, n, m)) && p < |m.ps|
    requires Enabled(m, p) && (m.ps[p].pc.Idle? ==> CallOk(m.ps[p], c)) && s' == Next(m, p, c)
    ensures Runs(s, p, c, n + 1, s')
  {
    hide Enabled, CallOk, Next;
    RunsThen(s, p, c, n, m, s');
  }

  // sem_create of a set in use: one user more, and [0] as it was
  lemma Joins(s: State, p: nat, initval: nat)
    requires Inv(s) && s.live && s.v1 > 0 && s.v2 == 0 && p < |s.ps| && s.ps[p].pc.Idle?
    ensures var q := s.ps[p];
            Runs(s, p, Create(initval), 5, s.(v1 := s.v1 - 1,
                   ps := s.ps[p := q.(joined := q.joined + 1, id := s.gen, adj1 := q.adj1 + 1)]))
  {
    var c, q, id := Create(initval), s.ps[p], s.gen;
    assert ProcOk(s, q);
    hide Inv, Runs;
    var s1, s2 := Jump(s, p, CGet(initval)), Jump(s, p, CLock(initval, id));
    var s3 := s.(v2 := 1, ps := s.ps[p := q.(pc := CCount(initval, id), adj2 := -1)]);
    var s4 := s.(v2 := 1, ps := s.ps[p := q.(pc := CEnd(id), adj2 := -1)]);
    var s5 := s.(v1 := s.v1 - 1, ps := s.ps[p := q.(joined := q.joined + 1, id := id, adj1 := q.adj1 + 1)]);
    Went(s, p, c, 0, s, s1);
    Went(s, p, c, 1, s1, s2);
    Went(s, p, c, 2, s2, s3);
    Went(s, p, c, 3, s3, s4);
    Went(s, p, c, 4, s4, s5);
  }

  // sem_close while there are other users: one user less, and [0] as it was
  lemma Closes(s: State, p: nat)
    requires Inv(s) && s.v2 == 0 && p < |s.ps| && s.ps[p].pc.Idle? && s.ps[p].joined > 0 && Users(s.ps) > 1
    ensures var q := s.ps[p];
            Runs(s, p, Close, 4, s.(v1 := s.v1 + 1,
                   ps := s.ps[p := q.(joined := q.joined - 1, adj1 := q.adj1 - 1)]))
  {
    var c, q, id := Close, s.ps[p], s.gen;
    assert ProcOk(s, q) && s.v1 < BIGCOUNT - 1;
    hide Inv, Runs, Users;
    var s1 := Jump(s, p, XLock(id));
    var q2 := q.(joined := q.joined - 1, adj1 := q.adj1 - 1);
    var s2 := s.(v1 := s.v1 + 1, v2 := 1, ps := s.ps[p := q2.(pc := XCount(id), adj2 := -1)]);
    var s3 := s2.(ps := s.ps[p := q2.(pc := XUnlock(id), adj2 := -1)]);
    Went(s, p, c, 0, s, s1);
    Went(s, p, c, 1, s1, s2);
    Went(s, p, c, 2, s2, s3);
    Went(s, p, c, 3, s3, s.(v1 := s.v1 + 1, ps := s.ps[p := q2]));
  }

  // sem_close by the last user: the set is gone, and no process has an undo value left
  lemma ClosesLast(s: State, p: nat) returns (s': State)
    requires Inv(s) && s.v2 == 0 && p < |s.ps| && s.ps[p].pc.Idle? && s.ps[p].joined > 0 && Users(s.ps) == 1
    ensures Runs(s, p, Close, 4, s') && !s'.live && s'.gen == s.gen && |s'.ps| == |s.ps|
    ensures forall r | 0 <= r < |s.ps| :: s'.ps[r] == Proc(s.ps[r].pc, 0, s.ps[r].id, 0, 0, 0)
  {
    var c, q, id := Close, s.ps[p], s.gen;
    assert ProcOk(s, q) && s.v1 == BIGCOUNT - 1;
    ZeroUsers(s.ps, p);
    OneUser(s.ps, p);
    hide Inv, Runs, Users;
    var s1 := Jump(s, p, XLock(id));
    var q2 := q.(joined := 0, adj1 := q.adj1 - 1);
    var s2 := s.(v1 := BIGCOUNT, v2 := 1, ps := s.ps[p := q2.(pc := XCount(id), adj2 := -1)]);
    var s3 := s2.(ps := s.ps[p := q2.(pc := XRemove(id), adj2 := -1)]);
    s' := Next(s3, p, c);
    Went(s, p, c, 0, s, s1);
    Went(s, p, c, 1, s1, s2);
    Went(s, p, c, 2, s2, s3);
    Went(s, p, c, 3, s3, s');
  }

  lemma {:induction false} OneUser(ps: seq<Proc>, p: nat)
    requires p < |ps| && ps[p].joined == Users(ps)
    ensures forall r | 0 <= r < |ps| && r != p :: ps[r].joined == 0
  {
    if p == 0 {
      NoneJoined(ps[1..]);
      assert forall r | 1 <= r < |ps| :: ps[r] == ps[1..][r - 1];
    } else {
      ZeroUsers(ps[1..], p - 1);
      OneUser(ps[1..], p - 1);
      assert forall r | 1 <= r < |ps| :: ps[r] == ps[1..][r - 1];
    }
  }

  // a process waits exactly for another one's lock, for [0] to be large enough, or for a free place among
  // BIGCOUNT users
  lemma WaitsExactly(s: State, p: nat)
    requires Inv(s) && p < |s.ps|
    ensures var pc := s.ps[p].pc;
            Enabled(s, p) <==>
              && (pc.Op? ==> s.v0 + pc.amount >= 0) && (pc.CEnd? ==> Users(s.ps) < BIGCOUNT)
              && (pc.XLock? || (pc.CLock? && s.live && s.gen == pc.id)
                  ==> forall r | 0 <= r < |s.ps| :: !HasLock(s.ps[r].pc))
  {
    hide Users, Owing;
    var pc := s.ps[p].pc;
    assert ProcOk(s, s.ps[p]);
    LockFacts(s, p);
  }
}
