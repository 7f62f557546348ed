/**
 The print daemon's job queue: the doubly linked list, the job numbers, and the client threads and
 the printer thread that share the queue through joblock and the condition variable jobwait.
 */
module Printd {

  // ---- what the three list operations do to the queue ----

  function Added<T>(q: seq<T>, j: T): seq<T> { q + [j] }

  function Replaced<T>(q: seq<T>, j: T): seq<T> { [j] + q }

  function Removed<T>(q: seq<T>, k: nat): seq<T>
    requires k < |q|
  {
    q[..k] + q[k + 1..]
  }

  // ---- the doubly linked list ----

  class Job {
    const jobid: int
    var next: Job?
    var prev: Job?

    constructor (jobid: int)
      ensures this.jobid == jobid && next == null
    {
      this.jobid := jobid;
      next, prev := null, null;
    }
  }

  // the job at position i; null at either end
  ghost function At(q: seq<Job>, i: int): Job? { if 0 <= i < |q| then q[i] else null }

  // the job at position i points at its neighbours
  ghost predicate LinksOk(q: seq<Job>, i: nat)
    reads q
  {
    i < |q| ==> q[i].next == At(q, i + 1) && q[i].prev == At(q, i - 1)
  }

  class JobList {
    var jobhead: Job?
    var jobtail: Job?
    ghost var q: seq<Job>    // the jobs in the order they will be printed

    ghost predicate Valid()
      reads this, q
    {
      && Distinct(q)
      && jobhead == (if q == [] then null else q[0])
      && jobtail == (if q == [] then null else q[|q| - 1])
      && forall i | 0 <= i < |q| :: LinksOk(q, i)
    }

    constructor ()
      ensures Valid() && q == []
    {
      jobhead, jobtail, q := null, null, [];
    }

    // add_job, inside the lock
    method AddJob(jp: Job)
      requires Valid() && jp !in q && jp.next == null
      modifies this, jp, q
      ensures Valid() && q == old(q) + [jp]
    {
      jp.prev := jobtail;
      if jobtail == null {
        jobhead := jp;
      } else {
        jobtail.next := jp;
      }
      jobtail := jp;
      q := q + [jp];
      forall i | 0 <= i < |q| ensures LinksOk(q, i) {
        if i < |q| - 1 { assert q[i] == old(q)[i] && old(LinksOk(q, i)); }
      }
    }

    // replace_job, inside the lock
    method ReplaceJob(jp: Job)
      requires Valid() && jp !in q
      modifies this, jp, q
      ensures Valid() && q == [jp] + old(q)
    {
      assert Replaced(q, jp) == [jp] + q;
      hide Replaced, Distinct;
      ghost var was := q;
      jp.prev := null;
      jp.next := jobhead;
      if jobhead == null {
        jobtail := jp;
      } else {
        jobhead.prev := jp;
      }
      jobhead := jp;
      q := Replaced(q, jp);
      forall i: nat | i < |was| ensures Pushed(was, jp, i) {
        assert old(LinksOk(q, i));
        if i > 0 { DistinctAt(was, 0, i); }
      }
      ReplacedEnds(was, jp);
      forall i | 0 <= i < |q| ensures LinksOk(q, i) {
        if i > 0 { assert Pushed(was, jp, i - 1); }
        ReplacedAt(was, jp, i);
      }
    }

    // remove_job: target is anywhere in the list
    method RemoveJob(target: Job, ghost k: nat)
      requires Valid() && k < |q| && q[k] == target
      modifies this, q
      ensures Valid() && q == old(q)[..k] + old(q)[k + 1..]
    {
      assert Removed(q, k) == q[..k] + q[k + 1..];
      hide Removed, Distinct;
      ghost var was := q;
      assert LinksOk(q, k);
      assert (k + 1 < |q| ==> q[k + 1] in q) && (k > 0 ==> q[k - 1] in q);
      if target.next != null {
        target.next.prev := target.prev;
      } else {
        jobtail := target.prev;
      }
      if target.prev != null {
        target.prev.next := target.next;
      } else {
        jobhead := target.next;
      }
      q := Removed(q, k);
      forall i: nat | i < |was| && i != k ensures Bypassed(was, k, i) {
        assert old(LinksOk(q, i));
        if k + 1 < |was| && i != k + 1 { DistinctAt(was, i, k + 1); }
        if k > 0 && i != k - 1 { DistinctAt(was, i, k - 1); }
      }
      RemovedEnds(was, k);
      forall i | 0 <= i < |q| ensures LinksOk(q, i) {
        assert Bypassed(was, k, if i < k then i else i + 1);
        RemovedAt(was, k, i);
      }
    }
  }

  // the job at position i has jp in front of it if it was the first
  ghost predicate Pushed(q: seq<Job>, jp: Job, i: nat)
    reads q
  {
    i < |q| ==> q[i].next == At(q, i + 1) && q[i].prev == (if i == 0 then jp else At(q, i - 1))
  }

  // the job at position i points past the one at position k
  ghost predicate Bypassed(q: seq<Job>, k: nat, i: nat)
    reads q
  {
    i < |q| ==>
      q[i].next == At(q, if i + 1 == k then k + 1 else i + 1)
      && q[i].prev == At(q, if i - 1 == k then k - 1 else i - 1)
  }

  ghost predicate Distinct(q: seq<Job>) { forall i, j | 0 <= i < j < |q| :: q[i] != q[j] }

  lemma DistinctAt(q: seq<Job>, i: nat, j: nat)
    requires Distinct(q) && i < |q| && j < |q| && i != j
    ensures q[i] != q[j]
  {
  }

  lemma ReplacedEnds(q: seq<Job>, jp: Job)
    requires Distinct(q) && jp !in q
    ensures var r := Replaced(q, jp);
              |r| == |q| + 1 && Distinct(r) && r[0] == jp
              && r[|r| - 1] == (if q == [] then jp else q[|q| - 1])
  {
  }

  lemma ReplacedAt(q: seq<Job>, jp: Job, i: nat)
    requires i <= |q|
    ensures var r := Replaced(q, jp);
            && |r| == |q| + 1 && r[i] == (if i == 0 then jp else q[i - 1])
            && At(r, i + 1) == At(q, i) && At(r, i - 1) == (if i == 1 then jp else At(q, i - 2))
  {
  }

  lemma RemovedEnds(q: seq<Job>, k: nat)
    requires Distinct(q) && k < |q|
    ensures var r := Removed(q, k);
            && |r| == |q| - 1 && Distinct(r)
            && At(r, 0) == At(q, if k == 0 then 1 else 0)
              && At(r, |r| - 1) == At(q, if k == |q| - 1 then |q| - 2 else |q| - 1)
  {
    var r := Removed(q, k);
    assert forall i | 0 <= i < |r| :: r[i] == q[if i < k then i else i + 1];
  }

  lemma RemovedAt(q: seq<Job>, k: nat, i: nat)
    requires k < |q| && i < |q| - 1
    ensures var r, o := Removed(q, k), if i < k then i else i + 1;
            && |r| == |q| - 1 && r[i] == q[o]
            && At(r, i + 1) == At(q, if o + 1 == k then k + 1 else o + 1)
              && At(r, i - 1) == At(q, if o - 1 == k then k - 1 else o - 1)
  {
  }

  // ---- job numbers ----

  const INT32_MAX := 0x7FFF_FFFF

  // int32_t arithmetic
  function Wrap32(x: int): int { (x + 0x8000_0000) % 0x1_0000_0000 - 0x8000_0000 }

  // the number given out k calls after first
  function NthJobNo(first: int, k: nat): (n: int)
    requires 1 <= first <= INT32_MAX
    ensures 1 <= n <= INT32_MAX
  {
    (first - 1 + k) % INT32_MAX + 1
  }

  lemma NthJobNoStep(first: int, k: nat)
    requires 1 <= first <= INT32_MAX
    ensures var n := NthJobNo(first, k); NthJobNo(first, k + 1) == if n == INT32_MAX then 1 else n + 1
    ensures NthJobNo(first, 0) == first
  {
  }

  lemma JobNosDistinct(first: int, i: nat, k: nat)
    requires 1 <= first <= INT32_MAX && i < k < i + INT32_MAX
    ensures NthJobNo(first, i) != NthJobNo(first, k)
  {
  }

  class JobNumbers {
    var nextjob: int
    ghost const first: int
    ghost var given: seq<int>    // the numbers handed out so far

    ghost predicate Valid()
      reads this
    {
      && 1 <= first <= INT32_MAX && nextjob == NthJobNo(first, |given|)
      && forall i | 0 <= i < |given| :: given[i] == NthJobNo(first, i)
    }

    constructor (first: int)
      requires 1 <= first <= INT32_MAX
      ensures Valid() && nextjob == this.first == first && given == []
    {
      nextjob, this.first, given := first, first, [];
    }

    method GetNewJobNo() returns (jobid: int)
      requires Valid()
      modifies this
      ensures Valid() && given == old(given) + [jobid] && 1 <= jobid <= INT32_MAX
      ensures jobid == old(nextjob) && nextjob == if jobid == 0x7FFF_FFFF then 1 else jobid + 1
    {
      NthJobNoStep(first, |given|);
      jobid := nextjob;
      nextjob := Wrap32(nextjob + 1);
      if nextjob <= 0 {
        nextjob := 1;
      }
      given := given + [jobid];
    }

    // a number is handed out again only after all others have been
    lemma GivenDistinct(i: nat, k: nat)
      requires Valid() && i < k < |given| && k < i + INT32_MAX
      ensures given[i] != given[k]
    {
      JobNosDistinct(first, i, k);
    }
  }

  // ---- the threads ----

  datatype ClientPc =
    | Idle
    | Lock(jobid: int)       // add_job: lock joblock
    | Append(jobid: int)     // link the job at the tail
    | Unlock
    | Signal                 // pthread_cond_signal, after the unlock

  datatype PrinterPc =
    | PLock
    | PTest                  // while (jobhead == NULL)
    | PBlocked               // inside pthread_cond_wait, joblock released
    | PRelock                // woken, taking joblock again
    | PTake                  // remove_job(jp = jobhead)
    | PUnlock(jobid: int)
    | PPrint(jobid: int)     // everything between the unlock and the end of the round
    | PReplaceLock(jobid: int)
    | PReplace(jobid: int)
    | PReplaceUnlock
    | PSleep                 // nanosleep

  // added: the jobs linked by add_job, in that order; finished: the jobs printed or cancelled
  datatype State = State(q: seq<int>, lock: bool, clients: seq<ClientPc>, printer: PrinterPc, added: seq<int>,
      finished: seq<int>)

  // a client starts a call with a job, or goes on with it; the printer's round may end either way;
  // a wait may end without a signal
  datatype Act = Client(c: nat, jobid: int) | Printer(done: bool) | WakeUp

  ghost predicate ClientStep(s: State, c: nat, jobid: int, s': State) {
    && c < |s.clients|
    && match s.clients[c]
       case Idle => s' == s.(clients := s.clients[c := Lock(jobid)])
       case Lock(j) => !s.lock && s' == s.(lock := true, clients := s.clients[c := Append(j)])
       case Append(j) => s' == s.(q := Added(s.q, j), added := s.added + [j], clients := s.clients[c := Unlock])
       case Unlock => s' == s.(lock := false, clients := s.clients[c := Signal])
       case Signal => s' == s.(clients := s.clients[c := Idle], printer := if s.printer.PBlocked? then PRelock
         else s.printer)
  }

  ghost predicate PrinterStep(s: State, done: bool, s': State) {
    match s.printer
    case PLock => !s.lock && s' == s.(lock := true, printer := PTest)
    case PTest => s' == if s.q == [] then s.(lock := false, printer := PBlocked) else s.(printer := PTake)
    case PBlocked => false
    case PRelock => !s.lock && s' == s.(lock := true, printer := PTest)
    case PTake => |s.q| > 0 && s' == s.(q := Removed(s.q, 0), printer := PUnlock(s.q[0]))
    case PUnlock(j) => s' == s.(lock := false, printer := PPrint(j))
    case PPrint(j) => s' == if done then s.(finished := s.finished + [j], printer := PLock)
      else s.(printer := PReplaceLock(j))
    case PReplaceLock(j) => !s.lock && s' == s.(lock := true, printer := PReplace(j))
    case PReplace(j) => s' == s.(q := Replaced(s.q, j), printer := PReplaceUnlock)
    case PReplaceUnlock => s' == s.(lock := false, printer := PSleep)
    case PSleep => s' == s.(printer := PLock)
  }

  ghost predicate Step(s: State, a: Act, s': State) {
    match a
    case Client(c, jobid) => ClientStep(s, c, jobid, s')
    case Printer(done) => PrinterStep(s, done, s')
    case WakeUp => s.printer.PBlocked? && s' == s.(printer := PRelock)
  }

  ghost predicate Init(s: State) {
    && s.q == [] && !s.lock && s.printer == PLock && s.added == [] && s.finished == []
    && forall c | 0 <= c < |s.clients| :: s.clients[c] == Idle
  }

  predicate ClientHolds(pc: ClientPc) { pc.Append? || pc.Unlock? }

  predicate PrinterHolds(pc: PrinterPc) {
    pc.PTest? || pc.PTake? || pc.PUnlock? || pc.PReplace? || pc.PReplaceUnlock?
  }

  // the job the printer thread has taken off the queue and neither finished nor put back
  function InFlight(pc: PrinterPc): seq<int> {
    if pc.PUnlock? || pc.PPrint? || pc.PReplaceLock? || pc.PReplace? then [pc.jobid] else []
  }

  ghost predicate LockOk(s: State) {
    && (PrinterHolds(s.printer) ==> s.lock && forall c | 0 <= c < |s.clients| :: !ClientHolds(s.clients[c]))
    && (forall c | 0 <= c < |s.clients| && ClientHolds(s.clients[c]) :: s.lock)
    && (forall c, d | 0 <= c < d < |s.clients| :: !(ClientHolds(s.clients[c]) && ClientHolds(s.clients[d])))
    && (s.lock && !PrinterHolds(s.printer) ==> exists c :: 0 <= c < |s.clients| && ClientHolds(s.clients[c]))
  }

  // a client that has linked its job and is about to signal
  ghost predicate SignalPending(s: State) {
    exists c :: 0 <= c < |s.clients| && (s.clients[c].Unlock? || s.clients[c].Signal?)
  }

  ghost predicate Inv(s: State) {
    && LockOk(s)
    && s.added == s.finished + InFlight(s.printer) + s.q
    && (s.printer.PTake? ==> s.q != [])
    && (s.q != [] && s.printer.PBlocked? ==> SignalPending(s))
  }

  lemma InitInv(s: State)
    requires Init(s)
    ensures Inv(s)
  {
  }

  lemma ClientInv(s: State, c: nat, jobid: int, s': State)
    requires Inv(s) && ClientStep(s, c, jobid, s')
    ensures Inv(s')
  {
    if s'.q != [] && s'.printer.PBlocked? {
      if s.clients[c].Append? {
        assert s'.clients[c].Unlock?;
      } else {
        var d :| 0 <= d < |s.clients| && (s.clients[d].Unlock? || s.clients[d].Signal?);
        assert s'.clients[d].Unlock? || s'.clients[d].Signal?;
      }
    }
    if s'.lock && !PrinterHolds(s'.printer) {
      if ClientHolds(s'.clients[c]) {
      } else {
        var d :| 0 <= d < |s.clients| && ClientHolds(s.clients[d]);
        assert s'.clients[d] == s.clients[d];
      }
    }
  }

  lemma PrinterLock(s: State, done: bool, s': State)
    requires LockOk(s) && PrinterStep(s, done, s')
    ensures LockOk(s')
  {
    hide Added, Removed, Replaced;
    if s'.lock && !PrinterHolds(s'.printer) {
      var d :| 0 <= d < |s.clients| && ClientHolds(s.clients[d]);
      assert s'.clients[d] == s.clients[d];
    }
  }

  lemma PrinterOrder(s: State, done: bool, s': State)
    requires s.added == s.finished + InFlight(s.printer) + s.q && PrinterStep(s, done, s')
    ensures s'.added == s'.finished + InFlight(s'.printer) + s'.q
  {
    var a, q, pc := s.finished, s.q, s.printer;
    if pc.PTake? { TakeFirst(a, q); }
    if pc.PPrint? || pc.PReplace? { PutBack(a, pc.jobid, q); }
    hide Removed, Replaced;
  }

  lemma TakeFirst(a: seq<int>, q: seq<int>)
    requires |q| > 0
    ensures a + [] + q == a + [q[0]] + Removed(q, 0)
  {
    assert q == [q[0]] + Removed(q, 0);
  }

  lemma PutBack(a: seq<int>, j: int, q: seq<int>)
    ensures a + [j] + q == a + [] + Replaced(q, j)
    ensures a + [j] + q == (a + [j]) + [] + q
  {
  }

  lemma PrinterInv(s: State, done: bool, s': State)
    requires Inv(s) && PrinterStep(s, done, s')
    ensures Inv(s')
  {
    PrinterLock(s, done, s');
    PrinterOrder(s, done, s');
    hide LockOk, InFlight;
  }

  // every step keeps the order of the jobs and loses no wake-up
  lemma StepInv(s: State, a: Act, s': State)
    requires Inv(s) && Step(s, a, s')
    ensures Inv(s')
  {
    match a {
      case Client(c, jobid) => ClientInv(s, c, jobid, s');
      case Printer(done) => PrinterInv(s, done, s');
      case WakeUp =>
        if s.lock { var d :| 0 <= d < |s.clients| && ClientHolds(s.clients[d]); assert s'.clients[d] == s.clients[d]; }
    }
  }

  // while the queue is not empty the printer thread is not left waiting: the client about to signal
  // can step, and its signal wakes the printer
  lemma NoLostWakeUp(s: State) returns (c: nat)
    requires Inv(s) && s.q != [] && s.printer.PBlocked?
    ensures c < |s.clients| && (s.clients[c].Unlock? || s.clients[c].Signal?)
    ensures forall jobid, s' | ClientStep(s, c, jobid, s') :: s'.clients[c].Signal? || s'.printer.PRelock?
    ensures exists s' :: ClientStep(s, c, 0, s')
  {
    c :| c < |s.clients| && (s.clients[c].Unlock? || s.clients[c].Signal?);
    var s' := if s.clients[c].Unlock? then s.(lock := false, clients := s.clients[c := Signal])
              else s.(clients := s.clients[c := Idle], printer := PRelock);
    assert ClientStep(s, c, 0, s');
  }

  // some thread that is not between calls can always go on, unless only the printer is left, waiting for work
  lemma NobodyStuck(s: State)
    requires Inv(s) && (s.q != [] || exists c :: 0 <= c < |s.clients| && !s.clients[c].Idle?)
    ensures exists a, s' :: Step(s, a, s') && a != WakeUp && (a.Client? ==> a.c < |s.clients| && !s.clients[a.c].Idle?)
  {
    if s.lock && !PrinterHolds(s.printer) {
      var c :| 0 <= c < |s.clients| && ClientHolds(s.clients[c]);
      ClientCan(s, c);
    } else if s.printer.PBlocked? {
      var c: nat;
      if s.q != [] { c := NoLostWakeUp(s); } else { c :| c < |s.clients| && !s.clients[c].Idle?; }
      ClientCan(s, c);
    } else {
      PrinterCan(s);
    }
  }

  lemma ClientCan(s: State, c: nat)
    requires c < |s.clients| && !s.clients[c].Idle? && (s.clients[c].Lock? ==> !s.lock)
    ensures exists s' :: ClientStep(s, c, 0, s') && Step(s, Client(c, 0), s')
  {
    var pc := s.clients[c];
    var s' := match pc
              case Lock(j) => s.(lock := true, clients := s.clients[c := Append(j)])
              case Append(j) => s.(q := Added(s.q, j), added := s.added + [j], clients := s.clients[c := Unlock])
              case Unlock => s.(lock := false, clients := s.clients[c := Signal])
              case Signal => s.(clients := s.clients[c := Idle], printer := if s.printer.PBlocked? then PRelock
                else s.printer);
    assert ClientStep(s, c, 0, s') && Step(s, Client(c, 0), s');
  }

  lemma PrinterCan(s: State)
    requires !s.printer.PBlocked? && (s.lock ==> PrinterHolds(s.printer)) && (s.printer.PTake? ==> s.q != [])
    ensures exists s' :: PrinterStep(s, true, s') && Step(s, Printer(true), s')
  {
    var s' := match s.printer
              case PLock => s.(lock := true, printer := PTest)
              case PTest => if s.q == [] then s.(lock := false, printer := PBlocked) else s.(printer := PTake)
              case PRelock => s.(lock := true, printer := PTest)
              case PTake => s.(q := Removed(s.q, 0), printer := PUnlock(s.q[0]))
              case PUnlock(j) => s.(lock := false, printer := PPrint(j))
              case PPrint(j) => s.(finished := s.finished + [j], printer := PLock)
              case PReplaceLock(j) => s.(lock := true, printer := PReplace(j))
              case PReplace(j) => s.(q := Replaced(s.q, j), printer := PReplaceUnlock)
              case PReplaceUnlock => s.(lock := false, printer := PSleep)
              case PSleep => s.(printer := PLock);
    assert PrinterStep(s, true, s') && Step(s, Printer(true), s');
  }

  // ---- runs ----

  ghost predicate StepsTo(s: State, s': State) { exists a :: Step(s, a, s') }

  ghost predicate Run(trace: seq<State>) {
    |trace| > 0 && Init(trace[0]) && forall i | 0 <= i < |trace| - 1 :: StepsTo(trace[i], trace[i + 1])
  }

  lemma {:induction false} RunInv(trace: seq<State>, k: nat)
    requires Run(trace) && k < |trace|
    ensures Inv(trace[k])
  {
    hide Inv, Init, Step;
    if k == 0 {
      InitInv(trace[0]);
    } else {
      RunInv(trace, k - 1);
      assert StepsTo(trace[k - 1], trace[k - 1 + 1]);
      var a :| Step(trace[k - 1], a, trace[k]);
      StepInv(trace[k - 1], a, trace[k]);
    }
  }

  // in every run jobs are finished in the order they were added, with at most one in flight: a
  // deferred job keeps its turn
  lemma KeepsTurn(trace: seq<State>, k: nat)
    requires Run(trace) && k < |trace|
    ensures var s := trace[k];
            |InFlight(s.printer)| <= 1 && s.finished <= s.added && s.finished + InFlight(s.printer) + s.q == s.added
  {
    hide Run;
    RunInv(trace, k);
  }

  // ---- what the steps add up to ----

  // a step links at most one job, the one a client is linking, behind all others; and finishes at most
  // one, the one the printer is printing
  lemma OneJobAStep(s: State, a: Act, s': State)
    requires Step(s, a, s')
    ensures |s'.clients| == |s.clients|
    ensures s'.added == s.added + if a.Client? && s.clients[a.c].Append? then [s.clients[a.c].jobid] else []
    ensures s'.finished == s.finished + if a == Printer(true) && s.printer.PPrint? then [s.printer.jobid] else []
  {
    hide Added, Replaced, Removed;
    assert s.added + [] == s.added && s.finished + [] == s.finished;
  }

  // the jobs that clients have asked for but not linked yet
  function Waiting(clients: seq<ClientPc>): multiset<int> {
    if clients == [] then multiset{} else Asked(clients[0]) + Waiting(clients[1..])
  }

  function Asked(pc: ClientPc): multiset<int> {
    if pc.Lock? || pc.Append? then multiset{pc.jobid} else multiset{}
  }

  lemma {:induction false} WaitingUpdate(clients: seq<ClientPc>, c: nat, pc: ClientPc)
    requires c < |clients|
    ensures Waiting(clients[c := pc]) + Asked(clients[c]) == Waiting(clients) + Asked(pc)
  {
    hide Asked;
    if c == 0 {
      assert clients[0 := pc][1..] == clients[1..];
    } else {
      var rest, rest' := clients[1..], clients[1..][c - 1 := pc];
      assert clients[c := pc][1..] == rest' && clients[c := pc][0] == clients[0] && rest[c - 1] == clients[c];
      WaitingUpdate(rest, c - 1, pc);
      var w, x := Waiting(rest), Waiting(rest');
      assert x + Asked(clients[c]) == w + Asked(pc);
      var e := Asked(clients[0]);
      assert Waiting(clients[c := pc]) == e + x && Waiting(clients) == e + w;
      assert (e + x) + Asked(clients[c]) == e + (x + Asked(clients[c])) == e + (w + Asked(pc)) == (e + w) + Asked(pc);
    }
  }

  ghost predicate Acted(trace: seq<State>, acts: seq<Act>) {
    |trace| == |acts| + 1 && Init(trace[0]) && forall i | 0 <= i < |acts| :: Step(trace[i], acts[i], trace[i + 1])
  }

  // the step is a client's first step with a new job
  predicate AsksFor(s: State, a: Act) { a.Client? && a.c < |s.clients| && s.clients[a.c].Idle? }

  // the jobs of all calls made so far
  ghost function AskedFor(trace: seq<State>, acts: seq<Act>): multiset<int>
    requires |trace| == |acts| + 1
    decreases |acts|
  {
    if acts == [] then multiset{}
    else
      var n := |acts| - 1;
      AskedFor(trace[..n + 1], acts[..n]) + if AsksFor(trace[n], acts[n]) then multiset{acts[n].jobid} else multiset{}
  }

  lemma ClientMoves(s: State, a: Act, s': State)
    requires Step(s, a, s') && a.Client?
    ensures a.c < |s.clients| && |s'.clients| == |s.clients| && s'.clients == s.clients[a.c := s'.clients[a.c]]
    ensures AskMoves(s.clients[a.c], s'.clients[a.c], s.added, s'.added, a.jobid)
  {
    hide Added;
  }

  predicate AskMoves(pc: ClientPc, pc': ClientPc, added: seq<int>, added': seq<int>, jobid: int) {
    match pc
    case Idle => pc' == Lock(jobid) && added' == added
    case Lock(j) => pc' == Append(j) && added' == added
    case Append(j) => pc' == Unlock && added' == added + [j]
    case _ => (pc'.Signal? || pc'.Idle?) && added' == added
  }

  lemma AskedMoves(pc: ClientPc, pc': ClientPc, added: seq<int>, added': seq<int>, jobid: int)
    requires AskMoves(pc, pc', added, added', jobid)
    ensures multiset(added') + Asked(pc')
            == multiset(added) + Asked(pc) + if pc.Idle? then multiset{jobid} else multiset{}
  {
    if pc.Append? { assert multiset(added + [pc.jobid]) == multiset(added) + multiset{pc.jobid}; }
  }

  lemma ClientAsks(s: State, a: Act, s': State)
    requires Step(s, a, s')
    ensures multiset(s'.added) + Waiting(s'.clients)
            == multiset(s.added) + Waiting(s.clients) + if AsksFor(s, a) then multiset{a.jobid} else multiset{}
  {
    hide Waiting, Asked, AskMoves;
    if a.Client? {
      ClientMoves(s, a, s');
      hide Step;
      var pc, pc' := s.clients[a.c], s'.clients[a.c];
      WaitingUpdate(s.clients, a.c, pc');
      AskedMoves(pc, pc', s.added, s'.added, a.jobid);
      Cancel(multiset(s.added), multiset(s'.added), Waiting(s.clients), Waiting(s'.clients), Asked(pc), Asked(pc'),
             if AsksFor(s, a) then multiset{a.jobid} else multiset{});
    } else {
      PrinterAsks(s, a, s');
    }
  }

  lemma PrinterAsks(s: State, a: Act, s': State)
    requires Step(s, a, s') && !a.Client?
    ensures s'.clients == s.clients && s'.added == s.added && !AsksFor(s, a)
  {
    hide Removed, Replaced;
  }

  lemma Cancel(a: multiset<int>, a': multiset<int>, w: multiset<int>, w': multiset<int>, p: multiset<int>,
      p': multiset<int>, x: multiset<int>)
    requires w' + p == w + p' && a' + p' == a + p + x
    ensures a' + w' == a + w + x
  {
    forall j ensures (a' + w')[j] == (a + w + x)[j] {
      assert (w' + p)[j] == (w + p')[j] && (a' + p')[j] == (a + p + x)[j];
    }
  }

  // in every run each job asked for is linked once, or is still on its way into the queue
  lemma {:induction false} LinkedOnce(trace: seq<State>, acts: seq<Act>)
    requires Acted(trace, acts)
    ensures var s := trace[|acts|]; multiset(s.added) + Waiting(s.clients) == AskedFor(trace, acts)
    decreases |acts|
  {
    hide Step, AsksFor;
    var n := |acts| - 1;
    if n < 0 {
      NoneWaiting(trace[0].clients);
    } else {
      hide Waiting;
      assert trace[..n + 1][n] == trace[n] && trace[..n + 1][0] == trace[0];
      forall i | 0 <= i < n ensures Step(trace[..n + 1][i], acts[..n][i], trace[..n + 1][i + 1]) {
        assert Step(trace[i], acts[i], trace[i + 1]);
      }
      LinkedOnce(trace[..n + 1], acts[..n]);
      ClientAsks(trace[n], acts[n], trace[n + 1]);
    }
  }

  lemma {:induction false} NoneWaiting(clients: seq<ClientPc>)
    requires forall c | 0 <= c < |clients| :: clients[c] == Idle
    ensures Waiting(clients) == multiset{}
  {
    if clients != [] { NoneWaiting(clients[1..]); }
  }

  // ---- a thread that nobody interrupts ----

  ghost predicate Reaches(s: State, acts: seq<Act>, s': State)
    decreases |acts|
  {
    if acts == [] then s == s' else exists m :: Step(s, acts[0], m) && Reaches(m, acts[1..], s')
  }

  lemma {:induction false} ReachesThen(s: State, acts: seq<Act>, m: State, a: Act, s': State)
    requires Reaches(s, acts, m) && Step(m, a, s')
    ensures Reaches(s, acts + [a], s')
    decreases |acts|
  {
    hide Step;
    if acts == [] {
      assert [a][1..] == [] && acts + [a] == [a];
      assert Reaches(s', [a][1..], s');
    } else {
      var n :| Step(s, acts[0], n) && Reaches(n, acts[1..], m);
      ReachesThen(n, acts[1..], m, a, s');
      assert (acts + [a])[1..] == acts[1..] + [a];
    }
  }

  lemma OneOutcome(s: State, a: Act, s1: State, s2: State)
    requires Step(s, a, s1) && Step(s, a, s2)
    ensures s1 == s2
  {
    hide Added, Replaced, Removed;
  }

  // a client adds its job behind all others and wakes a waiting printer
  lemma AddsLast(s: State, c: nat, jobid: int)
    requires c < |s.clients| && s.clients[c] == Idle && !s.lock
    ensures var a := Client(c, jobid);
            Reaches(s, [a, a, a, a, a], s.(q := s.q + [jobid], added := s.added + [jobid],
                      printer := if s.printer.PBlocked? then PRelock else s.printer))
  {
    hide Reaches;
    var a := Client(c, jobid);
    var s1 := s.(clients := s.clients[c := Lock(jobid)]);
    var s2 := s.(lock := true, clients := s.clients[c := Append(jobid)]);
    var s3 := s.(q := s.q + [jobid], added := s.added + [jobid]);
    var s4 := s3.(lock := true, clients := s.clients[c := Unlock]);
    var s5 := s3.(clients := s.clients[c := Signal]);
    var s6 := s3.(printer := if s.printer.PBlocked? then PRelock else s.printer);
    assert s.clients[c := Idle] == s.clients;
    var acts: seq<Act> := [];
    Goes(s, acts, s, a, s1); acts := acts + [a];
    Goes(s, acts, s1, a, s2); acts := acts + [a];
    Goes(s, acts, s2, a, s4); acts := acts + [a];
    Goes(s, acts, s4, a, s5); acts := acts + [a];
    Goes(s, acts, s5, a, s6); acts := acts + [a];
    assert acts == [a, a, a, a, a];
  }

  // the printer takes the first job off the queue
  lemma TakesFirst(s: State, done: bool)
    requires s.printer == PLock && !s.lock && s.q != []
    ensures var a := Printer(done); Reaches(s, [a, a, a, a], s.(q := s.q[1..], printer := PPrint(s.q[0])))
  {
    hide Reaches;
    var a, j, t := Printer(done), s.q[0], s.(q := s.q[1..]);
    var acts: seq<Act> := [];
    assert Removed(s.q, 0) == s.q[1..];
    hide Removed;
    Goes(s, acts, s, a, s.(lock := true, printer := PTest)); acts := acts + [a];
    Goes(s, acts, s.(lock := true, printer := PTest), a, s.(lock := true, printer := PTake)); acts := acts + [a];
    Goes(s, acts, s.(lock := true, printer := PTake), a, t.(lock := true, printer := PUnlock(j))); acts := acts + [a];
    Goes(s, acts, t.(lock := true, printer := PUnlock(j)), a, t.(printer := PPrint(j))); acts := acts + [a];
    assert acts == [a, a, a, a];
  }

  // it finishes that job, or puts it back where it was
  lemma PrintsFirst(s: State)
    requires s.printer == PLock && !s.lock && s.q != []
    ensures var a := Printer(true);
            Reaches(s, [a, a, a, a, a], s.(q := s.q[1..], finished := s.finished + [s.q[0]]))
  {
    hide Reaches;
    var a, t := Printer(true), s.(q := s.q[1..]);
    TakesFirst(s, true);
    Goes(s, [a, a, a, a], t.(printer := PPrint(s.q[0])), a, t.(finished := s.finished + [s.q[0]]));
    assert [a, a, a, a] + [a] == [a, a, a, a, a];
  }

  lemma DefersFirst(s: State)
    requires s.printer == PLock && !s.lock && s.q != []
    ensures var a := Printer(false); Reaches(s, [a, a, a, a, a, a, a, a, a], s)
  {
    hide Reaches;
    var a, j, t := Printer(false), s.q[0], s.(q := s.q[1..]);
    var acts := [a, a, a, a];
    TakesFirst(s, false);
    assert Replaced(s.q[1..], j) == s.q;
    hide Replaced;
    Goes(s, acts, t.(printer := PPrint(j)), a, t.(printer := PReplaceLock(j))); acts := acts + [a];
    Goes(s, acts, t.(printer := PReplaceLock(j)), a, t.(lock := true, printer := PReplace(j))); acts := acts + [a];
    Goes(s, acts, t.(lock := true, printer := PReplace(j)), a, s.(lock := true, printer := PReplaceUnlock));
    acts := acts + [a];
    Goes(s, acts, s.(lock := true, printer := PReplaceUnlock), a, s.(printer := PSleep)); acts := acts + [a];
    Goes(s, acts, s.(printer := PSleep), a, s); acts := acts + [a];
    assert acts == [a, a, a, a, a, a, a, a, a];
  }

  lemma Goes(s: State, acts: seq<Act>, m: State, a: Act, s': State)
    requires (if acts == [] then m == s else Reaches(s, acts, m)) && Step(m, a, s')
    ensures Reaches(s, acts + [a], s')
  {
    hide Step;
    ReachesThen(s, acts, m, a, s');
  }
}
