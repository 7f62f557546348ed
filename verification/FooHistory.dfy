/**
 The history of the two-lock table read by itself: every call takes effect once, in the order in
 which its thread made it, and what each call answers follows from the calls before it.
 */
module FooHistory {
  import opened Common
  import opened FooOneLock
  import opened FooTwoLock
  import opened FooSafety
  import opened FooRefines

  // ---- each call takes effect once ----

  // who steps, and the call made if it is idle
  ghost predicate Acted(trace: seq<State2>, acts: seq<(nat, Call)>) {
    && |trace| == |acts| + 1 && Init2(trace[0])
    && forall i | 0 <= i < |acts| ::
         acts[i].0 < |trace[i].threads| && Step2(trace[i], acts[i].0, acts[i].1, trace[i + 1])
  }

  // the step starts a call of thread u; handing over a reference is done in that one step
  predicate Makes(s: State2, act: (nat, Call), u: nat) {
    act.0 == u && u < |s.threads| && s.threads[u].pc.Idle2? && !act.1.Pass?
  }

  // the calls thread u has made so far
  ghost function Begun(trace: seq<State2>, acts: seq<(nat, Call)>, u: nat): seq<Call>
    requires |trace| == |acts| + 1
    decreases |acts|
  {
    if acts == [] then []
    else
      var n := |acts| - 1;
      Begun(trace[..n + 1], acts[..n], u) + if Makes(trace[n], acts[n], u) then [acts[n].1] else []
  }

  function CallOf(e: Event): Call {
    match e
    case Allocated(_, fp, id) => Alloc(fp, id)
    case Held(_, fp) => Hold(fp)
    case Found(_, id, _) => Find(id)
    case Released(_, fp, _) => Rele(fp)
  }

  // the calls of thread u that the history holds
  function Heard(log: seq<Event>, u: nat): seq<Call> {
    if log == [] then []
    else
      var n := |log| - 1;
      Heard(log[..n], u) + if log[n].t == u then [CallOf(log[n])] else []
  }

  function LastOf(log: seq<Event>, u: nat): Option<Event> {
    if log == [] then None
    else
      var n := |log| - 1;
      if log[n].t == u then Some(log[n]) else LastOf(log[..n], u)
  }

  // the call in progress at pc has not taken effect
  predicate Pending(pc: Pc2) {
    || pc.AHash? || pc.ANext? || pc.AHead? || pc.HObj? || pc.HInc? || pc.FHash? || pc.FHead? || pc.FTest? || pc.FObj?
    || pc.FInc? || pc.RObj? || pc.RTest? || pc.RDec? || pc.RRetry? || pc.RHash? || pc.RObj2? || pc.RTest2? || pc.RDec2?
    || pc.RHead? || pc.RSetHead? || pc.RWalk? || pc.RSetNext?
  }

  // a thread on its way out of a call returns what the history says of it
  predicate Told(pc: Pc2, e: Option<Event>) {
    match pc
    case Idle2 => true
    case AObj(fp) => e.Some? && e.value.Allocated? && e.value.fp == fp
    case AUnhash(fp) => e.Some? && e.value.Allocated? && e.value.fp == fp
    case AUnobj(fp) => e.Some? && e.value.Allocated? && e.value.fp == fp
    case HUnobj(fp) => e.Some? && e.value.Held? && e.value.fp == fp
    case FUnobj(fp) => e.Some? && e.value.Found? && e.value.fp == fp
    case FUnhash(fp) => e.Some? && e.value.Found? && e.value.fp == fp
    case RUnobj(fp) => e.Some? && e.value.Released? && e.value.fp == fp && !e.value.last
    case RUnobj2(fp) => e.Some? && e.value.Released? && e.value.fp == fp && !e.value.last
    case RUnhash2 => e.Some? && e.value.Released? && !e.value.last
    case RUnhash3(fp) => e.Some? && e.value.Released? && e.value.fp == fp && e.value.last
    case RUnobj3(fp) => e.Some? && e.value.Released? && e.value.fp == fp && e.value.last
    case RFree(fp) => e.Some? && e.value.Released? && e.value.fp == fp && e.value.last
    case _ => false
  }

  // the calls thread u made are those in the history, but for one in progress that has not taken effect
  ghost predicate Once(pc: Pc2, log: seq<Event>, u: nat, begun: seq<Call>) {
    if Pending(pc) then exists c :: Serves(pc, c) && begun == Heard(log, u) + [c]
    else begun == Heard(log, u) && Told(pc, LastOf(log, u))
  }

  lemma HeardMore(log: seq<Event>, e: Event, u: nat)
    ensures Heard(log + [e], u) == Heard(log, u) + if e.t == u then [CallOf(e)] else []
    ensures LastOf(log + [e], u) == if e.t == u then Some(e) else LastOf(log, u)
  {
    assert (log + [e])[..|log|] == log;
  }

  // what thread t's step adds to the history
  function Says(m: Mem, t: nat, pc: Pc2): (e: Option<Event>)
    ensures e.Some? ==> e.value.t == t
  {
    match pc
    case AHead(fp, id) => Some(Allocated(t, fp, id))
    case HInc(fp) => Some(Held(t, fp))
    case FTest(id, fp) => if fp == 0 then Some(Found(t, id, 0)) else None
    case FInc(id, fp) => Some(Found(t, id, fp))
    case RDec(fp) => Some(Released(t, fp, false))
    case RDec2(fp) => Some(Released(t, fp, false))
    case RSetHead(fp) => Some(Released(t, fp, true))
    case RSetNext(fp, tfp) => Some(Released(t, fp, true))
    case _ => None
  }

  lemma StepSays(s: State2, t: nat)
    requires t < |s.threads| && !s.threads[t].pc.Idle2?
    ensures var e := Says(MemOf(s), t, s.threads[t].pc);
            Next2(s, t, Find(0)).log == s.log + if e.Some? then [e.value] else []
    ensures |Next2(s, t, Find(0)).threads| == |s.threads|
    ensures forall u | 0 <= u < |s.threads| && u != t :: Next2(s, t, Find(0)).threads[u] == s.threads[u]
  {
    hide Hash, Drop, SetChain, SetHead, SetNext, AddCount, ObjAt, HeadOf, ChainAt;
  }

  // up to its effect a thread goes on with its call; the effect is the event of that call
  lemma GoesOn(s: State2, t: nat, c: Call)
    requires t < |s.threads| && Serves(s.threads[t].pc, c)
    ensures var (pc', e) := (Next2(s, t, Find(0)).threads[t].pc, Says(MemOf(s), t, s.threads[t].pc));
            if e.Some? then CallOf(e.value) == c && !Pending(pc') && Told(pc', e) else Pending(pc') && Serves(pc', c)
  {
    hide Hash, Drop, SetChain, SetHead, SetNext, AddCount, ObjAt, HeadOf, ChainAt;
  }

  lemma GoesOut(s: State2, t: nat, last: Option<Event>)
    requires t < |s.threads| && !s.threads[t].pc.Idle2? && !Pending(s.threads[t].pc) && Told(s.threads[t].pc, last)
    ensures var pc' := Next2(s, t, Find(0)).threads[t].pc;
            Says(MemOf(s), t, s.threads[t].pc).None? && !Pending(pc') && Told(pc', last)
  {
    hide Hash, Drop, SetChain, SetHead, SetNext, AddCount, ObjAt, HeadOf, ChainAt;
  }

  lemma OnceWithin(s: State2, t: nat, begun: seq<Call>)
    requires t < |s.threads| && !s.threads[t].pc.Idle2? && Once(s.threads[t].pc, s.log, t, begun)
    ensures Once(Next2(s, t, Find(0)).threads[t].pc, Next2(s, t, Find(0)).log, t, begun)
  {
    hide Next2, Says, Serves, Pending, Told, Heard, LastOf;
    var e := Says(MemOf(s), t, s.threads[t].pc);
    StepSays(s, t);
    assert s.log + [] == s.log;
    if Pending(s.threads[t].pc) {
      var c :| Serves(s.threads[t].pc, c) && begun == Heard(s.log, t) + [c];
      GoesOn(s, t, c);
      if e.Some? { HeardMore(s.log, e.value, t); }
    } else {
      GoesOut(s, t, LastOf(s.log, t));
    }
  }

  lemma OnceStep(s: State2, act: (nat, Call), s': State2, u: nat, begun: seq<Call>)
    requires act.0 < |s.threads| && Step2(s, act.0, act.1, s') && u < |s.threads|
    requires Once(s.threads[u].pc, s.log, u, begun)
    ensures |s'.threads| == |s.threads|
    ensures Once(s'.threads[u].pc, s'.log, u, begun + if Makes(s, act, u) then [act.1] else [])
  {
    hide Hash, Effect2, Heard, LastOf, Once;
    var (t, c) := act;
    assert begun + [] == begun;
    if s.threads[t].pc.Idle2? {
      OnceBegins(s, t, c, u, begun);
    } else {
      assert s' == Next2(s, t, Find(0));
      StepSays(s, t);
      if u == t {
        OnceWithin(s, t, begun);
      } else {
        OnceOther(s, t, u, begun);
      }
    }
  }

  lemma OnceOther(s: State2, t: nat, u: nat, begun: seq<Call>)
    requires t < |s.threads| && u < |s.threads| && t != u && !s.threads[t].pc.Idle2?
    requires Once(s.threads[u].pc, s.log, u, begun)
    ensures Once(s.threads[u].pc, Next2(s, t, Find(0)).log, u, begun)
  {
    hide Effect2, Next2, Heard, LastOf;
    StepSays(s, t);
    var e := Says(MemOf(s), t, s.threads[t].pc);
    assert s.log + [] == s.log;
    if e.Some? { HeardMore(s.log, e.value, u); }
  }

  lemma OnceBegins(s: State2, t: nat, c: Call, u: nat, begun: seq<Call>)
    requires t < |s.threads| && u < |s.threads| && s.threads[t].pc.Idle2? && CallOk2(s, t, c)
    requires Once(s.threads[u].pc, s.log, u, begun)
    ensures var s' := Begin2(s, t, c);
            && |s'.threads| == |s.threads|
            && Once(s'.threads[u].pc, s'.log, u, begun + if Makes(s, (t, c), u) then [c] else [])
  {
    hide Heard, LastOf;
    assert begun + [] == begun;
    if Makes(s, (t, c), u) {
      assert Serves(Begin2(s, t, c).threads[u].pc, c);
    }
  }

  // in every run each call of each thread takes effect exactly once before it returns, in the order
  // in which the thread makes its calls
  lemma {:induction false} EveryCallOnce(trace: seq<State2>, acts: seq<(nat, Call)>, u: nat)
    requires Acted(trace, acts) && u < |trace[0].threads|
    ensures |trace[|acts|].threads| == |trace[0].threads|
    ensures Once(trace[|acts|].threads[u].pc, trace[|acts|].log, u, Begun(trace, acts, u))
    decreases |acts|
  {
    hide Step2, Once, Begun;
    var n := |acts| - 1;
    if n < 0 {
      OnceAtFirst(trace, u);
    } else {
      assert trace[..n + 1][0] == trace[0] && forall i | 0 <= i < n :: acts[..n][i] == acts[i];
      EveryCallOnce(trace[..n + 1], acts[..n], u);
      assert trace[..n + 1][n] == trace[n];
      OnceStep(trace[n], acts[n], trace[n + 1], u, Begun(trace[..n + 1], acts[..n], u));
      OneMoreBegun(trace, acts, u);
    }
  }

  lemma OnceAtFirst(trace: seq<State2>, u: nat)
    requires |trace| == 1 && Init2(trace[0]) && u < |trace[0].threads|
    ensures Once(trace[0].threads[u].pc, trace[0].log, u, Begun(trace, [], u))
  {
  }

  lemma OneMoreBegun(trace: seq<State2>, acts: seq<(nat, Call)>, u: nat)
    requires |trace| == |acts| + 1 && acts != []
    ensures var n := |acts| - 1;
            Begun(trace, acts, u)
            == Begun(trace[..n + 1], acts[..n], u) + if Makes(trace[n], acts[n], u) then [acts[n].1] else []
  {
  }

  // every run is the run of some steps
  lemma {:induction false} RunActed(trace: seq<State2>) returns (acts: seq<(nat, Call)>)
    requires Run2(trace)
    ensures Acted(trace, acts)
    decreases |trace|
  {
    hide Step2, Init2;
    var n := |trace| - 1;
    acts := [];
    if n > 0 {
      forall i | 0 <= i < n - 1 ensures StepsTo(trace[..n][i], trace[..n][i + 1]) {
        assert StepsTo(trace[i], trace[i + 1]);
      }
      var before := RunActed(trace[..n]);
      assert StepsTo(trace[n - 1], trace[n]);
      var t, c :| 0 <= t < |trace[n - 1].threads| && Step2(trace[n - 1], t, c, trace[n]);
      acts := before + [(t, c)];
      forall i | 0 <= i < |acts|
        ensures acts[i].0 < |trace[i].threads| && Step2(trace[i], acts[i].0, acts[i].1, trace[i + 1]) {
        if i < |before| {
          assert trace[..n][i] == trace[i] && trace[..n][i + 1] == trace[i + 1];
          assert acts[i] == before[i];
        }
      }
    }
  }

  // ---- what the calls answer ----

  // references to a that the calls of the history left
  function Net(log: seq<Event>, a: nat): int {
    if log == [] then 0 else Net(log[..|log| - 1], a) + Change(log[|log| - 1], a)
  }

  function Change(e: Event, a: nat): int {
    if e.fp != a then 0 else if e.Released? then -1 else 1
  }

  // when a was last allocated, and under which id; -1 if never
  function Born(log: seq<Event>, a: nat): (n: int)
    ensures -1 <= n < |log| && (n >= 0 ==> log[n].Allocated? && log[n].fp == a)
    ensures forall i | n < i < |log| :: !(log[i].Allocated? && log[i].fp == a)
  {
    if log == [] then -1
    else
      var n := |log| - 1;
      if log[n].Allocated? && log[n].fp == a then n else Born(log[..n], a)
  }

  // an object with this id is in the table
  predicate Named(log: seq<Event>, a: nat, id: int) {
    Net(log, a) > 0 && Born(log, a) >= 0 && log[Born(log, a)].id == id
  }

  // the answer of one call, by the calls that took effect before it
  ghost predicate Right(log: seq<Event>, e: Event) {
    match e
    case Allocated(_, fp, _) => fp != 0 && Net(log, fp) == 0
    case Held(_, fp) => Net(log, fp) > 0
    case Found(_, id, fp) =>
      if fp == 0 then forall a: nat | a != 0 :: !Named(log, a, id)
      else Named(log, fp, id) && forall a: nat | a != 0 && a != fp && Named(log, a, id) :: Born(log, a) < Born(log, fp)
    case Released(_, fp, last) => Net(log, fp) > 0 && (last <==> Net(log, fp) == 1)
  }

  ghost predicate AllRight(log: seq<Event>) {
    forall n | 0 <= n < |log| :: Right(log[..n], log[n])
  }

  lemma NetMore(log: seq<Event>, e: Event, a: nat)
    ensures Net(log + [e], a) == Net(log, a) + Change(e, a)
    ensures Born(log + [e], a) == if e.Allocated? && e.fp == a then |log| else Born(log, a)
  {
    assert (log + [e])[..|log|] == log;
  }

  // ---- the table against its history ----

  // counts are what the history left, and every linked object has a reference
  ghost predicate TallyAt(s: State2, a: nat) {
    if OnChain(s, a) then Net(s.log, a) == s.objs[a].count > 0 else Net(s.log, a) == 0
  }

  ghost predicate Tallied(s: State2) { forall a: nat | a != 0 :: TallyAt(s, a) }

  // a linked object has the id under which it was last allocated
  ghost predicate DatedAt(s: State2, a: nat) {
    OnChain(s, a) ==> Born(s.log, a) >= 0 && s.log[Born(s.log, a)].id == s.objs[a].id
  }

  ghost predicate Dated(s: State2) { forall a: nat | a != 0 :: DatedAt(s, a) }

  // what was allocated later is earlier on its chain
  ghost predicate Falling(log: seq<Event>, c: seq<nat>) {
    forall i, j | 0 <= i < j < |c| :: Born(log, c[i]) > Born(log, c[j])
  }

  ghost predicate Ordered(s: State2) { forall h | 0 <= h < NHASH :: Falling(s.log, ChainAt(s.chains, h)) }

  ghost predicate History(s: State2) {
    match s
    case State2(_, _, _, _, _, _, _) => Inv(s) && Tallied(s) && Dated(s) && Ordered(s) && AllRight(s.log)
  }

  // a step other than linking or unlinking leaves the linked objects linked
  lemma StaysLinked(s: State2, t: nat, a: nat)
    requires Inv2(s) && t < |s.threads| && !s.threads[t].pc.Idle2? && !Relinks(s.threads[t].pc)
    ensures OnChain(Next2(s, t, Find(0)), a) <==> OnChain(s, a)
    ensures OnChain(s, a) ==> s.threads[t].pc != RFree(a)
  {
    hide Hash, Inv2, Counted, Chained, Placed, Locked, Locals, OnChain, Next2;
    var s' := Next2(s, t, Find(0));
    Parts(s, t);
    PlainLinks(s, t);
    SameChains(s, s');
    if s.threads[t].pc == RFree(a) && a != 0 { PrivateOff(s, t); }
    if a in s.objs && a !in s'.objs {
      NotOnIfDead(s', a);
      PlainKeys(s, t);
      PrivateOff(s, t);
    }
    NullOut(s, t);
    if OnChain(s, a) { OnlyLive(s, a); }
  }

  // an event that neither links nor unlinks is about a linked object, whose count it changes
  lemma EventLinked(s: State2, t: nat)
    requires Inv(s) && t < |s.threads| && !s.threads[t].pc.Idle2? && !Relinks(s.threads[t].pc)
    requires Says(MemOf(s), t, s.threads[t].pc).Some? && Says(MemOf(s), t, s.threads[t].pc).value.fp != 0
    ensures var fp := Says(MemOf(s), t, s.threads[t].pc).value.fp;
            OnChain(s, fp) && fp in s.objs && ChangesCount(s.threads[t].pc, fp)
  {
    hide Hash, Inv2, Counted, Chained, Placed, Locked, Locals, OnChain, Knows;
    Parts(s, t);
    var pc := s.threads[t].pc;
    match pc {
      case HInc(fp) =>
        assert Share(s.threads[t], fp) > 0;
        SharedIsLinked(s, t, fp);
      case FInc(id, fp) => ChainLive(s, Hash(id), fp);
      case RDec(fp) => SharedIsLinked(s, t, fp);
      case RDec2(fp) => SharedIsLinked(s, t, fp);
      case _ =>
    }
  }

  lemma CountBy(s: State2, t: nat, a: nat)
    requires t < |s.threads| && a in s.objs && a != 0 && ChangesCount(s.threads[t].pc, a)
    ensures var (s', e) := (Next2(s, t, Find(0)), Says(MemOf(s), t, s.threads[t].pc));
            a in s'.objs && e.Some? && s'.objs[a].count == s.objs[a].count + Change(e.value, a)
  {
  }

  lemma DecLeaves(s: State2, t: nat, a: nat)
    requires Inv(s) && t < |s.threads| && ChangesCount(s.threads[t].pc, a) && a in s.objs && s.objs[a].count > 0
    ensures s.objs[a].count + Change(Says(MemOf(s), t, s.threads[t].pc).value, a) > 0
  {
    hide Inv2;
    assert Knows(s, s.threads[t]);
  }

  lemma PlainTally(s: State2, t: nat, a: nat)
    requires Inv(s) && TallyAt(s, a) && a != 0
    requires t < |s.threads| && !s.threads[t].pc.Idle2? && !Relinks(s.threads[t].pc)
    ensures TallyAt(Next2(s, t, Find(0)), a)
  {
    hide Hash, Inv2, OnChain, Next2, Says, Relinks, ChangesCount, Net, Change, Born, Knows;
    var s', e := Next2(s, t, Find(0)), Says(MemOf(s), t, s.threads[t].pc);
    StepSays(s, t);
    assert s.log + [] == s.log;
    StaysLinked(s, t, a);
    if e.Some? {
      NetMore(s.log, e.value, a);
      NoChange(e.value, a);
      if e.value.fp != 0 { EventLinked(s, t); }
    }
    if OnChain(s, a) {
      OnlyLive(s, a);
      FieldsKept(s, t, a);
      if ChangesCount(s.threads[t].pc, a) {
        CountBy(s, t, a);
        DecLeaves(s, t, a);
      }
    }
  }

  lemma NoChange(e: Event, a: nat)
    ensures e.fp != a ==> Change(e, a) == 0
  {
  }

  lemma RelinkFacts(s: State2, t: nat)
    requires Inv2(s) && t < |s.threads| && Relinks(s.threads[t].pc)
    ensures var (s', fp, links) := (Next2(s, t, Find(0)), s.threads[t].pc.fp, s.threads[t].pc.AHead?);
            && fp != 0 && fp in s.objs && s.objs[fp].count == 1
            && (if links then OnChain(s', fp) && !OnChain(s, fp) && s.objs[fp].id == s.threads[t].pc.id
                else OnChain(s, fp) && !OnChain(s', fp))
            && forall a | a != fp :: OnChain(s', a) <==> OnChain(s, a)
  {
    hide Hash, Inv2, Counted, Chained, Placed, Locked, Locals, OnChain, Next2;
    var pc := s.threads[t].pc;
    Parts(s, t);
    if pc.AHead? { HeadLinked(s, t, pc.fp, pc.id); PrivateOff(s, t); }
    if pc.RSetHead? { HeadUnlinked(s, t, pc.fp); }
    if pc.RSetNext? { NextUnlinked(s, t, pc.fp, pc.tfp); }
  }

  lemma RelinkTally(s: State2, t: nat, a: nat)
    requires Inv(s) && TallyAt(s, a) && a != 0
    requires t < |s.threads| && Relinks(s.threads[t].pc)
    ensures TallyAt(Next2(s, t, Find(0)), a)
  {
    hide Hash, Inv2, OnChain, Next2, Net, Born, Knows;
    var s', e := Next2(s, t, Find(0)), Says(MemOf(s), t, s.threads[t].pc).value;
    StepSays(s, t);
    NetMore(s.log, e, a);
    RelinkFacts(s, t);
    if a in s.objs { FieldsKept(s, t, a); }
    if OnChain(s', a) && a != e.fp { OnlyLive(s, a); }
  }

  lemma DatedStep(s: State2, t: nat, a: nat)
    requires Inv(s) && DatedAt(s, a) && a != 0 && t < |s.threads| && !s.threads[t].pc.Idle2?
    ensures DatedAt(Next2(s, t, Find(0)), a)
  {
    hide Hash, Inv2, OnChain, Next2, Net, Born, Knows, ChangesCount;
    var s', e := Next2(s, t, Find(0)), Says(MemOf(s), t, s.threads[t].pc);
    StepSays(s, t);
    assert s.log + [] == s.log;
    if e.Some? { NetMore(s.log, e.value, a); }
    if Relinks(s.threads[t].pc) {
      RelinkFacts(s, t);
      FieldsKept(s, t, s.threads[t].pc.fp);
      if OnChain(s, a) { OnlyLive(s, a); FieldsKept(s, t, a); }
    } else {
      StaysLinked(s, t, a);
      if OnChain(s, a) { OnlyLive(s, a); FieldsKept(s, t, a); }
    }
  }

  // ---- the order of the chains ----

  lemma FallingSame(log: seq<Event>, log': seq<Event>, c: seq<nat>)
    requires Falling(log, c) && forall a | a in c :: Born(log', a) == Born(log, a)
    ensures Falling(log', c)
  {
    hide Born;
    assert forall i | 0 <= i < |c| :: c[i] in c;
  }

  lemma FallingPush(log: seq<Event>, log': seq<Event>, c: seq<nat>, a: nat)
    requires Falling(log, c) && a !in c && (forall b | b in c :: Born(log', b) == Born(log, b))
    requires Born(log', a) == |log|
    ensures Falling(log', [a] + c)
  {
    hide Born;
    var d := [a] + c;
    forall i, j | 0 <= i < j < |d| ensures Born(log', d[i]) > Born(log', d[j]) {
      BornBelow(log, c[j - 1]);
      if i > 0 { assert Born(log, c[i - 1]) > Born(log, c[j - 1]); assert c[i - 1] in c; }
      assert c[j - 1] in c;
    }
  }

  lemma BornBelow(log: seq<Event>, a: nat)
    ensures Born(log, a) < |log|
  {
  }

  lemma FallingDrop(log: seq<Event>, c: seq<nat>, a: nat)
    requires Falling(log, c) && NoDup(c)
    ensures Falling(log, Drop(c, a))
  {
    hide Born, NoDup, Drop;
    if a in c {
      var i :| 0 <= i < |c| && c[i] == a;
      DropAt(c, i);
      FallingSkip(log, c, i);
    } else {
      DropNothing(c, a);
    }
  }

  lemma FallingSkip(log: seq<Event>, c: seq<nat>, i: nat)
    requires Falling(log, c) && i < |c|
    ensures Falling(log, c[..i] + c[i + 1..])
  {
    hide Born;
    var d := c[..i] + c[i + 1..];
    forall j, k | 0 <= j < k < |d| ensures Born(log, d[j]) > Born(log, d[k]) {
      var j', k' := if j < i then j else j + 1, if k < i then k else k + 1;
      assert d[j] == c[j'] && d[k] == c[k'];
    }
  }

  lemma DropNothing(c: seq<nat>, a: nat)
    requires a !in c
    ensures Drop(c, a) == c
  {
    if c != [] { DropNothing(c[1..], a); }
  }

  lemma OrderedPlain(s: State2, t: nat)
    requires Inv(s) && Ordered(s) && t < |s.threads| && !s.threads[t].pc.Idle2? && !s.threads[t].pc.AHead?
    ensures Ordered(Next2(s, t, Find(0)))
  {
    hide Hash, Inv2, Next2, Born, Knows, Falling;
    var s', e, pc := Next2(s, t, Find(0)), Says(MemOf(s), t, s.threads[t].pc), s.threads[t].pc;
    StepSays(s, t);
    assert s.log + [] == s.log;
    forall h | 0 <= h < NHASH ensures Falling(s'.log, ChainAt(s'.chains, h)) {
      forall a | a in ChainAt(s.chains, h) ensures Born(s'.log, a) == Born(s.log, a) {
        if e.Some? { NetMore(s.log, e.value, a); }
      }
      FallingSame(s.log, s'.log, ChainAt(s.chains, h));
      if Relinks(pc) { ChainDrops(s, t, h); FallingDrop(s'.log, ChainAt(s.chains, h), pc.fp); } else { PlainMem(s, t); }
    }
  }

  lemma ChainDrops(s: State2, t: nat, h: nat)
    requires Inv2(s) && t < |s.threads| && (s.threads[t].pc.RSetHead? || s.threads[t].pc.RSetNext?) && h < NHASH
    ensures NoDup(ChainAt(s.chains, h))
    ensures var c' := ChainAt(Next2(s, t, Find(0)).chains, h);
            c' == ChainAt(s.chains, h) || c' == Drop(ChainAt(s.chains, h), s.threads[t].pc.fp)
  {
    hide Hash, Inv2, Counted, Placed, Locked, Locals, Drop, SetNext, SetHead, HeadOf;
    Parts(s, t);
    assert ChainOk(s.heads, s.objs, s.chains, h);
  }

  lemma OrderedLink(s: State2, t: nat)
    requires Inv(s) && Ordered(s) && t < |s.threads| && s.threads[t].pc.AHead?
    ensures Ordered(Next2(s, t, Find(0)))
  {
    hide Hash, Inv2, Next2, Born, Knows, Falling, OnChain;
    var s', pc := Next2(s, t, Find(0)), s.threads[t].pc;
    var e := Allocated(t, pc.fp, pc.id);
    StepSays(s, t);
    RelinkFacts(s, t);
    Parts(s, t);
    NetMore(s.log, e, pc.fp);
    forall h | 0 <= h < NHASH ensures Falling(s'.log, ChainAt(s'.chains, h)) {
      forall a | a in ChainAt(s.chains, h) ensures a != pc.fp && Born(s'.log, a) == Born(s.log, a) {
        ChainLive(s, h, a);
        NetMore(s.log, e, a);
      }
      ChainPushed(s, t, h);
      if ChainAt(s'.chains, h) == ChainAt(s.chains, h) {
        FallingSame(s.log, s'.log, ChainAt(s.chains, h));
      } else {
        FallingPush(s.log, s'.log, ChainAt(s.chains, h), pc.fp);
      }
    }
  }

  lemma ChainPushed(s: State2, t: nat, h: nat)
    requires t < |s.threads| && s.threads[t].pc.AHead? && h < NHASH && |s.chains| == NHASH
    ensures var c' := ChainAt(Next2(s, t, Find(0)).chains, h);
            c' == ChainAt(s.chains, h) || c' == [s.threads[t].pc.fp] + ChainAt(s.chains, h)
  {
    hide Hash, SetNext, SetHead, HeadOf;
  }

  // ---- the answers ----

  lemma CountIsNet(s: State2, a: nat)
    requires Tallied(s) && a != 0
    ensures OnChain(s, a) <==> Net(s.log, a) > 0
    ensures OnChain(s, a) ==> a in s.objs && s.objs[a].count == Net(s.log, a)
  {
    hide Net, Hash;
    assert TallyAt(s, a);
  }

  lemma NameIsId(s: State2, a: nat, id: int)
    requires Tallied(s) && Dated(s) && a != 0
    ensures Named(s.log, a, id) <==> OnChain(s, a) && s.objs[a].id == id
  {
    hide Net, Born, OnChain;
    CountIsNet(s, a);
    assert DatedAt(s, a);
  }

  lemma AnswerMiss(s: State2, id: int)
    requires Inv(s) && Tallied(s) && Dated(s) && Passed(s, id, 0)
    ensures forall a: nat | a != 0 :: !Named(s.log, a, id)
  {
    hide Hash, Inv2, Named, Tallied, Dated, Knows;
    var c := ChainAt(s.chains, Hash(id));
    var k: nat :| Reached(s.objs, c, id, 0, k);
    forall a: nat | a != 0 ensures !Named(s.log, a, id) {
      NameIsId(s, a, id);
      if OnChain(s, a) && s.objs[a].id == id {
        var i :| 0 <= i < |c| && c[i] == a;
        NullOffChain(s, Hash(id));
        assert false;
      }
    }
  }

  lemma NullOffChain(s: State2, h: nat)
    requires Inv2(s)
    ensures 0 !in ChainAt(s.chains, h)
  {
    hide Hash;
    if 0 in ChainAt(s.chains, h) { ChainLive(s, h, 0); }
  }

  lemma AnswerHit(s: State2, id: int, fp: nat)
    requires Inv(s) && Tallied(s) && Dated(s) && Ordered(s) && Passed(s, id, fp) && fp != 0
    requires fp in ChainAt(s.chains, Hash(id)) && ObjAt(s.objs, fp).id == id
    ensures Named(s.log, fp, id)
    ensures forall a: nat | a != 0 && a != fp && Named(s.log, a, id) :: Born(s.log, a) < Born(s.log, fp)
  {
    hide Inv2, Named, Tallied, Dated, Knows, Born;
    var c := ChainAt(s.chains, Hash(id));
    var k: nat :| Reached(s.objs, c, id, fp, k);
    ChainIsLive(s, Hash(id), fp);
    hide Hash;
    NameIsId(s, fp, id);
    assert Falling(s.log, c);
    forall a: nat | a != 0 && a != fp && Named(s.log, a, id) ensures Born(s.log, a) < Born(s.log, fp) {
      NameIsId(s, a, id);
      var i :| 0 <= i < |c| && c[i] == a;
      assert i > k && k < |c| && c[k] == fp;
    }
  }

  lemma ChainIsLive(s: State2, h: nat, a: nat)
    requires Inv2(s) && a in ChainAt(s.chains, h)
    ensures OnChain(s, a)
  {
    ChainLive(s, h, a);
  }

  lemma StepRight(s: State2, t: nat)
    requires Inv(s) && Tallied(s) && Dated(s) && Ordered(s) && t < |s.threads| && !s.threads[t].pc.Idle2?
    ensures var e := Says(MemOf(s), t, s.threads[t].pc); e.Some? ==> Right(s.log, e.value)
  {
    hide Hash, Inv2, Tallied, Dated, Ordered, OnChain, Named, Net, Born, Passed, Chained, Counted, Placed, Locked,
         Locals;
    var pc := s.threads[t].pc;
    Parts(s, t);
    assert Knows(s, s.threads[t]);
    if Relinks(pc) {
      RelinkFacts(s, t);
      UnlinkedNet(s, pc.fp);
    } else if pc.FTest? {
      if pc.fp == 0 { AnswerMiss(s, pc.id); }
    } else if pc.FInc? {
      NullOffChain(s, Hash(pc.id));
      AnswerHit(s, pc.id, pc.fp);
    } else if Says(MemOf(s), t, pc).Some? {
      DecNonNull(s, t);
      EventLinked(s, t);
      CountIsNet(s, pc.fp);
    }
  }

  lemma DecNonNull(s: State2, t: nat)
    requires Inv2(s) && t < |s.threads| && (s.threads[t].pc.HInc? || s.threads[t].pc.RDec? || s.threads[t].pc.RDec2?)
    ensures s.threads[t].pc.fp != 0
  {
    hide Chained, Placed, Locked, Hash;
    Parts(s, t);
  }

  lemma UnlinkedNet(s: State2, a: nat)
    requires Tallied(s) && a != 0
    ensures if OnChain(s, a) then a in s.objs && Net(s.log, a) == s.objs[a].count else Net(s.log, a) == 0
  {
    hide Net, Hash;
    assert TallyAt(s, a);
  }

  lemma AllRightMore(log: seq<Event>, e: Event)
    requires AllRight(log) && Right(log, e)
    ensures AllRight(log + [e])
  {
    hide Right;
    forall n | 0 <= n < |log + [e]| ensures Right((log + [e])[..n], (log + [e])[n]) {
      if n < |log| {
        assert (log + [e])[..n] == log[..n];
      } else {
        assert (log + [e])[..n] == log;
      }
    }
  }

  lemma HistoryWithin(s: State2, t: nat)
    requires History(s) && t < |s.threads| && !s.threads[t].pc.Idle2? && Inv(Next2(s, t, Find(0)))
    ensures History(Next2(s, t, Find(0)))
  {
    hide Inv, TallyAt, DatedAt, Ordered, Right, AllRight, Next2, Says, Relinks;
    var s', e := Next2(s, t, Find(0)), Says(MemOf(s), t, s.threads[t].pc);
    RelinkBusy(s.threads[t].pc);
    forall a: nat | a != 0 ensures TallyAt(s', a) {
      if Relinks(s.threads[t].pc) { RelinkTally(s, t, a); } else { PlainTally(s, t, a); }
    }
    forall a: nat | a != 0 ensures DatedAt(s', a) { DatedStep(s, t, a); }
    if s.threads[t].pc.AHead? { OrderedLink(s, t); } else { OrderedPlain(s, t); }
    StepSays(s, t);
    StepRight(s, t);
    assert s.log + [] == s.log;
    if e.Some? { AllRightMore(s.log, e.value); }
  }

  lemma RelinkBusy(pc: Pc2)
    ensures Relinks(pc) ==> !pc.Idle2?
  {
  }

  lemma HistoryBegins(s: State2, t: nat, c: Call)
    requires History(s) && t < |s.threads| && s.threads[t].pc.Idle2? && CallOk2(s, t, c) && Inv(Begin2(s, t, c))
    ensures History(Begin2(s, t, c))
  {
    hide Hash, Inv2, Knows, OnChain, AllRight, Born, Net, Counted, Chained, Placed, Locked, Locals;
    var s' := Begin2(s, t, c);
    Parts(s, t);
    BeginPlaced(s, t, c);
    CallsChained(s, s');
    BeginLog(s, t, c);
    forall a: nat | a != 0 ensures TallyAt(s', a) && DatedAt(s', a) {
      assert TallyAt(s, a) && DatedAt(s, a);
      if OnChain(s, a) { OnlyLive(s, a); }
    }
  }

  lemma BeginLog(s: State2, t: nat, c: Call)
    requires t < |s.threads|
    ensures Begin2(s, t, c).log == s.log && Begin2(s, t, c).chains == s.chains
  {
  }

  // in every run, each call answers what the calls that took effect before it determine
  lemma {:induction false} RunRight(trace: seq<State2>)
    requires Run2(trace)
    ensures AllRight(trace[|trace| - 1].log) && History(trace[|trace| - 1])
    decreases |trace|
  {
    hide Hash, Inv, Step2, Init2, AllRight, Tallied, Dated, Ordered;
    var n := |trace| - 1;
    if n == 0 {
      HistoryInit(trace[0]);
    } else {
      forall i | 0 <= i < n - 1 ensures StepsTo(trace[..n][i], trace[..n][i + 1]) {
        assert StepsTo(trace[i], trace[i + 1]);
      }
      RunRight(trace[..n]);
      assert StepsTo(trace[n - 1], trace[n]);
      var t, c :| 0 <= t < |trace[n - 1].threads| && Step2(trace[n - 1], t, c, trace[n]);
      StepHistory(trace[n - 1], t, c, trace[n]);
    }
  }

  lemma StepHistory(s: State2, t: nat, c: Call, s': State2)
    requires History(s) && t < |s.threads| && Step2(s, t, c, s')
    ensures History(s')
  {
    hide Hash, Inv, History, Effect2, Begin2, CallOk2;
    assert Inv(s) by { HistoryInv(s); }
    StepInv(s, t, c, s');
    if s.threads[t].pc.Idle2? {
      HistoryBegins(s, t, c);
    } else {
      assert s' == Next2(s, t, Find(0));
      HistoryWithin(s, t);
    }
  }

  lemma HistoryInv(s: State2)
    requires History(s)
    ensures Inv(s) && AllRight(s.log)
  {
    hide Inv, AllRight;
  }

  lemma HistoryInit(s: State2)
    requires Init2(s)
    ensures History(s)
  {
    hide Hash, Inv, OnChain;
    InitRefines(s);
    assert Tallied(s) && Dated(s) by {
      forall a: nat ensures !OnChain(s, a) { NotOnIfDead(s, a); }
    }
  }

  // objects share a chain exactly if their ids differ by a multiple of the number of chains
  lemma HashSpreads(a: int, b: int)
    requires 0 <= a < 0x8000_0000 && 0 <= b < 0x8000_0000
    ensures Hash(a) == Hash(b) <==> (a - b) % 29 == 0
    ensures a < 29 ==> Hash(a) == a
    ensures Hash(-1) == 23
  {
  }
}
