/**
 The two-lock table never loses count of a reference, never touches freed memory, never frees a
 linked object, always finds the object it unlinks, and never deadlocks.
 */
module FooSafety {
  import opened Common
  import opened FooOneLock
  import opened FooTwoLock

  // ---- counting references ----

  // references thread th has on object a, the one a call in progress is about to give or drop included
  function Share(th: Thread2, a: nat): nat {
    th.refs[a] + if a != 0 && Owed(th.pc) == a then 1 else 0
  }

  function Sum(ths: seq<Thread2>, a: nat): nat {
    if ths == [] then 0 else Share(ths[0], a) + Sum(ths[1..], a)
  }

  lemma {:induction false} SumUpdate(ths: seq<Thread2>, t: nat, th: Thread2, a: nat)
    requires t < |ths|
    ensures Sum(ths[t := th], a) == Sum(ths, a) - Share(ths[t], a) + Share(th, a)
  {
    if t == 0 {
      assert ths[0 := th][1..] == ths[1..];
    } else {
      assert ths[t := th][1..] == ths[1..][t - 1 := th];
      SumUpdate(ths[1..], t - 1, th, a);
    }
  }

  lemma {:induction false} SumAtLeast(ths: seq<Thread2>, t: nat, a: nat)
    requires t < |ths|
    ensures Share(ths[t], a) <= Sum(ths, a)
  {
    if t > 0 { SumAtLeast(ths[1..], t - 1, a); }
  }

  lemma {:induction false} SumOfTwo(ths: seq<Thread2>, t: nat, u: nat, a: nat)
    requires t < u < |ths|
    ensures Share(ths[t], a) + Share(ths[u], a) <= Sum(ths, a)
  {
    if t == 0 { SumAtLeast(ths[1..], u - 1, a); } else { SumOfTwo(ths[1..], t - 1, u - 1, a); }
  }

  // a live object's f_count is exactly the number of outstanding references to it
  ghost predicate CountIs(s: State2, a: nat) {
    Sum(s.threads, a) == if a in s.objs then s.objs[a].count else 0
  }

  ghost predicate Counted(s: State2) {
    && 0 !in s.objs
    && (forall t | 0 <= t < |s.threads| :: 0 !in s.threads[t].refs)
    && forall a: nat | a != 0 :: CountIs(s, a)
  }

  // ---- chains ----

  function Succ(c: seq<nat>, i: nat): nat { if i + 1 < |c| then c[i + 1] else 0 }

  ghost predicate Linked(objs: map<nat, Obj>, head: nat, c: seq<nat>) {
    && head == (if |c| == 0 then 0 else c[0])
    && (forall i | 0 <= i < |c| :: c[i] in objs)
    && forall i {:trigger Succ(c, i)} | 0 <= i < |c| :: objs[c[i]].next == Succ(c, i)
  }

  ghost predicate ChainOk(heads: seq<nat>, objs: map<nat, Obj>, chains: seq<seq<nat>>, h: nat) {
    && h < |heads| && h < |chains| && Linked(objs, heads[h], chains[h]) && NoDup(chains[h])
    && forall i | 0 <= i < |chains[h]| :: chains[h][i] in objs && Hash(objs[chains[h][i]].id) == h
  }

  ghost predicate Chained(s: State2) {
    |s.heads| == |s.chains| == NHASH && forall h | 0 <= h < NHASH :: ChainOk(s.heads, s.objs, s.chains, h)
  }

  ghost predicate OnChain(s: State2, a: nat) {
    a in s.objs && a in ChainAt(s.chains, Hash(s.objs[a].id))
  }

  ghost predicate IsPrivate(s: State2, a: nat) {
    exists t :: 0 <= t < |s.threads| && Private2(s.threads[t].pc) == a
  }

  // a live object is linked, except while one thread brings it in or has just taken it out
  ghost predicate Placed(s: State2) {
    && (forall a | a in s.objs :: OnChain(s, a) || IsPrivate(s, a))
    && forall t | 0 <= t < |s.threads| :: var a := Private2(s.threads[t].pc); a != 0 ==> !OnChain(s, a)
  }

  // ---- locks ----

  ghost predicate Locked(s: State2) {
    && (forall t | 0 <= t < |s.threads| && HasHash(s.threads[t].pc) :: s.hash)
    && (forall t, u | 0 <= t < u < |s.threads| :: !(HasHash(s.threads[t].pc) && HasHash(s.threads[u].pc)))
    && (s.hash ==> exists t :: 0 <= t < |s.threads| && HasHash(s.threads[t].pc))
    && (forall t | 0 <= t < |s.threads| && HasObj(s.threads[t].pc) != 0 ::
          HasObj(s.threads[t].pc) in s.locks && HasObj(s.threads[t].pc) in s.objs)
    && (forall t, u | 0 <= t < u < |s.threads|
      && HasObj(s.threads[t].pc) != 0 :: HasObj(s.threads[t].pc) != HasObj(s.threads[u].pc))
    && (forall a | a in s.locks :: a != 0 && exists t :: 0 <= t < |s.threads| && HasObj(s.threads[t].pc) == a)
  }

  // ---- what a thread knows at its position ----

  ghost predicate Sole(s: State2, a: nat) { a != 0 && a in s.objs && s.objs[a].count == 1 }

  ghost predicate Before(c: seq<nat>, a: nat, b: nat) { exists i, j :: 0 <= i < j < |c| && c[i] == a && c[j] == b }

  ghost predicate Adjacent(c: seq<nat>, a: nat, b: nat) { exists i :: 0 <= i < |c| - 1 && c[i] == a && c[i + 1] == b }

  function ChainOf(s: State2, a: nat): seq<nat> { ChainAt(s.chains, Hash(ObjAt(s.objs, a).id)) }

  ghost predicate Last(s: State2, a: nat) { Sole(s, a) && OnChain(s, a) }

  ghost predicate Local(s: State2, th: Thread2) {
    match th.pc
    case Idle2 => true
    case AHash(fp, id) => Sole(s, fp) && s.objs[fp].id == id
    case ANext(fp, id) => Sole(s, fp) && s.objs[fp].id == id
    case AHead(fp, id) => Sole(s, fp) && s.objs[fp].id == id && s.objs[fp].next == HeadOf(s.heads, Hash(id))
    case AObj(fp) => fp != 0
    case AUnhash(fp) => fp != 0
    case AUnobj(fp) => fp != 0
    case HObj(fp) => fp in th.refs
    case HInc(fp) => fp in th.refs
    case HUnobj(fp) => fp != 0
    case FHash(id) => true
    case FHead(id) => true
    case FTest(id, fp) => fp != 0 ==> fp in ChainAt(s.chains, Hash(id))
    case FObj(id, fp) => fp in ChainAt(s.chains, Hash(id)) && ObjAt(s.objs, fp).id == id
    case FInc(id, fp) => fp in ChainAt(s.chains, Hash(id)) && ObjAt(s.objs, fp).id == id
    case FUnobj(fp) => fp != 0
    case FUnhash(fp) => true
    case RObj(fp) => fp != 0
    case RTest(fp) => fp != 0
    case RDec(fp) => fp != 0
    case RUnobj(fp) => fp != 0
    case RRetry(fp) => fp != 0
    case RHash(fp) => fp != 0
    case RObj2(fp) => fp != 0
    case RTest2(fp) => fp != 0
    case RDec2(fp) => fp != 0
    case RUnobj2(fp) => fp != 0
    case RUnhash2 => true
    case RHead(fp) => Last(s, fp)
    case RSetHead(fp) => Last(s, fp) && |ChainOf(s, fp)| > 0 && ChainOf(s, fp)[0] == fp
    case RWalk(fp, tfp) => Last(s, fp) && Before(ChainOf(s, fp), tfp, fp)
    case RSetNext(fp, tfp) => Last(s, fp) && Adjacent(ChainOf(s, fp), tfp, fp)
    case RUnhash3(fp) => Sole(s, fp)
    case RUnobj3(fp) => Sole(s, fp)
    case RFree(fp) => Sole(s, fp) && fp !in s.locks
  }

  ghost predicate Locals(s: State2) {
    forall t | 0 <= t < |s.threads| :: Local(s, s.threads[t])
  }

  ghost predicate Inv2(s: State2) {
    match s
    case State2(_, _, _, _, _, _, _) => Counted(s) && Chained(s) && Placed(s) && Locked(s) && Locals(s)
  }

  // ---- consequences ----

  lemma LiveIfShared(s: State2, t: nat, a: nat)
    requires Counted(s) && t < |s.threads| && a != 0 && Share(s.threads[t], a) > 0
    ensures a in s.objs && s.objs[a].count == Sum(s.threads, a) >= Share(s.threads[t], a)
  {
    assert CountIs(s, a);
    SumAtLeast(s.threads, t, a);
  }

  // when the count is one, the thread holding that one reference is alone with the object
  lemma Alone(s: State2, t: nat, u: nat, a: nat)
    requires Counted(s) && t < |s.threads| && u < |s.threads| && t != u && Sole(s, a) && Share(s.threads[t], a) > 0
    ensures Share(s.threads[u], a) == 0
  {
    assert CountIs(s, a);
    if t < u { SumOfTwo(s.threads, t, u, a); } else { SumOfTwo(s.threads, u, t, a); }
  }

  lemma ChainLive(s: State2, h: nat, a: nat)
    requires Chained(s) && a in ChainAt(s.chains, h)
    ensures h < NHASH && a in s.objs && Hash(s.objs[a].id) == h && OnChain(s, a)
  {
    hide Hash;
    assert ChainOk(s.heads, s.objs, s.chains, h);
  }

  lemma Parts(s: State2, t: nat)
    requires Inv2(s) && t < |s.threads|
    ensures Counted(s) && Chained(s) && Placed(s) && Locked(s) && Locals(s) && Local(s, s.threads[t])
  {
    hide Counted, Chained, Placed, Locked, Local;
  }

  lemma HeldIsLive(s: State2, t: nat)
    requires Locked(s) && t < |s.threads| && HasObj(s.threads[t].pc) != 0
    ensures HasObj(s.threads[t].pc) in s.objs && HasObj(s.threads[t].pc) in s.locks
  {
  }

  // what the next step touches is live
  lemma TouchedIsLive(s: State2, t: nat)
    requires Inv2(s) && t < |s.threads|
    ensures Touches(MemOf(s), s.threads[t].pc) <= s.objs.Keys
  {
    hide Hash, Inv2, Counted, Chained, Placed, Locked, Locals;
    var th := s.threads[t];
    Parts(s, t);
    if Owed(th.pc) != 0 { LiveIfShared(s, t, Owed(th.pc)); }
    if HasObj(th.pc) != 0 { HeldIsLive(s, t); }
    match th.pc {
      case HObj(fp) => SharedNonNull(s, t, fp); LiveIfShared(s, t, fp);
      case HInc(fp) => SharedNonNull(s, t, fp);
      case FTest(id, fp) => if fp != 0 { ChainLive(s, Hash(id), fp); }
      case FObj(id, fp) => ChainLive(s, Hash(id), fp);
      case FInc(id, fp) => ChainLive(s, Hash(id), fp);
      case RWalk(fp, tfp) => ChainLive(s, Hash(s.objs[fp].id), tfp);
      case RSetNext(fp, tfp) => ChainLive(s, Hash(s.objs[fp].id), tfp);
      case _ =>
    }
  }

  lemma SharedNonNull(s: State2, t: nat, a: nat)
    requires Counted(s) && t < |s.threads| && a in s.threads[t].refs
    ensures a != 0
  {
  }

  // an object is freed off every chain, unlocked, and with no reference left but the one being dropped
  lemma FreedIsOff(s: State2, t: nat, fp: nat)
    requires Inv2(s) && t < |s.threads| && s.threads[t].pc == RFree(fp)
    ensures fp in s.objs && fp !in s.locks
    ensures forall h | 0 <= h < NHASH :: fp !in s.chains[h]
    ensures forall u | 0 <= u < |s.threads| && u != t :: Share(s.threads[u], fp) == 0
  {
    hide Hash, Locked;
    assert Local(s, s.threads[t]);
    assert !OnChain(s, fp);
    forall h | 0 <= h < NHASH ensures fp !in s.chains[h] {
      if fp in ChainAt(s.chains, h) { ChainLive(s, h, fp); }
    }
    forall u | 0 <= u < |s.threads| && u != t ensures Share(s.threads[u], fp) == 0 { Alone(s, t, u, fp); }
  }

  // ---- counting is kept ----

  // the change of a's count in a step is the change of the stepping thread's share
  lemma CountKept(s: State2, s': State2, t: nat, th: Thread2, a: nat)
    requires t < |s.threads| && s'.threads == s.threads[t := th] && CountIs(s, a)
    requires (if a in s'.objs then s'.objs[a].count else 0) - (if a in s.objs then s.objs[a].count else 0)
             == Share(th, a) - Share(s.threads[t], a)
    ensures CountIs(s', a)
  {
    hide Share;
    SumUpdate(s.threads, t, th, a);
  }

  predicate Finding(pc: Pc2) {
    pc.AHash? || pc.ANext? || pc.AHead? || pc.AObj? || pc.AUnhash? || pc.AUnobj? || pc.HObj? || pc.HInc? || pc.HUnobj?
    || pc.FHash? || pc.FHead? || pc.FTest? || pc.FObj? || pc.FInc? || pc.FUnobj? || pc.FUnhash?
  }

  // the step changes a's count by as much as t's share
  ghost predicate ShareMoves(s: State2, t: nat, a: nat)
    requires t < |s.threads|
  {
    var (m, th) := Effect2(MemOf(s), t, s.threads[t]);
    (if a in m.objs then m.objs[a].count else 0) - (if a in s.objs then s.objs[a].count else 0)
      == Share(th, a) - Share(s.threads[t], a)
  }

  lemma ShareMovesFinding(s: State2, t: nat, a: nat)
    requires Counted(s) && Chained(s) && t < |s.threads| && Local(s, s.threads[t]) && !s.threads[t].pc.Idle2? && a != 0
    requires Owed(s.threads[t].pc) != 0 ==> Owed(s.threads[t].pc) in s.objs
    requires Finding(s.threads[t].pc)
    ensures ShareMoves(s, t, a)
  {
    hide Hash, Counted, Chained, Drop, Before, Adjacent, ChainAt, SetChain, SetHead, HeadOf;
    var th := s.threads[t];
    match th.pc {
      case HInc(fp) => SharedNonNull(s, t, fp); LiveIfShared(s, t, fp);
      case FInc(id, fp) => ChainLive(s, Hash(id), fp);
      case _ =>
    }
  }

  lemma ShareMovesReleasing(s: State2, t: nat, a: nat)
    requires Counted(s) && Chained(s) && t < |s.threads| && Local(s, s.threads[t]) && !s.threads[t].pc.Idle2? && a != 0
    requires Owed(s.threads[t].pc) != 0 ==> Owed(s.threads[t].pc) in s.objs
    requires !Finding(s.threads[t].pc)
    ensures ShareMoves(s, t, a)
  {
    hide Hash, Counted, Chained, Drop, Before, Adjacent, ChainAt, SetChain, SetHead, HeadOf;
    var th := s.threads[t];
    match th.pc {
      case RSetNext(fp, tfp) => PredLive(s, fp, tfp);
      case _ =>
    }
  }

  lemma PredLive(s: State2, fp: nat, tfp: nat)
    requires Chained(s) && Last(s, fp) && Adjacent(ChainOf(s, fp), tfp, fp)
    ensures tfp in s.objs && tfp != fp
  {
    hide Hash;
    ChainLive(s, Hash(s.objs[fp].id), tfp);
    assert ChainOk(s.heads, s.objs, s.chains, Hash(s.objs[fp].id));
  }

  lemma StepCounted(s: State2, t: nat)
    requires Inv2(s) && t < |s.threads| && !s.threads[t].pc.Idle2?
    ensures Counted(Next2(s, t, Find(0)))
  {
    hide Hash, Inv2, Effect2, CountIs, Share, Chained, Placed, Locked, Locals, Local;
    Parts(s, t);
    var (m, th) := Effect2(MemOf(s), t, s.threads[t]);
    var s' := Next2(s, t, Find(0));
    if Owed(s.threads[t].pc) != 0 {
      assert Share(s.threads[t], Owed(s.threads[t].pc)) > 0 by { OwedShares(s.threads[t]); }
      LiveIfShared(s, t, Owed(s.threads[t].pc));
    }
    forall a: nat | a != 0 ensures CountIs(s', a) {
      if Finding(s.threads[t].pc) { ShareMovesFinding(s, t, a); } else { ShareMovesReleasing(s, t, a); }
      CountKept(s, s', t, th, a);
    }
    NullStaysOut(s, t);
  }

  lemma OwedShares(th: Thread2)
    ensures Owed(th.pc) != 0 ==> Share(th, Owed(th.pc)) > 0
  {
  }

  lemma NullStaysOutFinding(s: State2, t: nat)
    requires Counted(s) && Chained(s) && t < |s.threads| && Local(s, s.threads[t]) && Finding(s.threads[t].pc)
    requires Owed(s.threads[t].pc) != 0 ==> Owed(s.threads[t].pc) in s.objs
    ensures var (m, th) := Effect2(MemOf(s), t, s.threads[t]); 0 !in m.objs && 0 !in th.refs
  {
    hide Hash, Counted, Chained, Drop, Before, Adjacent, ChainAt, SetChain, SetHead, HeadOf;
    NullOut(s, t);
    match s.threads[t].pc {
      case HInc(fp) => SharedNonNull(s, t, fp);
      case FInc(id, fp) => ChainLive(s, Hash(id), fp);
      case _ =>
    }
  }

  lemma NullStaysOutReleasing(s: State2, t: nat)
    requires Counted(s) && Chained(s) && t < |s.threads| && Local(s, s.threads[t]) && !Finding(s.threads[t].pc)
    requires Owed(s.threads[t].pc) != 0 ==> Owed(s.threads[t].pc) in s.objs
    ensures var (m, th) := Effect2(MemOf(s), t, s.threads[t]); 0 !in m.objs && 0 !in th.refs
  {
    hide Hash, Counted, Chained, Drop, Before, Adjacent, ChainAt, SetChain, SetHead, HeadOf;
    NullOut(s, t);
    match s.threads[t].pc {
      case RSetNext(fp, tfp) => PredLive(s, fp, tfp);
      case _ =>
    }
  }

  // NULL is never an object and never a reference
  lemma NullStaysOut(s: State2, t: nat)
    requires Counted(s) && Chained(s) && t < |s.threads| && Local(s, s.threads[t])
    requires Owed(s.threads[t].pc) != 0 ==> Owed(s.threads[t].pc) in s.objs
    ensures var (m, th) := Effect2(MemOf(s), t, s.threads[t]); 0 !in m.objs && 0 !in th.refs
  {
    hide Effect2, Finding, Counted, Chained, Local, Owed;
    if Finding(s.threads[t].pc) { NullStaysOutFinding(s, t); } else { NullStaysOutReleasing(s, t); }
  }

  lemma NullOut(s: State2, t: nat)
    requires Counted(s) && t < |s.threads|
    ensures 0 !in s.objs && 0 !in s.threads[t].refs
  {
  }

  // ---- chains are kept ----

  lemma NoDupTail(c: seq<nat>)
    requires NoDup(c) && |c| > 0
    ensures NoDup(c[1..]) && forall i | 0 < i < |c| :: c[i] != c[0]
  {
  }

  lemma SkipTail(c: seq<nat>, i: nat)
    requires 0 < i < |c|
    ensures [c[0]] + (c[1..][..i - 1] + c[1..][i..]) == c[..i] + c[i + 1..]
  {
    assert [c[0]] + c[1..][..i - 1] == c[..i];
    assert c[1..][i..] == c[i + 1..];
  }

  lemma {:induction false} DropAt(c: seq<nat>, i: nat)
    requires NoDup(c) && i < |c|
    ensures Drop(c, c[i]) == c[..i] + c[i + 1..]
  {
    if i > 0 {
      NoDupTail(c);
      hide NoDup;
      var d := c[1..];
      DropAt(d, i - 1);
      SkipTail(c, i);
      assert d[i - 1] == c[i] && i - 1 + 1 == i;
      assert Drop(c, c[i]) == [c[0]] + Drop(d, d[i - 1]);
    }
  }

  lemma SkipNoDup(c: seq<nat>, i: nat)
    requires NoDup(c) && i < |c|
    ensures NoDup(c[..i] + c[i + 1..]) && forall a | a in c[..i] + c[i + 1..] :: a in c
  {
    var c' := c[..i] + c[i + 1..];
    assert forall k | 0 <= k < |c'| :: c'[k] == c[if k < i then k else k + 1];
  }

  lemma DropMembers(c: seq<nat>, a: nat)
    requires NoDup(c)
    ensures a !in Drop(c, a) && forall b | b != a :: b in Drop(c, a) <==> b in c
  {
    if c != [] && c[0] != a {
      DropMembers(c[1..], a);
      assert c == [c[0]] + c[1..];
    } else if c != [] {
      assert c == [c[0]] + c[1..];
    }
  }

  // objects on c keep their next pointer and id
  ghost predicate LinksSame(objs: map<nat, Obj>, objs': map<nat, Obj>, c: seq<nat>) {
    forall i | 0 <= i < |c| :: c[i] in objs ==>
      c[i] in objs' && objs'[c[i]].next == objs[c[i]].next
      && objs'[c[i]].id == objs[c[i]].id
  }

  lemma ChainSame(heads: seq<nat>, heads': seq<nat>, objs: map<nat, Obj>, objs': map<nat, Obj>, chains: seq<seq<nat>>,
      chains': seq<seq<nat>>, h: nat)
    requires ChainOk(heads, objs, chains, h) && h < |heads'| && h < |chains'| && heads'[h] == heads[h]
             && chains'[h] == chains[h]
    requires LinksSame(objs, objs', chains[h])
    ensures ChainOk(heads', objs', chains', h)
  {
    hide Hash;
    var c := chains[h];
    assert forall i | 0 <= i < |c| :: c[i] in objs && c[i] in objs';
  }

  lemma ChainPush(heads: seq<nat>, objs: map<nat, Obj>, chains: seq<seq<nat>>, h: nat, a: nat)
    requires ChainOk(heads, objs, chains, h) && a in objs && Hash(objs[a].id) == h && objs[a].next == heads[h]
             && a !in chains[h]
    ensures ChainOk(heads[h := a], objs, chains[h := [a] + chains[h]], h)
  {
    hide Hash;
    var c, c' := chains[h], [a] + chains[h];
    forall i | 0 <= i < |c'| ensures c'[i] in objs && Hash(objs[c'[i]].id) == h && objs[c'[i]].next == Succ(c', i) {
      if i > 0 { assert c'[i] == c[i - 1] && Succ(c', i) == Succ(c, i - 1); }
    }
  }

  lemma ChainDropHead(heads: seq<nat>, objs: map<nat, Obj>, chains: seq<seq<nat>>, h: nat, a: nat)
    requires ChainOk(heads, objs, chains, h) && |chains[h]| > 0 && chains[h][0] == a
    ensures ChainOk(heads[h := objs[a].next], objs, chains[h := Drop(chains[h], a)], h)
  {
    hide Hash;
    var c := chains[h];
    var c' := Drop(c, a);
    assert c' == c[1..];
    assert objs[c[0]].next == Succ(c, 0);
    forall i | 0 <= i < |c'| ensures c'[i] in objs && Hash(objs[c'[i]].id) == h && objs[c'[i]].next == Succ(c', i) {
      assert c'[i] == c[i + 1] && Succ(c', i) == Succ(c, i + 1);
    }
  }

  lemma LinkedDropNext(objs: map<nat, Obj>, head: nat, c: seq<nat>, i: nat)
    requires Linked(objs, head, c) && NoDup(c) && i + 1 < |c|
    ensures c[i] in objs && c[i + 1] in objs
    ensures Linked(SetNext(objs, c[i], objs[c[i + 1]].next), head, c[..i + 1] + c[i + 2..])
  {
    var c' := c[..i + 1] + c[i + 2..];
    var objs' := SetNext(objs, c[i], objs[c[i + 1]].next);
    assert objs[c[i + 1]].next == Succ(c, i + 1);
    forall k | 0 <= k < |c'| ensures c'[k] in objs' && objs'[c'[k]].next == Succ(c', k) {
      var k' := if k <= i then k else k + 1;
      assert c'[k] == c[k'] && objs[c[k']].next == Succ(c, k');
      if k != i { assert c[k'] != c[i]; assert Succ(c', k) == Succ(c, k'); }
    }
  }

  // the objects left on a chain when one is dropped are where they were and hash as they did
  lemma DropHashes(objs: map<nat, Obj>, c: seq<nat>, i: nat, a: nat, v: nat, h: nat)
    requires NoDup(c) && i < |c| && forall k | 0 <= k < |c| :: c[k] in objs && Hash(objs[c[k]].id) == h
    ensures forall x | x in Drop(c, c[i]) :: x in SetNext(objs, a, v) && Hash(SetNext(objs, a, v)[x].id) == h
  {
    hide Hash, Drop, NoDup;
    DropNoDup(c, i);
    forall x | x in Drop(c, c[i]) ensures x in objs && Hash(objs[x].id) == h { assert x in c; }
  }

  lemma ChainDropAt(heads: seq<nat>, objs: map<nat, Obj>, chains: seq<seq<nat>>, h: nat, i: nat)
    requires ChainOk(heads, objs, chains, h) && i + 1 < |chains[h]|
    ensures var c := chains[h];
            && c[i] in objs && c[i + 1] in objs && c[i] != c[i + 1]
            && ChainOk(heads, SetNext(objs, c[i], objs[c[i + 1]].next), chains[h := Drop(c, c[i + 1])], h)
  {
    var c := chains[h];
    assert c[i] in objs && c[i + 1] in objs && c[i] != c[i + 1];
    hide Hash, Linked, NoDup, Drop, SetNext;
    LinkedDropNext(objs, heads[h], c, i);
    DropHashes(objs, c, i + 1, c[i], objs[c[i + 1]].next, h);
    DropNoDup(c, i + 1);
    DropAt(c, i + 1);
  }

  lemma ChainDropNext(heads: seq<nat>, objs: map<nat, Obj>, chains: seq<seq<nat>>, h: nat, a: nat, b: nat)
    requires ChainOk(heads, objs, chains, h) && Adjacent(chains[h], a, b)
    ensures a in objs && b in objs && a != b && ChainOk(heads, SetNext(objs, a, objs[b].next),
            chains[h := Drop(chains[h], b)], h)
  {
    hide Hash, Linked, NoDup, SetNext, Drop;
    var i :| 0 <= i < |chains[h]| - 1 && chains[h][i] == a && chains[h][i + 1] == b;
    ChainDropAt(heads, objs, chains, h, i);
  }

  lemma DropNoDup(c: seq<nat>, i: nat)
    requires NoDup(c) && i < |c|
    ensures NoDup(Drop(c, c[i])) && forall a | a in Drop(c, c[i]) :: a in c
  {
    DropAt(c, i);
    SkipNoDup(c, i);
    hide Drop, NoDup;
  }

  // ---- the structure after a step ----

  // what the three steps that change a chain do; all others leave chains alone
  predicate Relinks(pc: Pc2) { pc.AHead? || pc.RSetHead? || pc.RSetNext? }

  // links and ids of objects on chains are untouched
  ghost predicate LinksKept(s: State2, s': State2) {
    && s'.heads == s.heads && s'.chains == s.chains
    && forall a | OnChain(s, a) :: a in s'.objs && s'.objs[a].next == s.objs[a].next && s'.objs[a].id == s.objs[a].id
  }

  lemma ChainedKept(s: State2, s': State2)
    requires Chained(s) && LinksKept(s, s')
    ensures Chained(s') && forall a | OnChain(s, a) :: OnChain(s', a)
  {
    hide Hash;
    forall h | 0 <= h < NHASH ensures ChainOk(s'.heads, s'.objs, s'.chains, h) {
      assert ChainOk(s.heads, s.objs, s.chains, h);
      forall i | 0 <= i < |s.chains[h]| ensures OnChain(s, s.chains[h][i]) { ChainLive(s, h, s.chains[h][i]); }
      ChainSame(s.heads, s'.heads, s.objs, s'.objs, s.chains, s'.chains, h);
    }
  }

  // a step that relinks nothing leaves every chained object linked as it was
  lemma PlainLinks(s: State2, t: nat)
    requires Inv2(s) && t < |s.threads| && !s.threads[t].pc.Idle2? && !Relinks(s.threads[t].pc)
    ensures LinksKept(s, Next2(s, t, Find(0)))
  {
    hide Hash, Inv2, Counted, Chained, Locked, Locals, Next2, OnChain;
    Parts(s, t);
    var p, s' := Private2(s.threads[t].pc), Next2(s, t, Find(0));
    assert p != 0 ==> !OnChain(s, p);
    NullOut(s, t);
    PlainMem(s, t);
    forall a | OnChain(s, a) ensures a in s.objs && a in s'.objs && s'.objs[a].next == s.objs[a].next
      && s'.objs[a].id == s.objs[a].id {
      OnlyLive(s, a);
      PlainObj(s, t, a);
    }
  }

  lemma OnlyLive(s: State2, a: nat)
    requires OnChain(s, a)
    ensures a in s.objs
  {
  }

  lemma PlainMem(s: State2, t: nat)
    requires t < |s.threads| && !s.threads[t].pc.Idle2? && !Relinks(s.threads[t].pc)
    ensures Next2(s, t, Find(0)).heads == s.heads && Next2(s, t, Find(0)).chains == s.chains
  {
    hide Hash, SetNext, AddCount, HeadOf, ObjAt;
  }

  lemma PlainObj(s: State2, t: nat, a: nat)
    requires t < |s.threads| && !s.threads[t].pc.Idle2? && !Relinks(s.threads[t].pc) && a in s.objs
             && a != Private2(s.threads[t].pc)
    ensures var objs := Next2(s, t, Find(0)).objs;
    a in objs && objs[a].next == s.objs[a].next && objs[a].id == s.objs[a].id
  {
    hide Hash, HeadOf;
  }

  lemma HeadLinked(s: State2, t: nat, fp: nat, id: int)
    requires Inv2(s) && t < |s.threads| && s.threads[t].pc == AHead(fp, id)
    ensures Chained(Next2(s, t, Find(0))) && OnChain(Next2(s, t, Find(0)), fp) && fp in s.objs && s.objs[fp].id == id
    ensures forall a | a != fp :: OnChain(Next2(s, t, Find(0)), a) <==> OnChain(s, a)
  {
    hide Hash, Inv2, Counted, Locked, Locals, Linked, NoDup;
    Parts(s, t);
    var s', h := Next2(s, t, Find(0)), Hash(id);
    assert !OnChain(s, fp);
    assert ChainOk(s.heads, s.objs, s.chains, h);
    ChainPush(s.heads, s.objs, s.chains, h, fp);
    forall k | 0 <= k < NHASH ensures ChainOk(s'.heads, s'.objs, s'.chains, k) {
      if k != h {
        assert ChainOk(s.heads, s.objs, s.chains, k);
        ChainSame(s.heads, s'.heads, s.objs, s'.objs, s.chains, s'.chains, k);
      }
    }
  }

  lemma HeadUnlinked(s: State2, t: nat, fp: nat)
    requires Inv2(s) && t < |s.threads| && s.threads[t].pc == RSetHead(fp)
    ensures Chained(Next2(s, t, Find(0))) && !OnChain(Next2(s, t, Find(0)), fp) && OnChain(s, fp)
    ensures forall a | a != fp :: OnChain(Next2(s, t, Find(0)), a) <==> OnChain(s, a)
  {
    hide Hash, Inv2, Counted, Locked, Locals, Linked;
    Parts(s, t);
    var s', h := Next2(s, t, Find(0)), Hash(s.objs[fp].id);
    assert ChainOk(s.heads, s.objs, s.chains, h);
    ChainDropHead(s.heads, s.objs, s.chains, h, fp);
    DropMembers(s.chains[h], fp);
    forall k | 0 <= k < NHASH ensures ChainOk(s'.heads, s'.objs, s'.chains, k) {
      if k != h {
        assert ChainOk(s.heads, s.objs, s.chains, k);
        ChainSame(s.heads, s'.heads, s.objs, s'.objs, s.chains, s'.chains, k);
      }
    }
  }

  lemma NextUnlinked(s: State2, t: nat, fp: nat, tfp: nat)
    requires Inv2(s) && t < |s.threads| && s.threads[t].pc == RSetNext(fp, tfp)
    ensures Chained(Next2(s, t, Find(0))) && !OnChain(Next2(s, t, Find(0)), fp) && OnChain(s, fp)
    ensures forall a | a != fp :: OnChain(Next2(s, t, Find(0)), a) <==> OnChain(s, a)
    ensures Next2(s, t, Find(0)).objs.Keys == s.objs.Keys
    ensures forall a | a in s.objs ::
              Next2(s, t, Find(0)).objs[a].id == s.objs[a].id
              && Next2(s, t, Find(0)).objs[a].count == s.objs[a].count
  {
    hide Hash, Inv2, Counted, Locked, Locals, Linked;
    Parts(s, t);
    var s', h := Next2(s, t, Find(0)), Hash(s.objs[fp].id);
    assert ChainOk(s.heads, s.objs, s.chains, h);
    ChainDropNext(s.heads, s.objs, s.chains, h, tfp, fp);
    DropMembers(s.chains[h], fp);
    forall k | 0 <= k < NHASH ensures ChainOk(s'.heads, s'.objs, s'.chains, k) {
      if k != h {
        assert ChainOk(s.heads, s.objs, s.chains, k);
        assert tfp !in s.chains[k] by { if tfp in ChainAt(s.chains, k) { ChainLive(s, k, tfp); ChainLive(s, h, tfp); } }
        ChainSame(s.heads, s'.heads, s.objs, s'.objs, s.chains, s'.chains, k);
      }
    }
  }

  lemma StepChained(s: State2, t: nat)
    requires Inv2(s) && t < |s.threads| && !s.threads[t].pc.Idle2?
    ensures Chained(Next2(s, t, Find(0)))
  {
    hide Hash, Inv2, Next2, Chained, LinksKept, OnChain;
    var pc := s.threads[t].pc;
    if pc.AHead? { HeadLinked(s, t, pc.fp, pc.id); }
    else if pc.RSetHead? { HeadUnlinked(s, t, pc.fp); }
    else if pc.RSetNext? { NextUnlinked(s, t, pc.fp, pc.tfp); }
    else { PlainLinks(s, t); Parts(s, t); ChainedKept(s, Next2(s, t, Find(0))); }
  }

  // which objects exist and which are chained, after a step by t
  ghost predicate Moved(s: State2, s': State2, t: nat) {
    && |s'.threads| == |s.threads| && t < |s.threads|
    && (forall u | 0 <= u < |s.threads| && u != t :: s'.threads[u] == s.threads[u])
    && forall a | a != Private2(s.threads[t].pc) && a != Private2(s'.threads[t].pc) ::
         (a in s'.objs <==> a in s.objs) && (OnChain(s', a) <==> OnChain(s, a))
  }

  lemma StepMoved(s: State2, t: nat)
    requires Inv2(s) && t < |s.threads| && !s.threads[t].pc.Idle2?
    ensures Moved(s, Next2(s, t, Find(0)), t)
  {
    hide Hash, Inv2, Chained, Counted, Locked, Locals, Before, Adjacent, Drop, Placed, OnChain;
    Parts(s, t);
    var pc := s.threads[t].pc;
    if pc.AHead? { HeadLinked(s, t, pc.fp, pc.id); }
    else if pc.RSetHead? { HeadUnlinked(s, t, pc.fp); }
    else if pc.RSetNext? { NextUnlinked(s, t, pc.fp, pc.tfp); }
    else { PlainKeys(s, t); PlainLinks(s, t); SameChains(s, Next2(s, t, Find(0))); }
  }

  lemma SameChains(s: State2, s': State2)
    requires Chained(s) && LinksKept(s, s')
    ensures forall a | a in s'.objs || a !in s.objs :: OnChain(s', a) <==> OnChain(s, a)
  {
    hide Hash;
    ChainedKept(s, s');
    forall a | OnChain(s', a) ensures OnChain(s, a) { ChainLive(s, Hash(s'.objs[a].id), a); }
  }

  lemma PlainKeys(s: State2, t: nat)
    requires Inv2(s) && t < |s.threads| && !s.threads[t].pc.Idle2? && !Relinks(s.threads[t].pc)
    ensures Next2(s, t, Find(0)).objs.Keys == s.objs.Keys - (if s.threads[t].pc.RFree?
            then {Private2(s.threads[t].pc)} else {})
  {
    hide Hash, Inv2, Chained, Counted, Locked, Locals, Before, Adjacent, Drop, Placed;
    Parts(s, t);
    var th := s.threads[t];
    if th.pc.HInc? { SharedNonNull(s, t, th.pc.fp); LiveIfShared(s, t, th.pc.fp); }
    if Owed(th.pc) != 0 { LiveIfShared(s, t, Owed(th.pc)); }
    if th.pc.FInc? { ChainLive(s, Hash(th.pc.id), th.pc.fp); }
  }

  // the object a thread brings in or takes out belongs to no other thread
  lemma PrivateAlone(s: State2, t: nat, u: nat)
    requires Inv2(s) && t < |s.threads| && u < |s.threads| && t != u && Private2(s.threads[t].pc) != 0
    ensures Private2(s.threads[u].pc) != Private2(s.threads[t].pc)
    ensures Sole(s, Private2(s.threads[t].pc))
  {
    hide Hash, Inv2, Chained, Counted, Locked, Locals, Before, Adjacent, Placed;
    Parts(s, t);
    Alone(s, t, u, Private2(s.threads[t].pc));
  }

  // an object about to be taken off its chain is no other thread's private object
  lemma LastAlone(s: State2, t: nat, u: nat, fp: nat)
    requires Inv2(s) && t < |s.threads| && u < |s.threads| && t != u && Owed(s.threads[t].pc) == fp && Sole(s, fp)
    ensures Private2(s.threads[u].pc) != fp && Owed(s.threads[u].pc) != fp && fp !in s.threads[u].refs
  {
    hide Hash, Inv2, Chained, Counted, Locked, Locals, Placed;
    Parts(s, t);
    Alone(s, t, u, fp);
  }

  lemma StepPlaced(s: State2, t: nat)
    requires Inv2(s) && t < |s.threads| && !s.threads[t].pc.Idle2?
    ensures Placed(Next2(s, t, Find(0)))
  {
    hide Hash, Inv2, Next2, Chained, Counted, Locked, Locals, OnChain, Effect2, Local;
    Parts(s, t);
    var s' := Next2(s, t, Find(0));
    StepMoved(s, t);
    PrivateFate(s, t);
    var p, p' := Private2(s.threads[t].pc), Private2(s'.threads[t].pc);
    forall a | a in s'.objs ensures OnChain(s', a) || IsPrivate(s', a) {
      if a != p && a != p' && !OnChain(s, a) {
        var u :| 0 <= u < |s.threads| && Private2(s.threads[u].pc) == a;
        assert s'.threads[u] == s.threads[u];
      }
      if a == p' { assert IsPrivate(s', a); }
    }
    forall u | 0 <= u < |s'.threads| ensures var a := Private2(s'.threads[u].pc); a != 0 ==> !OnChain(s', a) {
      var a := Private2(s'.threads[u].pc);
      if u != t && a != 0 {
        if p != 0 { PrivateAlone(s, t, u); }
        if p' != 0 && p' != p { BecomesPrivate(s, t); LastAlone(s, t, u, p'); }
      }
    }
  }

  // where t's private object went
  ghost predicate Fate(s: State2, s': State2, p: nat, p': nat) {
    && (p != 0 && p' != p ==> (p in s'.objs ==> OnChain(s', p)) && p' == 0)
    && (p' != 0 ==> !OnChain(s', p'))
  }

  // the object t was handling privately is linked, freed, or still private and unlinked
  // steps that relink nothing
  lemma PlainFate(s: State2, t: nat)
    requires Inv2(s) && t < |s.threads| && !s.threads[t].pc.Idle2?
    requires !Relinks(s.threads[t].pc) && (Private2(s.threads[t].pc) != 0 ==> !OnChain(s, Private2(s.threads[t].pc)))
    ensures var s' := Next2(s, t, Find(0)); Fate(s, s', Private2(s.threads[t].pc), Private2(s'.threads[t].pc))
  {
    hide Hash, Inv2, Chained, Counted, Locked, Locals, Placed, Before, Adjacent, Drop, OnChain;
    Parts(s, t);
    PlainKeys(s, t);
    PlainLinks(s, t);
    SameChains(s, Next2(s, t, Find(0)));
  }

  lemma RelinkFate(s: State2, t: nat)
    requires Inv2(s) && t < |s.threads| && Relinks(s.threads[t].pc)
    requires Private2(s.threads[t].pc) != 0 ==> !OnChain(s, Private2(s.threads[t].pc))
    ensures var s' := Next2(s, t, Find(0)); Fate(s, s', Private2(s.threads[t].pc), Private2(s'.threads[t].pc))
  {
    hide Hash, Inv2, Chained, Counted, Locked, Locals, Placed, Before, Adjacent, Drop, OnChain;
    Parts(s, t);
    var pc := s.threads[t].pc;
    if pc.AHead? { HeadLinked(s, t, pc.fp, pc.id); }
    else if pc.RSetHead? { HeadUnlinked(s, t, pc.fp); }
    else { NextUnlinked(s, t, pc.fp, pc.tfp); }
  }

  lemma PrivateFate(s: State2, t: nat)
    requires Inv2(s) && t < |s.threads| && !s.threads[t].pc.Idle2?
    ensures var s' := Next2(s, t, Find(0));
            Fate(s, s', Private2(s.threads[t].pc), Private2(s'.threads[t].pc)) && 0 !in s'.objs
  {
    hide Hash, Inv2, Chained, Counted, Locked, Locals, OnChain, Next2, Fate, Local, Relinks;
    Parts(s, t);
    assert Private2(s.threads[t].pc) != 0 ==> !OnChain(s, Private2(s.threads[t].pc));
    hide Placed, Private2;
    StepCounted(s, t);
    NullOut2(Next2(s, t, Find(0)));
    if Relinks(s.threads[t].pc) { RelinkFate(s, t); } else { PlainFate(s, t); }
  }

  lemma NullOut2(s: State2)
    requires Counted(s)
    ensures 0 !in s.objs
  {
  }

  lemma BecomesPrivate(s: State2, t: nat)
    requires Inv2(s) && t < |s.threads| && !s.threads[t].pc.Idle2?
    requires var s' := Next2(s, t, Find(0));
             Private2(s'.threads[t].pc) != 0 && Private2(s'.threads[t].pc) != Private2(s.threads[t].pc)
    ensures var p' := Private2(Next2(s, t, Find(0)).threads[t].pc);
            Owed(s.threads[t].pc) == p' && Sole(s, p')
  {
    hide Hash, Inv2, Chained, Counted, Locked, Locals, Before, Adjacent, Drop, Placed;
    Parts(s, t);
  }

  // ---- locks ----

  // how a step changes the locks, in terms of what its thread holds before and after
  ghost predicate LockEffect(s: State2, m: Mem, pc: Pc2, pc': Pc2) {
    && (HasHash(pc') && !HasHash(pc) ==> !s.hash)
    && m.hash == (if HasHash(pc') then true else if HasHash(pc) then false else s.hash)
    && m.locks == (if HasObj(pc) != 0 then s.locks - {HasObj(pc)} else s.locks)
      + (if HasObj(pc') != 0 then {HasObj(pc')} else {})
    && (HasObj(pc') != 0 && HasObj(pc') != HasObj(pc) ==> HasObj(pc') !in s.locks)
  }

  lemma StepLocksFinding(s: State2, t: nat)
    requires Enabled2(s, t) && Finding(s.threads[t].pc) && Local(s, s.threads[t])
    requires HasHash(s.threads[t].pc) ==> s.hash
    requires HasObj(s.threads[t].pc) != 0 ==> HasObj(s.threads[t].pc) in s.locks
    requires 0 !in s.threads[t].refs && forall h :: 0 !in ChainAt(s.chains, h)
    ensures var (m, th) := Effect2(MemOf(s), t, s.threads[t]); LockEffect(s, m, s.threads[t].pc, th.pc)
  {
    hide Hash, Drop, SetChain, SetHead, SetNext, AddCount, ObjAt, HeadOf, ChainAt, Sole;
  }

  lemma StepLocksReleasing(s: State2, t: nat)
    requires Enabled2(s, t) && !Finding(s.threads[t].pc) && !s.threads[t].pc.Idle2? && Local(s, s.threads[t])
    requires HasHash(s.threads[t].pc) ==> s.hash
    requires HasObj(s.threads[t].pc) != 0 ==> HasObj(s.threads[t].pc) in s.locks
    ensures var (m, th) := Effect2(MemOf(s), t, s.threads[t]); LockEffect(s, m, s.threads[t].pc, th.pc)
  {
    hide Hash, Drop, SetChain, SetHead, SetNext, AddCount, ObjAt, HeadOf, ChainAt, Before, Adjacent, ChainOf, OnChain;
  }

  lemma LockedKept(s: State2, s': State2, t: nat)
    requires Locked(s) && t < |s.threads| && |s'.threads| == |s.threads| && s'.threads == s.threads[t := s'.threads[t]]
    requires LockEffect(s, MemOf(s'), s.threads[t].pc, s'.threads[t].pc)
    requires forall a | a in s.objs && a !in s'.objs :: a !in s.locks
    requires HasObj(s'.threads[t].pc) != 0 ==> HasObj(s'.threads[t].pc) in s'.objs
    ensures Locked(s')
  {
    hide HasHash, HasObj;
    if s'.hash && !HasHash(s'.threads[t].pc) {
      var u :| 0 <= u < |s.threads| && HasHash(s.threads[u].pc);
      assert HasHash(s'.threads[u].pc);
    }
    forall a | a in s'.locks ensures a != 0 && exists u :: 0 <= u < |s'.threads| && HasObj(s'.threads[u].pc) == a {
      if a != HasObj(s'.threads[t].pc) {
        var u :| 0 <= u < |s.threads| && HasObj(s.threads[u].pc) == a;
        assert HasObj(s'.threads[u].pc) == a;
      }
    }
  }

  lemma NullOffChains(s: State2)
    requires Chained(s) && 0 !in s.objs
    ensures forall h :: 0 !in ChainAt(s.chains, h)
  {
    hide Hash;
    forall h ensures 0 !in ChainAt(s.chains, h) {
      if 0 in ChainAt(s.chains, h) { ChainLive(s, h, 0); }
    }
  }

  // the object a thread holds after a step is one the step touched, or one it held before
  lemma HoldsTouched(s: State2, t: nat)
    requires t < |s.threads| && !s.threads[t].pc.Idle2?
    ensures var (m, th) := Effect2(MemOf(s), t, s.threads[t]);
            HasObj(th.pc) != 0 ==>
              HasObj(th.pc) == HasObj(s.threads[t].pc)
              || HasObj(th.pc) in Touches(MemOf(s), s.threads[t].pc)
  {
    hide Hash, Drop, SetChain, SetHead, SetNext, AddCount, ObjAt, HeadOf, ChainAt;
  }

  lemma StepLocked(s: State2, t: nat)
    requires Inv2(s) && Enabled2(s, t) && !s.threads[t].pc.Idle2?
    ensures Locked(Next2(s, t, Find(0)))
  {
    hide Hash, Inv2, Chained, Counted, Locals, Local, Placed, Locked, Effect2, LockEffect, HasHash, HasObj, Touches;
    Parts(s, t);
    var s' := Next2(s, t, Find(0));
    NullOut(s, t);
    NullOffChains(s);
    if HasObj(s.threads[t].pc) != 0 { HeldIsLive(s, t); }
    assert HasHash(s.threads[t].pc) ==> s.hash by { HashIsHeld(s, t); }
    if Finding(s.threads[t].pc) { StepLocksFinding(s, t); } else { StepLocksReleasing(s, t); }
    TouchedIsLive(s, t);
    HoldsTouched(s, t);
    KeysAfter(s, t);
    if s.threads[t].pc.RFree? { assert Local(s, s.threads[t]); FreedIsOff(s, t, s.threads[t].pc.fp); }
    LockedKept(s, s', t);
  }

  lemma HashIsHeld(s: State2, t: nat)
    requires Locked(s) && t < |s.threads|
    ensures HasHash(s.threads[t].pc) ==> s.hash
  {
  }

  lemma KeysAfter(s: State2, t: nat)
    requires Inv2(s) && t < |s.threads| && !s.threads[t].pc.Idle2?
    ensures Next2(s, t, Find(0)).objs.Keys == s.objs.Keys - (if s.threads[t].pc.RFree? then {s.threads[t].pc.fp}
            else {})
    ensures s.threads[t].pc.RFree? ==> HasObj(Effect2(MemOf(s), t, s.threads[t]).1.pc) == 0
  {
    hide Hash, Inv2, Chained, Counted, Locked, Locals, Before, Adjacent, Drop, Placed, OnChain;
    Parts(s, t);
    var pc := s.threads[t].pc;
    if pc.RSetNext? { NextUnlinked(s, t, pc.fp, pc.tfp); }
    else if !Relinks(pc) { PlainKeys(s, t); }
  }

  // ---- what the stepping thread knows next ----

  lemma HeadMeans(s: State2, h: nat)
    requires Chained(s) && h < NHASH
    ensures HeadOf(s.heads, h) == (if |ChainAt(s.chains, h)| == 0 then 0 else ChainAt(s.chains, h)[0])
  {
    assert ChainOk(s.heads, s.objs, s.chains, h);
  }

  lemma NextMeans(s: State2, h: nat, i: nat)
    requires Chained(s) && h < NHASH && i < |ChainAt(s.chains, h)|
    ensures ObjAt(s.objs, ChainAt(s.chains, h)[i]).next == Succ(ChainAt(s.chains, h), i)
  {
    assert ChainOk(s.heads, s.objs, s.chains, h);
  }

  lemma FindsNext(s: State2, id: int, fp: nat)
    requires Chained(s) && fp in ChainAt(s.chains, Hash(id))
    ensures ObjAt(s.objs, fp).next != 0 ==> ObjAt(s.objs, fp).next in ChainAt(s.chains, Hash(id))
  {
    hide Hash;
    var c := ChainAt(s.chains, Hash(id));
    var i :| 0 <= i < |c| && c[i] == fp;
    NextMeans(s, Hash(id), i);
  }

  // after the second look at the count the object is still linked, and no one else refers to it
  lemma SecondLook(s: State2, t: nat, fp: nat)
    requires Inv2(s) && t < |s.threads| && s.threads[t].pc == RTest2(fp) && ObjAt(s.objs, fp).count == 1
    ensures Last(s, fp)
  {
    hide Hash, Inv2, Chained, Counted, Locals, Locked, OnChain;
    Parts(s, t);
    LiveIfShared(s, t, fp);
    if !OnChain(s, fp) {
      var u :| 0 <= u < |s.threads| && Private2(s.threads[u].pc) == fp;
      Alone(s, t, u, fp);
    }
  }

  // the unlink walk starts before its target
  lemma WalkStarts(s: State2, fp: nat)
    requires Chained(s) && Last(s, fp)
    ensures var head := HeadOf(s.heads, Hash(ObjAt(s.objs, fp).id));
            |ChainOf(s, fp)| > 0 && head == ChainOf(s, fp)[0] && (head != fp ==> Before(ChainOf(s, fp), head, fp))
  {
    hide Hash;
    var c := ChainOf(s, fp);
    HeadMeans(s, Hash(s.objs[fp].id));
    var j :| 0 <= j < |c| && c[j] == fp;
    assert c[0] != fp ==> 0 < j;
  }

  // and never runs past it
  lemma WalkContinues(s: State2, fp: nat, tfp: nat)
    requires Chained(s) && Last(s, fp) && Before(ChainOf(s, fp), tfp, fp)
    ensures var next := ObjAt(s.objs, tfp).next;
            if next == fp then Adjacent(ChainOf(s, fp), tfp, fp) else Before(ChainOf(s, fp), next, fp)
  {
    hide Hash;
    var c := ChainOf(s, fp);
    var i, j :| 0 <= i < j < |c| && c[i] == tfp && c[j] == fp;
    NextMeans(s, Hash(s.objs[fp].id), i);
    assert c[i + 1] == ObjAt(s.objs, tfp).next;
  }

  lemma OwnLocalFinding(s: State2, t: nat)
    requires Inv2(s) && t < |s.threads| && Finding(s.threads[t].pc)
    ensures Local(Next2(s, t, Find(0)), Next2(s, t, Find(0)).threads[t])
  {
    hide Hash, Inv2, Chained, Counted, Locals, Locked, Placed, Drop;
    Parts(s, t);
    match s.threads[t].pc {
      case HInc(fp) => SharedNonNull(s, t, fp);
      case FHead(id) => HeadMeans(s, Hash(id));
      case FTest(id, fp) => if fp != 0 { FindsNext(s, id, fp); }
      case FInc(id, fp) => ChainLive(s, Hash(id), fp); NullOut(s, t);
      case _ =>
    }
  }

  predicate Unlinking(pc: Pc2) {
    pc.RTest2? || pc.RHead? || pc.RSetHead? || pc.RWalk? || pc.RSetNext? || pc.RUnhash3? || pc.RUnobj3? || pc.RFree?
  }

  lemma OwnLocalReleasing(s: State2, t: nat)
    requires Inv2(s) && t < |s.threads| && !Finding(s.threads[t].pc) && !s.threads[t].pc.Idle2?
             && !Unlinking(s.threads[t].pc)
    ensures Local(Next2(s, t, Find(0)), Next2(s, t, Find(0)).threads[t])
  {
    hide Hash, Inv2, Chained, Counted, Locals, Locked, Placed, Drop, OnChain, Before, Adjacent, Sole, SetNext,
         SetHead, SetChain, HeadOf, ChainAt;
    Parts(s, t);
  }

  lemma OwnTest2(s: State2, t: nat, fp: nat)
    requires Inv2(s) && t < |s.threads| && s.threads[t].pc == RTest2(fp)
    ensures Local(Next2(s, t, Find(0)), Next2(s, t, Find(0)).threads[t])
  {
    hide Hash, Inv2, Chained, Counted, Locals, Locked, Placed, Drop, OnChain, Before, Adjacent, ChainAt;
    Parts(s, t);
    if ObjAt(s.objs, fp).count == 1 { SecondLook(s, t, fp); OnChainSame(s, Next2(s, t, Find(0)), fp); }
  }

  lemma OwnHead(s: State2, t: nat, fp: nat)
    requires Inv2(s) && t < |s.threads| && s.threads[t].pc == RHead(fp)
    ensures Local(Next2(s, t, Find(0)), Next2(s, t, Find(0)).threads[t])
  {
    hide Hash, Inv2, Chained, Counted, Locals, Locked, Placed, Drop, OnChain, Before, Adjacent, ChainAt;
    Parts(s, t);
    WalkStarts(s, fp);
    OnChainSame(s, Next2(s, t, Find(0)), fp);
  }

  lemma OwnWalk(s: State2, t: nat, fp: nat, tfp: nat)
    requires Inv2(s) && t < |s.threads| && s.threads[t].pc == RWalk(fp, tfp)
    ensures Local(Next2(s, t, Find(0)), Next2(s, t, Find(0)).threads[t])
  {
    hide Hash, Inv2, Chained, Counted, Locals, Locked, Placed, Drop, OnChain, Before, Adjacent, ChainAt;
    Parts(s, t);
    WalkContinues(s, fp, tfp);
    OnChainSame(s, Next2(s, t, Find(0)), fp);
  }

  lemma OwnUnlinked(s: State2, t: nat)
    requires Inv2(s) && t < |s.threads| && Unlinking(s.threads[t].pc)
    requires !s.threads[t].pc.RTest2? && !s.threads[t].pc.RHead? && !s.threads[t].pc.RWalk?
    ensures Local(Next2(s, t, Find(0)), Next2(s, t, Find(0)).threads[t])
  {
    hide Hash, Inv2, Chained, Counted, Locals, Locked, Placed, Drop, OnChain, Before, Adjacent, ChainAt;
    Parts(s, t);
    if s.threads[t].pc.RSetNext? { PredLive(s, s.threads[t].pc.fp, s.threads[t].pc.tfp); }
  }

  lemma OwnLocalUnlinking(s: State2, t: nat)
    requires Inv2(s) && t < |s.threads| && Unlinking(s.threads[t].pc)
    ensures Local(Next2(s, t, Find(0)), Next2(s, t, Find(0)).threads[t])
  {
    hide Inv2, Local, Next2;
    match s.threads[t].pc {
      case RTest2(fp) => OwnTest2(s, t, fp);
      case RHead(fp) => OwnHead(s, t, fp);
      case RWalk(fp, tfp) => OwnWalk(s, t, fp, tfp);
      case _ => if Unlinking(s.threads[t].pc) { OwnUnlinked(s, t); }
    }
  }

  lemma OnChainSame(s: State2, s': State2, a: nat)
    requires s'.objs == s.objs && s'.chains == s.chains
    ensures OnChain(s', a) <==> OnChain(s, a)
    ensures ChainOf(s', a) == ChainOf(s, a)
  {
  }

  // ---- what the others know stays true ----

  predicate ChangesCount(pc: Pc2, a: nat) {
    pc == HInc(a) || (pc.FInc? && pc.fp == a) || pc == RDec(a) || pc == RDec2(a)
  }

  // thread t's step leaves a's id, its count unless it changes that, and its link unless it holds hashlock
  ghost predicate KeepsFields(s: State2, t: nat, a: nat)
    requires t < |s.threads|
  {
    var (m, th) := Effect2(MemOf(s), t, s.threads[t]);
    && a in s.objs && a in m.objs && m.objs[a].id == s.objs[a].id
    && (!ChangesCount(s.threads[t].pc, a) ==> m.objs[a].count == s.objs[a].count)
    && (!HasHash(s.threads[t].pc) ==> m.objs[a].next == s.objs[a].next)
  }

  lemma FieldsFinding(s: State2, t: nat, a: nat)
    requires t < |s.threads| && Finding(s.threads[t].pc) && !s.threads[t].pc.Idle2? && a in s.objs
    ensures KeepsFields(s, t, a)
  {
    hide Hash, Drop, SetHead, SetChain, HeadOf, ChainAt;
  }

  lemma FieldsReleasing(s: State2, t: nat, a: nat)
    requires t < |s.threads| && !Finding(s.threads[t].pc) && !s.threads[t].pc.Idle2? && a in s.objs
             && s.threads[t].pc != RFree(a)
    ensures KeepsFields(s, t, a)
  {
    hide Hash, Drop, SetHead, SetChain, HeadOf, ChainAt;
  }

  lemma FieldsKept(s: State2, t: nat, a: nat)
    requires t < |s.threads| && !s.threads[t].pc.Idle2? && a in s.objs && !(s.threads[t].pc == RFree(a))
    ensures var s' := Next2(s, t, Find(0));
            && a in s'.objs && s'.objs[a].id == s.objs[a].id
            && (!ChangesCount(s.threads[t].pc, a) ==> s'.objs[a].count == s.objs[a].count)
            && (!HasHash(s.threads[t].pc) ==> s'.objs[a].next == s.objs[a].next)
  {
    hide Effect2, Finding, HasHash, ChangesCount;
    if Finding(s.threads[t].pc) { FieldsFinding(s, t, a); } else { FieldsReleasing(s, t, a); }
  }

  // a sole reference stays sole: no other thread can reach the object to count it up
  lemma SoleKept(s: State2, t: nat, u: nat, fp: nat)
    requires Inv2(s) && t < |s.threads| && u < |s.threads| && t != u && !s.threads[t].pc.Idle2?
    requires Owed(s.threads[u].pc) == fp && Sole(s, fp) && (HasHash(s.threads[u].pc) || !OnChain(s, fp))
    ensures Sole(Next2(s, t, Find(0)), fp)
    ensures fp !in s.locks && !HasHash(s.threads[u].pc) ==> fp !in Next2(s, t, Find(0)).locks
  {
    hide Hash, Inv2, Chained, Counted, Locals, Placed, Drop, Before, Adjacent, Next2, OnChain, Locked;
    Parts(s, t);
    Alone(s, u, t, fp);
    var pc := s.threads[t].pc;
    if HasHash(s.threads[u].pc) { HashExcludes(s, t, u); }
    if pc.FInc? || pc.FObj? { ChainLive(s, Hash(pc.id), pc.fp); }
    assert !ChangesCount(pc, fp);
    FieldsKept(s, t, fp);
    if fp !in s.locks && !HasHash(s.threads[u].pc) { SoleUnlocked(s, t, fp); }
  }

  lemma SoleUnlocked(s: State2, t: nat, fp: nat)
    requires t < |s.threads| && !s.threads[t].pc.Idle2? && Share(s.threads[t], fp) == 0 && fp != 0
             && Local(s, s.threads[t])
    requires fp !in s.locks && !(s.threads[t].pc.FObj? && s.threads[t].pc.fp == fp)
    ensures fp !in Next2(s, t, Find(0)).locks
  {
    hide Hash, Drop, SetChain, SetHead, SetNext, AddCount, ObjAt, HeadOf, ChainAt, Before, Adjacent, OnChain, Sole;
  }

  lemma HashExcludes(s: State2, t: nat, u: nat)
    requires Locked(s) && t < |s.threads| && u < |s.threads| && t != u && HasHash(s.threads[u].pc)
    ensures !HasHash(s.threads[t].pc)
  {
  }

  lemma NoRelink(s: State2, t: nat)
    requires t < |s.threads| && !s.threads[t].pc.Idle2? && !HasHash(s.threads[t].pc)
    ensures Next2(s, t, Find(0)).heads == s.heads && Next2(s, t, Find(0)).chains == s.chains
            && !Relinks(s.threads[t].pc)
  {
    hide Hash;
  }

  lemma OtherLocal(s: State2, t: nat, u: nat)
    requires Inv2(s) && t < |s.threads| && u < |s.threads| && t != u && !s.threads[t].pc.Idle2?
    ensures Local(Next2(s, t, Find(0)), s.threads[u])
  {
    hide Hash, Inv2, Chained, Counted, Locals, Placed, Locked, Drop, Before, Adjacent, Next2, OnChain;
    Parts(s, u);
    Parts(s, t);
    var s', pc := Next2(s, t, Find(0)), s.threads[u].pc;
    if HasHash(pc) {
      HashExcludes(s, t, u);
      NoRelink(s, t);
      PlainLinks(s, t);
      SameChains(s, s');
    }
    var fp := Owed(pc);
    if Private2(pc) != 0 { assert !OnChain(s, fp) by { assert Placed(s); PrivateOff(s, u); } }
    if fp != 0 && Sole(s, fp) && (HasHash(pc) || !OnChain(s, fp)) {
      SoleKept(s, t, u, fp);
      FieldsKeptSole(s, t, u, fp);
    }
    if pc.FObj? || pc.FInc? {
      ChainLive(s, Hash(pc.id), pc.fp);
      if s.threads[t].pc == RFree(pc.fp) { FreedIsOff(s, t, pc.fp); ChainListed(s, Hash(pc.id), pc.fp); }
      FieldsKept(s, t, pc.fp);
    }
  }

  lemma ChainListed(s: State2, h: nat, a: nat)
    requires Chained(s) && a in ChainAt(s.chains, h)
    ensures h < NHASH == |s.chains| && a in s.chains[h]
  {
  }

  lemma PrivateOff(s: State2, u: nat)
    requires Placed(s) && u < |s.threads| && Private2(s.threads[u].pc) != 0
    ensures !OnChain(s, Private2(s.threads[u].pc))
  {
  }

  lemma FieldsKeptSole(s: State2, t: nat, u: nat, fp: nat)
    requires Inv2(s) && t < |s.threads| && u < |s.threads| && t != u && !s.threads[t].pc.Idle2?
    requires Owed(s.threads[u].pc) == fp && Sole(s, fp)
    ensures var s' := Next2(s, t, Find(0));
            fp in s'.objs && s'.objs[fp].id == s.objs[fp].id
              && (!HasHash(s.threads[t].pc) ==> s'.objs[fp].next == s.objs[fp].next)
  {
    hide Hash, Inv2, Chained, Counted, Locals, Placed, Locked, Drop, Before, Adjacent, Next2, OnChain;
    Parts(s, t);
    Alone(s, u, t, fp);
    FieldsKept(s, t, fp);
  }

  // ---- calls ----

  // a step that changes shared memory at most by adding one object nobody knew
  ghost predicate Calls(s: State2, s': State2) {
    && s'.heads == s.heads && s'.chains == s.chains && s'.hash == s.hash && s'.locks == s.locks
      && |s'.threads| == |s.threads|
    && forall a | a in s.objs :: a in s'.objs && s'.objs[a] == s.objs[a]
  }

  lemma CallsChained(s: State2, s': State2)
    requires Chained(s) && Calls(s, s')
    ensures Chained(s') && forall a :: OnChain(s', a) <==> OnChain(s, a)
  {
    hide Hash;
    assert forall a | OnChain(s, a) :: a in s'.objs && s'.objs[a] == s.objs[a];
    ChainedKept(s, s');
    forall a | OnChain(s', a) ensures OnChain(s, a) { ChainLive(s, Hash(s'.objs[a].id), a); }
  }

  lemma CallsLocked(s: State2, s': State2)
    requires Locked(s) && Calls(s, s')
    requires forall u | 0 <= u < |s.threads| ::
               HasHash(s'.threads[u].pc) == HasHash(s.threads[u].pc)
                 && HasObj(s'.threads[u].pc) == HasObj(s.threads[u].pc)
    ensures Locked(s')
  {
    hide HasHash, HasObj;
    if s'.hash {
      var u :| 0 <= u < |s.threads| && HasHash(s.threads[u].pc);
      assert HasHash(s'.threads[u].pc);
    }
    forall a | a in s'.locks ensures a != 0 && exists u :: 0 <= u < |s'.threads| && HasObj(s'.threads[u].pc) == a {
      var u :| 0 <= u < |s.threads| && HasObj(s.threads[u].pc) == a;
      assert HasObj(s'.threads[u].pc) == a;
    }
  }

  lemma CallsLocal(s: State2, s': State2, th: Thread2)
    requires Calls(s, s') && Local(s, th)
    requires Chained(s)
    ensures Local(s', th)
  {
    hide Hash, Chained, Before, Adjacent;
    CallsChained(s, s');
    if th.pc.FObj? || th.pc.FInc? { ChainLive(s, Hash(th.pc.id), th.pc.fp); }
  }

  // the caller's own share of every object, and the existence of the object it names
  ghost predicate CallShares(s: State2, t: nat, c: Call)
    requires t < |s.threads| && !c.Pass?
  {
    var s' := Begin2(s, t, c);
    && s'.threads == s.threads[t := s'.threads[t]]
    && forall a: nat | a != 0 ::
         (if a in s'.objs then s'.objs[a].count else 0) - (if a in s.objs then s.objs[a].count else 0)
           == Share(s'.threads[t], a) - Share(s.threads[t], a)
  }

  lemma CallCounted(s: State2, t: nat, c: Call)
    requires Inv2(s) && t < |s.threads| && s.threads[t].pc.Idle2? && CallOk2(s, t, c) && !c.Pass?
    ensures Counted(Begin2(s, t, c))
  {
    hide Hash, Inv2, Counted, Chained, Placed, Locked, Locals, CountIs, Sum;
    Parts(s, t);
    NullOut(s, t);
    var s' := Begin2(s, t, c);
    assert CallShares(s, t, c);
    hide Share, Begin2;
    forall a: nat | a != 0 ensures CountIs(s', a) {
      assert CountIs(s, a) by { assert Counted(s); CountedAt(s, a); }
      CountKept(s, s', t, s'.threads[t], a);
    }
    CountedNulls(s, s', t, c);
  }

  lemma CountedAt(s: State2, a: nat)
    requires Counted(s) && a != 0
    ensures CountIs(s, a)
  {
  }

  lemma CountedNulls(s: State2, s': State2, t: nat, c: Call)
    requires Counted(s) && t < |s.threads| && s' == Begin2(s, t, c) && CallOk2(s, t, c) && !c.Pass?
    requires forall a: nat | a != 0 :: CountIs(s', a)
    ensures Counted(s')
  {
    hide CountIs;
  }

  lemma PassCounted(s: State2, t: nat, fp: nat, to: nat)
    requires Inv2(s) && t < |s.threads| && CallOk2(s, t, Pass(fp, to))
    ensures Counted(Begin2(s, t, Pass(fp, to)))
  {
    hide Hash, Inv2, Chained, Placed, Locked, Locals, Sum, Owed;
    Parts(s, t);
    var s' := Begin2(s, t, Pass(fp, to));
    var th := s.threads[t].(refs := s.threads[t].refs - multiset{fp});
    var ths := s.threads[t := th];
    var th' := ths[to].(refs := ths[to].refs + multiset{fp});
    assert s'.threads == ths[to := th'];
    forall a: nat | a != 0 ensures CountIs(s', a) {
      assert CountIs(s, a);
      SumUpdate(s.threads, t, th, a);
      SumUpdate(ths, to, th', a);
    }
  }

  lemma BeginPlaced(s: State2, t: nat, c: Call)
    requires Inv2(s) && t < |s.threads| && s.threads[t].pc.Idle2? && CallOk2(s, t, c)
    ensures Placed(Begin2(s, t, c)) && Calls(s, Begin2(s, t, c))
  {
    hide Hash, Inv2, Counted, Chained, Locked, Locals, OnChain;
    Parts(s, t);
    var s' := Begin2(s, t, c);
    assert Calls(s, s');
    CallsChained(s, s');
    assert forall u | 0 <= u < |s.threads| && u != t :: s'.threads[u].pc == s.threads[u].pc;
    forall a | a in s'.objs ensures OnChain(s', a) || IsPrivate(s', a) {
      if a in s.objs && !OnChain(s, a) {
        var u :| 0 <= u < |s.threads| && Private2(s.threads[u].pc) == a;
        NullOut(s, t);
        assert Private2(s'.threads[u].pc) == a;
      } else if a !in s.objs {
        assert Private2(s'.threads[t].pc) == a;
      }
    }
    if c.Alloc? { assert !OnChain(s, c.fp) by { NotOnIfDead(s, c.fp); } }
  }

  lemma NotOnIfDead(s: State2, a: nat)
    requires a !in s.objs
    ensures !OnChain(s, a)
  {
  }

  // a call takes no lock and changes no other thread's position
  ghost predicate BeginsQuietly(s: State2, s': State2, t: nat, u: nat) {
    && |s'.threads| == |s.threads| && t < |s.threads| && u < |s.threads|
    && var th, th' := s.threads[u], s'.threads[u];
       && HasHash(th'.pc) == HasHash(th.pc) && HasObj(th'.pc) == HasObj(th.pc)
       && (u != t ==> th'.pc == th.pc && forall a | a in th.refs :: a in th'.refs)
  }

  lemma PassPcs(s: State2, t: nat, fp: nat, to: nat, u: nat)
    requires t < |s.threads| && u < |s.threads| && s.threads[t].pc.Idle2?
    ensures BeginsQuietly(s, Begin2(s, t, Pass(fp, to)), t, u)
  {
    hide HasHash, HasObj;
  }

  lemma CallPcs(s: State2, t: nat, c: Call, u: nat)
    requires t < |s.threads| && u < |s.threads| && s.threads[t].pc.Idle2? && !c.Pass?
    ensures BeginsQuietly(s, Begin2(s, t, c), t, u)
  {
  }

  lemma BeginPcs(s: State2, t: nat, c: Call)
    requires t < |s.threads| && s.threads[t].pc.Idle2?
    ensures |Begin2(s, t, c).threads| == |s.threads|
    ensures forall u | 0 <= u < |s.threads| :: var pc, pc' := s.threads[u].pc, Begin2(s, t, c).threads[u].pc;
              HasHash(pc') == HasHash(pc) && HasObj(pc') == HasObj(pc)
    ensures forall u | 0 <= u < |s.threads| && u != t :: var th, th' := s.threads[u], Begin2(s, t, c).threads[u];
              th'.pc == th.pc && forall a | a in th.refs :: a in th'.refs
  {
    hide Begin2, HasHash, HasObj;
    var s' := Begin2(s, t, c);
    if c.Pass? { PassPcs(s, t, c.fp, c.to, t); } else { CallPcs(s, t, c, t); }
    assert BeginsQuietly(s, s', t, t);
    forall u | 0 <= u < |s.threads|
      ensures HasHash(s'.threads[u].pc) == HasHash(s.threads[u].pc)
              && HasObj(s'.threads[u].pc) == HasObj(s.threads[u].pc)
      ensures u != t ==>
                s'.threads[u].pc == s.threads[u].pc
                && forall a | a in s.threads[u].refs :: a in s'.threads[u].refs
    {
      if c.Pass? { PassPcs(s, t, c.fp, c.to, u); } else { CallPcs(s, t, c, u); }
      assert BeginsQuietly(s, s', t, u);
    }
  }

  lemma BeginInv(s: State2, t: nat, c: Call)
    requires Inv2(s) && t < |s.threads| && s.threads[t].pc.Idle2? && CallOk2(s, t, c)
    ensures Inv2(Begin2(s, t, c))
  {
    hide Hash, Inv2, Counted, Chained, Locked, Placed, Local, Begin2;
    Parts(s, t);
    var s' := Begin2(s, t, c);
    BeginPcs(s, t, c);
    if c.Pass? { PassCounted(s, t, c.fp, c.to); } else { CallCounted(s, t, c); }
    BeginPlaced(s, t, c);
    CallsChained(s, s');
    CallsLocked(s, s');
    forall u | 0 <= u < |s'.threads| ensures Local(s', s'.threads[u]) {
      if u == t {
        CallerLocal(s, t, c);
      } else {
        assert Local(s, s.threads[u]);
        CallsLocal(s, s', s.threads[u]);
        LocalMoreRefs(s', s.threads[u], s'.threads[u]);
      }
    }
    Whole(s');
  }

  lemma CallerLocal(s: State2, t: nat, c: Call)
    requires Counted(s) && t < |s.threads| && s.threads[t].pc.Idle2? && CallOk2(s, t, c)
    ensures Local(Begin2(s, t, c), Begin2(s, t, c).threads[t])
  {
    hide Hash, Counted;
    NullOut(s, t);
  }

  lemma LocalMoreRefs(s: State2, th: Thread2, th': Thread2)
    requires Local(s, th) && th'.pc == th.pc && forall a | a in th.refs :: a in th'.refs
    ensures Local(s, th')
  {
    hide Hash, Sole, Last, Before, Adjacent, OnChain;
  }

  lemma Whole(s: State2)
    requires Counted(s) && Chained(s) && Placed(s) && Locked(s) && Locals(s)
    ensures Inv2(s)
  {
    hide Counted, Chained, Placed, Locked, Locals;
  }

  // every step of every thread keeps the invariant
  lemma StepInv2(s: State2, t: nat, c: Call, s': State2)
    requires Inv2(s) && Step2(s, t, c, s')
    ensures Inv2(s')
  {
    hide Hash, Inv2, Counted, Chained, Locked, Placed, Local, Effect2, CallOk2, Begin2;
    if s.threads[t].pc.Idle2? {
      BeginInv(s, t, c);
    } else {
      assert s' == Next2(s, t, Find(0));
      StepCounted(s, t);
      StepChained(s, t);
      StepPlaced(s, t);
      StepLocked(s, t);
      forall u | 0 <= u < |s'.threads| ensures Local(s', s'.threads[u]) {
        if u == t {
          if Finding(s.threads[t].pc) { OwnLocalFinding(s, t); }
          else if Unlinking(s.threads[t].pc) { OwnLocalUnlinking(s, t); }
          else { OwnLocalReleasing(s, t); }
        } else {
          OtherLocal(s, t, u);
        }
      }
      Whole(s');
    }
  }

  lemma InitInv2(s: State2)
    requires Init2(s)
    ensures Inv2(s)
  {
    hide Hash;
    forall a: nat | a != 0 ensures CountIs(s, a) { SumZero(s.threads, a); }
    forall h | 0 <= h < NHASH ensures ChainOk(s.heads, s.objs, s.chains, h) { }
  }

  lemma {:induction false} SumZero(ths: seq<Thread2>, a: nat)
    requires forall t | 0 <= t < |ths| :: ths[t] == Thread2(Idle2, multiset{})
    ensures Sum(ths, a) == 0
  {
    if ths != [] { SumZero(ths[1..], a); }
  }

  // ---- no deadlock ----

  // t waits for a lock that u holds
  ghost predicate WaitsFor(s: State2, t: nat, u: nat) {
    && t < |s.threads| && u < |s.threads| && t != u
    && match s.threads[t].pc
       case AHash(_, _) => HasHash(s.threads[u].pc)
       case FHash(_) => HasHash(s.threads[u].pc)
       case RHash(_) => HasHash(s.threads[u].pc)
       case AObj(fp) => HasObj(s.threads[u].pc) == fp
       case HObj(fp) => HasObj(s.threads[u].pc) == fp
       case FObj(_, fp) => HasObj(s.threads[u].pc) == fp
       case RObj(fp) => HasObj(s.threads[u].pc) == fp
       case RObj2(fp) => HasObj(s.threads[u].pc) == fp
       case _ => false
  }

  function Level(pc: Pc2): nat { if HasObj(pc) != 0 then 2 else if HasHash(pc) then 1 else 0 }

  // hashlock before f_lock, and nobody waits while holding an f_lock: waits only lead upward
  lemma WaitsUpward(s: State2, t: nat, u: nat)
    requires Inv2(s) && WaitsFor(s, t, u)
    ensures Level(s.threads[t].pc) < Level(s.threads[u].pc)
  {
    hide Hash, Inv2, Counted, Chained, Locked, Placed, Before, Adjacent, Sole, OnChain;
    Parts(s, t);
    NullOut(s, t);
    NullOffChains(s);
  }

  // a thread that cannot step waits for some thread
  lemma StuckWaits(s: State2, t: nat)
    requires Inv2(s) && t < |s.threads| && !Enabled2(s, t)
    ensures exists u :: WaitsFor(s, t, u)
  {
    hide Hash, Inv2, Counted, Chained, Placed, Before, Adjacent, Sole, OnChain;
    Parts(s, t);
    NullOut(s, t);
    NullOffChains(s);
    var pc := s.threads[t].pc;
    if pc.AHash? || pc.FHash? || pc.RHash? {
      var u :| 0 <= u < |s.threads| && HasHash(s.threads[u].pc);
      assert WaitsFor(s, t, u);
    } else {
      assert pc.fp in s.locks;
      var u :| 0 <= u < |s.threads| && HasObj(s.threads[u].pc) == pc.fp;
      assert WaitsFor(s, t, u);
    }
  }

  // following waits from any thread leads to one that can step
  lemma {:induction false} WaitsEnd(s: State2, t: nat) returns (u: nat)
    requires Inv2(s) && t < |s.threads|
    ensures u < |s.threads| && Enabled2(s, u) && Level(s.threads[t].pc) <= Level(s.threads[u].pc)
    ensures !s.threads[t].pc.Idle2? ==> !s.threads[u].pc.Idle2?
    decreases 2 - Level(s.threads[t].pc)
  {
    hide Hash, Inv2;
    if Enabled2(s, t) {
      u := t;
    } else {
      StuckWaits(s, t);
      var v :| WaitsFor(s, t, v);
      WaitsUpward(s, t, v);
      u := WaitsEnd(s, v);
    }
  }

  // ---- over every run ----

  lemma {:induction false} RunInv2(trace: seq<State2>, k: nat)
    requires Run2(trace) && k < |trace|
    ensures Inv2(trace[k])
    decreases k
  {
    hide Inv2, Init2, Step2;
    if k == 0 {
      InitInv2(trace[0]);
    } else {
      RunInv2(trace, k - 1);
      assert StepsTo(trace[k - 1], trace[k - 1 + 1]);
      var t, c :| 0 <= t < |trace[k - 1].threads| && Step2(trace[k - 1], t, c, trace[k]);
      StepInv2(trace[k - 1], t, c, trace[k]);
    }
  }

  // no step touches a freed object, whatever the interleaving
  lemma TouchesLive(trace: seq<State2>, k: nat, t: nat)
    requires Run2(trace) && k < |trace| && t < |trace[k].threads|
    ensures Touches(MemOf(trace[k]), trace[k].threads[t].pc) <= trace[k].objs.Keys
  {
    hide Inv2, Run2, Touches;
    RunInv2(trace, k);
    TouchedIsLive(trace[k], t);
  }

  // an object is freed only off every chain, unlocked, and with no reference left but the one being dropped
  lemma FreedIsUnlinked(trace: seq<State2>, k: nat, t: nat, fp: nat)
    requires Run2(trace) && k < |trace| && t < |trace[k].threads| && trace[k].threads[t].pc == RFree(fp)
    ensures var s := trace[k];
            && fp in s.objs && fp !in s.locks && |s.chains| == NHASH
            && (forall h | 0 <= h < NHASH :: fp !in s.chains[h])
            && forall u | 0 <= u < |s.threads| && u != t :: Share(s.threads[u], fp) == 0
  {
    hide Inv2, Run2, Share, Counted, Placed, Locked, Locals, Hash;
    RunInv2(trace, k);
    Parts(trace[k], t);
    FreedIsOff(trace[k], t, fp);
  }

  // an object with a reference outstanding is live, and its count is the number of references
  lemma CountsReferences(trace: seq<State2>, k: nat, t: nat, a: nat)
    requires Run2(trace) && k < |trace| && t < |trace[k].threads| && a != 0 && Share(trace[k].threads[t], a) > 0
    ensures a in trace[k].objs && trace[k].objs[a].count == Sum(trace[k].threads, a) > 0
  {
    hide Inv2, Run2, Share, Counted, Chained, Placed, Locked, Locals, Sum;
    RunInv2(trace, k);
    Parts(trace[k], t);
    LiveIfShared(trace[k], t, a);
  }

  // no cycle, no deadlock: from any thread, following waits leads to one that can step
  lemma SomeoneSteps(trace: seq<State2>, k: nat, t: nat) returns (u: nat)
    requires Run2(trace) && k < |trace| && t < |trace[k].threads|
    ensures u < |trace[k].threads| && Enabled2(trace[k], u)
    ensures Level(trace[k].threads[t].pc) <= Level(trace[k].threads[u].pc)
    ensures !trace[k].threads[t].pc.Idle2? ==> !trace[k].threads[u].pc.Idle2?
  {
    hide Inv2, Run2, Enabled2, Level;
    RunInv2(trace, k);
    u := WaitsEnd(trace[k], t);
  }
}
