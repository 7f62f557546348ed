/**
 What holds over whole runs: calls are atomic and in order, nothing is lost, no set of processes
 deadlocks, and no read ever meets a half-written record.
 */
module DbRuns {
  import opened Common
  import opened DbCodec
  import opened DbLayout
  import opened DbProcesses
  import opened DbAtomic
  import opened DbSteps

  // states and, between consecutive states, the process that took the step
  ghost predicate IsRun(trace: seq<State>, who: seq<nat>) {
    && |trace| == |who| + 1 && Init(trace[0])
    && forall i | 0 <= i < |who| :: Step(trace[i], who[i], trace[i + 1])
  }

  lemma StepInv(s: State, p: nat, s': State)
    requires Inv(s) && Step(s, p, s')
    ensures Inv(s') && Guar(s, s', p)
  {
    hide Hash, Inv, Next, Guar, CallOk, Good;
    var input :| CallOk(input) && s' == Next(s, p, input);
    StepKeeps(s, p, input);
    GoodStep(s, p, input);
    GoodGuar(s, s', p);
  }

  lemma GoodGuar(s: State, s': State, p: nat)
    requires Good(s, s', p)
    ensures Guar(s, s', p)
  {
    hide Base, Guar, LocalAt, Released;
  }

  lemma {:induction false} RunInv(trace: seq<State>, who: seq<nat>, i: nat)
    requires IsRun(trace, who) && i < |trace|
    ensures Inv(trace[i])
  {
    hide Inv, Step, Init;
    if i == 0 {
      InitInv(trace[0]);
    } else {
      RunInv(trace, who, i - 1);
      StepInv(trace[i - 1], who[i - 1], trace[i]);
    }
  }

  // ---- atomicity ----

  // A step changes the map only by returning from a call, and then exactly as a fetch, a delete or a
  // store of one key does.
  lemma ReturnIsAtomic(s: State, p: nat, s': State)
    requires Inv(s) && Step(s, p, s')
    ensures p in s.procs
    ensures !s.procs[p].Unlock? ==> s'.m == s.m
    ensures s.procs[p].Unlock? ==>
              match s.procs[p].c
              case Fetch(k) =>
                s'.m == s.m && s.procs[p].res == Data(if k in s.m then Some(s.m[k]) else None)
              case Delete(k) =>
                s'.m == s.m - {k} && s.procs[p].res == Code(if k in s.m then 0 else -1)
              case Store(k, d, flag) =>
                && (flag == DbInsert && k in s.m ==> s'.m == s.m && s.procs[p].res == Code(1))
                && (flag == DbReplace && k !in s.m ==> s'.m == s.m && s.procs[p].res == Code(-1))
                && (!(flag == DbInsert && k in s.m) && !(flag == DbReplace && k !in s.m) ==>
                      s'.m == s.m[k := d] && s.procs[p].res == Code(0))
  {
    hide SpecResult, SpecMap;
    ReturnIsSpec(s, p, s');
    if s.procs[p].Unlock? { SpecSays(s.m, s.procs[p]); }
  }

  lemma SpecSays(m: map<string, string>, a: Proc)
    requires a.Unlock?
    ensures var r, m' := SpecResult(m, a.c), SpecMap(m, a.c);
            match a.c
            case Fetch(k) => m' == m && r == Data(if k in m then Some(m[k]) else None)
            case Delete(k) => m' == m - {k} && r == Code(if k in m then 0 else -1)
            case Store(k, d, flag) =>
              && (flag == DbInsert && k in m ==> m' == m && r == Code(1))
              && (flag == DbReplace && k !in m ==> m' == m && r == Code(-1))
              && (!(flag == DbInsert && k in m) && !(flag == DbReplace && k !in m) ==>
                    m' == m[k := d] && r == Code(0))
  {
  }

  lemma ReturnIsSpec(s: State, p: nat, s': State)
    requires Inv(s) && Step(s, p, s')
    ensures p in s.procs
    ensures if s.procs[p].Unlock? then s.procs[p].res == SpecResult(s.m, s.procs[p].c)
            && s'.m == SpecMap(s.m, s.procs[p].c)
            else s'.m == s.m
  {
    hide Hash, Base, SpecResult, SpecMap, Settled, Exclusive, Whole, Mapped, Ready, Bypassed, CallOk;
    var input :| CallOk(input) && s' == Next(s, p, input);
    assert LocalAt(s, p, s.procs[p]);
    if !s.procs[p].Unlock? { MapKept(s, p, s.procs[p], input); }
  }

  lemma MapKept(s: State, p: nat, a: Proc, input: Call)
    requires !a.Unlock?
    ensures Effect(s, p, a, input).0.m == s.m
  {
    hide Effect, IsQuiet;
    if IsQuiet(a) { QuietMemory(s, p, a, input); } else { WritingKeeps(s, p, a, input); }
  }

  // the calls that returned in the first n steps, in order, with the results they gave
  ghost function Returned(trace: seq<State>, who: seq<nat>, n: nat): seq<(Call, Result)>
    requires |trace| == |who| + 1 && n <= |who|
  {
    if n == 0 then []
    else
      var s, p := trace[n - 1], who[n - 1];
      Returned(trace, who, n - 1)
      + if p in s.procs && s.procs[p].Unlock? then [(s.procs[p].c, s.procs[p].res)] else []
  }

  // those calls made one after the other on a plain map
  ghost function Replay(m: map<string, string>, calls: seq<(Call, Result)>): map<string, string> {
    if calls == [] then m
    else SpecMap(Replay(m, calls[..|calls| - 1]), calls[|calls| - 1].0)
  }

  // every call in the history gave the result it gives at its place in the replay
  ghost predicate Explained(m: map<string, string>, calls: seq<(Call, Result)>) {
    forall k | 0 <= k < |calls| :: calls[k].1 == SpecResult(Replay(m, calls[..k]), calls[k].0)
  }

  // In every run, the calls in the order of their return are a sequential history of a plain map.
  // A call returns while it is in progress, so the order respects real time.
  lemma {:induction false} Linearizable(trace: seq<State>, who: seq<nat>, n: nat)
    requires IsRun(trace, who) && n <= |who|
    ensures Explained(map[], Returned(trace, who, n))
    ensures trace[n].m == Replay(map[], Returned(trace, who, n))
  {
    hide Inv, Step, SpecMap, SpecResult, Explained;
    if n == 0 {
      assert trace[0].m == map[];
      NothingExplained(map[]);
    } else {
      hide Init;
      Linearizable(trace, who, n - 1);
      RunInv(trace, who, n - 1);
      var s, p := trace[n - 1], who[n - 1];
      ReturnIsSpec(s, p, trace[n]);
      var before, after := Returned(trace, who, n - 1), Returned(trace, who, n);
      if s.procs[p].Unlock? {
        var e := (s.procs[p].c, s.procs[p].res);
        assert after == before + [e];
        ExplainedOneMore(map[], before, e);
      } else {
        assert after == before;
      }
    }
  }

  lemma NothingExplained(m: map<string, string>)
    ensures Explained(m, [])
  {
  }

  lemma ExplainedOneMore(m: map<string, string>, calls: seq<(Call, Result)>, e: (Call, Result))
    requires Explained(m, calls) && e.1 == SpecResult(Replay(m, calls), e.0)
    ensures Explained(m, calls + [e]) && Replay(m, calls + [e]) == SpecMap(Replay(m, calls), e.0)
  {
    hide SpecMap, SpecResult;
    var after := calls + [e];
    assert after[..|calls|] == calls;
    forall k | 0 <= k < |after| ensures after[k].1 == SpecResult(Replay(m, after[..k]), after[k].0) {
      if k < |calls| { assert after[..k] == calls[..k] && after[k] == calls[k]; }
    }
  }

  // ---- what the files hold when no call is in progress ----

  ghost function LayoutOf(s: State): Layout {
    Layout(s.heads, s.recs, map o | o in s.recs :: DatAtOff(s, s.recs[o].datoff), [], s.lists, s.own)
  }

  // Between calls the shared structure is exactly the one the single-process proof describes:
  // every record on exactly one list, the chains holding the map.
  lemma QuiescentLayout(s: State)
    requires Inv(s) && forall p | p in s.procs :: s.procs[p].Idle?
    ensures ListsOk(LayoutOf(s), {}) && Represents(LayoutOf(s), s.m)
  {
    hide Hash, Linked, NoDup, Owns, Contents, Extents, DataOk, Exclusive, LocalAt, ChainMap;
    var st := LayoutOf(s);
    forall l | 0 <= l < NLISTS ensures ListOk(st, l) && (l > 0 ==> Mapped(s, l, s.m)) {
      assert Shape(s, l) && Settled(s, l);
    }
    assert Owned(s);
    assert ListsOk(st, {});
    QuiescentMap(s, st);
  }

  lemma QuiescentMap(s: State, st: Layout)
    requires st == LayoutOf(s) && ListsOk(st, {}) && forall l | 0 < l < NLISTS :: Mapped(s, l, s.m)
    ensures Represents(st, s.m)
  {
    hide Hash, ListOk, KeyFits, KeyText;
    forall o | OnChain(st, o) ensures st.recs[o].key in s.m && s.m[st.recs[o].key] == st.text[o] {
      var l := st.loc[o];
      assert Mapped(s, l, s.m) && o in st.lists[l];
      var i :| 0 <= i < |st.lists[l]| && st.lists[l][i] == o;
      assert Carries(s.recs, s.dat, ListAt(s, l)[i], s.m);
    }
    forall k | k in s.m ensures exists o :: OnChain(st, o) && st.recs[o].key == k {
      var l := Hash(k) + 1;
      assert Mapped(s, l, s.m);
      assert OnPath(s.recs, ListAt(s, l), k);
      var i :| 0 <= i < |ListAt(s, l)| && ListAt(s, l)[i] in s.recs && s.recs[ListAt(s, l)[i]].key == k;
      ListMember(st, {}, l, st.lists[l][i]);
    }
  }

  // ---- no deadlock ----

  // how far a process is along the lock order: chain, then free list or an append lock
  function Level(a: Proc): nat {
    if !InChain(a) then 0 else if HoldsFree(a) || HoldsDat(a) || HoldsIdx(a) then 2 else 1
  }

  // a process waits only for processes further along
  lemma WaitsUpward(a: Proc, b: Proc)
    requires Blocks(a, b)
    ensures Level(a) < Level(b)
  {
    hide Hash;
  }

  // In every non-empty set of processes one is not waiting for any other of the set.
  lemma {:induction false} NoDeadlock(procs: map<nat, Proc>, set': set<nat>) returns (p: nat)
    requires set' != {} && set' <= procs.Keys
    ensures p in set' && forall q | q in set' :: Level(procs[q]) <= Level(procs[p])
    ensures forall q | q in set' :: !Blocks(procs[p], procs[q])
    decreases |set'|
  {
    hide Blocks, Level;
    p :| p in set';
    var rest := set' - {p};
    if rest != {} {
      var r := NoDeadlock(procs, rest);
      if Level(procs[p]) < Level(procs[r]) { p := r; }
      assert forall q | q in set' :: q == r || q in rest || q == p || q in set' - rest;
    }
    forall q | q in set' ensures !Blocks(procs[p], procs[q]) {
      if Blocks(procs[p], procs[q]) { WaitsUpward(procs[p], procs[q]); }
    }
  }

  // as long as some call is in progress, some call in progress can take its next step
  lemma Progress(s: State, working: set<nat>) returns (p: nat, s': State)
    requires working == (set q | q in s.procs && !s.procs[q].Idle?) && working != {}
    ensures p in working && Step(s, p, s')
  {
    hide Hash, Next;
    p := NoDeadlock(s.procs, working);
    forall q | q in s.procs && q != p ensures !Blocks(s.procs[p], s.procs[q]) {
      if q !in working { assert s.procs[q].Idle?; }
    }
    var input := Fetch("");
    s' := Next(s, p, input);
    assert CallOk(input);
  }

  // ---- reads are never torn ----

  // the index record a process is about to read
  function Reading(a: Proc): Option<nat> {
    match a
    case Walk(_, _, o, _) => Some(o)
    case FreeWalk(_, _, _, o, _) => Some(o)
    case ReadData(_, o, _, _) => Some(o)
    case _ => None
  }

  // While p is about to read a record, that record exists and no step of another process
  // changes it or its data, so splitting the read into several calls would make no difference.
  lemma NoTornRead(s: State, p: nat, q: nat, s': State)
    requires Inv(s) && Step(s, q, s') && p in s.procs && p != q && Reading(s.procs[p]).Some?
    ensures var o := Reading(s.procs[p]).value;
            && o in s.recs && o in s'.recs && s'.recs[o] == s.recs[o]
            && s.recs[o].datoff in s.dat && s.recs[o].datoff in s'.dat
              && s'.dat[s.recs[o].datoff] == s.dat[s.recs[o].datoff]
  {
    hide Hash, Inv, Step, Guar, ListSame, MapSame, Base, Whole, Mapped, CallOk, Contents, NoDup;
    StepInv(s, q, s');
    InvParts(s, p);
    assert q in s.procs by { GuarProcs(s, s', q); }
    assert Compatible(s.procs[q], s.procs[p]) by { InvCompatible(s, q, p); }
    Protected(s, s', q, p);
    var a := s.procs[p];
    var l := if a.FreeWalk? then 0 else Chain(a.c);
    BaseShape(s, l);
    ListSameAt(s, s', l, a.i);
    var o := Reading(a).value;
    assert o in s.own && o in s.recs by { assert Shape(s, l); OwnedMember(s, o); }
    HasDataAt(s, o);
  }

  lemma InvCompatible(s: State, p: nat, q: nat)
    requires Inv(s) && p in s.procs && q in s.procs && p != q
    ensures Compatible(s.procs[p], s.procs[q])
  {
    hide Base, LocalAt, Settled, Compatible;
  }
}
