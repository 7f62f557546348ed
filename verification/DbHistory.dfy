/**
 What the callers of the shared database see over a whole run, said of the calls and results alone:
 a fetch answers with the data of the last store before it, a delete and a store answer by whether
 the key is there, and every call made returns exactly once.
 */
module DbHistory {
  import opened Common
  import opened DbCodec
  import opened DbLayout
  import opened DbProcesses
  import opened DbAtomic
  import opened DbSteps
  import opened DbRuns

  // ---- the answers ----

  type Event = (Call, Result)

  // a store that put d under the key k
  predicate Puts(e: Event, k: string, d: string) {
    e.0.Store? && e.0.key == k && e.0.data == d && e.1 == Code(0)
  }

  // a store or a delete of k that went through
  predicate Changes(e: Event, k: string) {
    (e.0.Store? || e.0.Delete?) && e.0.key == k && e.1 == Code(0)
  }

  // the last of the first n calls that changed k stored d
  ghost predicate Held(h: seq<Event>, n: nat, k: string, d: string) {
    exists j :: 0 <= j < n && j < |h| && Puts(h[j], k, d) && Unchanged(h, j + 1, n, k)
  }

  ghost predicate Unchanged(h: seq<Event>, a: nat, b: nat, k: string) {
    forall i | a <= i < b && i < |h| :: !Changes(h[i], k)
  }

  ghost predicate Present(h: seq<Event>, n: nat, k: string) { exists d :: Held(h, n, k, d) }

  // one more call
  lemma HeldNext(h: seq<Event>, n: nat, k: string, d: string)
    requires n < |h|
    ensures Held(h, n + 1, k, d) <==> Puts(h[n], k, d) || (Held(h, n, k, d) && !Changes(h[n], k))
  {
    if Puts(h[n], k, d) {
      assert Unchanged(h, n + 1, n + 1, k);
    } else if Held(h, n, k, d) && !Changes(h[n], k) {
      var j :| 0 <= j < n && j < |h| && Puts(h[j], k, d) && Unchanged(h, j + 1, n, k);
      assert Unchanged(h, j + 1, n + 1, k);
    }
    if Held(h, n + 1, k, d) {
      var j :| 0 <= j < n + 1 && j < |h| && Puts(h[j], k, d) && Unchanged(h, j + 1, n + 1, k);
      assert j < n ==> Unchanged(h, j + 1, n, k);
    }
  }

  // the plain map is what the history says is held
  lemma {:induction false} MapIsHeld(h: seq<Event>, n: nat, k: string)
    requires Explained(map[], h) && n <= |h|
    ensures var m := Replay(map[], h[..n]); forall d :: k in m && m[k] == d <==> Held(h, n, k, d)
    decreases n
  {
    var m := Replay(map[], h[..n]);
    if n == 0 {
      assert h[..0] == [];
    } else {
      assert h[..n][..n - 1] == h[..n - 1];
      MapIsHeld(h, n - 1, k);
      forall d ensures k in m && m[k] == d <==> Held(h, n, k, d) { HeldNext(h, n - 1, k, d); }
    }
  }

  lemma PresentIs(h: seq<Event>, n: nat, k: string)
    requires Explained(map[], h) && n <= |h|
    ensures Present(h, n, k) <==> k in Replay(map[], h[..n])
  {
    hide Replay, Explained, Held;
    MapIsHeld(h, n, k);
    var m := Replay(map[], h[..n]);
    if k in m { assert Held(h, n, k, m[k]); }
  }

  // In every run, with the calls in the order of their return: a fetch gives the data that is held
  // and nothing exactly if none is; a delete gives 0 exactly if the key is there, else -1; a store
  // gives 1 exactly for an insert of a key that is there, -1 exactly for a replace of one that is
  // not, and 0 otherwise.
  lemma Answers(trace: seq<State>, who: seq<nat>, n: nat, i: nat)
    requires IsRun(trace, who) && n <= |who| && i < |Returned(trace, who, n)|
    ensures var h := Returned(trace, who, n);
            match h[i].0
            case Fetch(k) =>
              && (forall d :: h[i].1 == Data(Some(d)) <==> Held(h, i, k, d))
              && (h[i].1 == Data(None) <==> !Present(h, i, k))
            case Delete(k) => h[i].1 == Code(if Present(h, i, k) then 0 else -1)
            case Store(k, d, flag) =>
              && (h[i].1 == Code(1) <==> flag == DbInsert && Present(h, i, k))
              && (h[i].1 == Code(-1) <==> flag == DbReplace && !Present(h, i, k))
              && (h[i].1 == Code(0) <==> (if Present(h, i, k) then flag != DbInsert else flag != DbReplace))
  {
    var h := Returned(trace, who, n);
    hide IsRun, Returned, Replay, Held, Present;
    Linearizable(trace, who, n);
    PresentIs(h, i, h[i].0.key);
    MapIsHeld(h, i, h[i].0.key);
  }

  // ---- every call returns once ----

  // a run with the call each step brings, which only an idle process takes up
  ghost predicate WithCalls(trace: seq<State>, who: seq<nat>, calls: seq<Call>) {
    && IsRun(trace, who) && |calls| == |who|
    && forall i | 0 <= i < |who| :: who[i] in trace[i].procs && trace[i + 1] == Next(trace[i], who[i], calls[i])
  }

  // the calls p made in the first n steps
  ghost function Made(trace: seq<State>, who: seq<nat>, calls: seq<Call>, p: nat, n: nat): seq<Call>
    requires |trace| == |who| + 1 && |calls| == |who| && n <= |who|
  {
    if n == 0 then []
    else
      Made(trace, who, calls, p, n - 1)
      + if who[n - 1] == p && p in trace[n - 1].procs && trace[n - 1].procs[p].Idle? then [calls[n - 1]] else []
  }

  // those of its calls that returned
  ghost function Done(trace: seq<State>, who: seq<nat>, p: nat, n: nat): seq<Call>
    requires |trace| == |who| + 1 && n <= |who|
  {
    if n == 0 then []
    else
      Done(trace, who, p, n - 1)
      + if who[n - 1] == p && p in trace[n - 1].procs && trace[n - 1].procs[p].Unlock?
        then [trace[n - 1].procs[p].c] else []
  }

  ghost function InProgress(a: Proc): seq<Call> { if a.Idle? then [] else [a.c] }

  lemma CallKeptSearch(s: State, p: nat, a: Proc, input: Call)
    requires Searching(a)
    ensures var a' := Effect(s, p, a, input).1;
            !a'.Idle? && a'.c == if a.Idle? then input else a.c
  {
    hide Hash, SpecMap, SpecResult, RecLen, Blanked, Remove, BlankText, RecAtOff, HeadOf, ListAt, SetList, WritePtr,
         Without, DatAtOff, DataOf, AfterFreePtr, Max;
  }

  lemma CallKeptStore(s: State, p: nat, a: Proc, input: Call)
    requires !Searching(a)
    ensures var a' := Effect(s, p, a, input).1;
            if a.Unlock? then a'.Idle? else !a'.Idle? && a'.c == a.c
  {
    hide Hash, SpecMap, SpecResult, RecLen, Blanked, Remove, BlankText, RecAtOff, HeadOf, ListAt, SetList, WritePtr,
         Without, DatAtOff, DataOf, OnMissing, OnFound, AfterPtr, Max;
  }

  // an idle process takes up the call it is given; a call in progress stays the same call until it
  // returns, and only a return makes the process idle
  lemma CallKept(s: State, p: nat, a: Proc, input: Call)
    ensures var a' := Effect(s, p, a, input).1;
            if a.Unlock? then a'.Idle?
            else !a'.Idle? && a'.c == if a.Idle? then input else a.c
  {
    if Searching(a) {
      CallKeptSearch(s, p, a, input);
    } else {
      CallKeptStore(s, p, a, input);
    }
  }

  // In every run, the calls a process made are those that returned, in the same order, and at most
  // one that is still in progress.
  lemma {:induction false} ReturnsOnce(trace: seq<State>, who: seq<nat>, calls: seq<Call>, p: nat, n: nat)
    requires WithCalls(trace, who, calls) && n <= |who| && p in trace[0].procs
    ensures p in trace[n].procs
    ensures Made(trace, who, calls, p, n) == Done(trace, who, p, n) + InProgress(trace[n].procs[p])
    decreases n
  {
    hide Step;
    if n == 0 {
    } else {
      hide Init, IsRun, InProgress, Next;
      ReturnsOnce(trace, who, calls, p, n - 1);
      var s, q := trace[n - 1], who[n - 1];
      assert trace[n - 1 + 1] == Next(s, q, calls[n - 1]);
      OnceMore(s, q, calls[n - 1], p);
      hide WithCalls;
      Regroup(Done(trace, who, p, n - 1), InProgress(s.procs[p]),
              if q == p && s.procs[p].Idle? then [calls[n - 1]] else [],
              if q == p && s.procs[p].Unlock? then [s.procs[p].c] else [], InProgress(trace[n].procs[p]));
    }
  }

  lemma Regroup<T>(d: seq<T>, i: seq<T>, x: seq<T>, y: seq<T>, i': seq<T>)
    requires i + x == y + i'
    ensures d + i + x == d + y + i'
  {
    assert d + i + x == d + (i + x);
  }

  // one step more: what p has in progress was in progress or is its new call, and may return
  lemma OnceMore(s: State, q: nat, input: Call, p: nat)
    requires p in s.procs && q in s.procs
    ensures var s' := Next(s, q, input);
            && p in s'.procs
            && InProgress(s.procs[p]) + (if q == p && s.procs[p].Idle? then [input] else [])
               == (if q == p && s.procs[p].Unlock? then [s.procs[p].c] else []) + InProgress(s'.procs[p])
  {
    StepGains(s, q, input);
    CallKept(s, q, s.procs[q], input);
    hide Effect;
  }

  // every run is one with calls
  lemma {:induction false} RunHasCalls(trace: seq<State>, who: seq<nat>, n: nat) returns (calls: seq<Call>)
    requires IsRun(trace, who) && n <= |who|
    ensures |calls| == n
    ensures forall i | 0 <= i < n :: who[i] in trace[i].procs && trace[i + 1] == Next(trace[i], who[i], calls[i])
  {
    hide Next, Init;
    if n == 0 {
      calls := [];
    } else {
      calls := RunHasCalls(trace, who, n - 1);
      assert Step(trace[n - 1], who[n - 1], trace[n - 1 + 1]);
      var input :| CallOk(input) && trace[n] == Next(trace[n - 1], who[n - 1], input);
      calls := calls + [input];
    }
  }

  // ---- and it does return ----

  // how far a call is from its return, and how much of a list it still has before it
  function Phase(a: Proc): nat {
    match a
    case Idle => 0
    case Unlock(_, _) => 1
    case PutHead(_, _) => 2
    case ReadData(_, _, _, _) => 2
    case Overwrite(_, _, _, _) => 2
    case IdxUnlock(_, _) => 3
    case ReuseIdx(_, _, _, _) => 3
    case IdxWrite(_, _, _, _) => 4
    case ReuseDat(_, _, _, _) => 4
    case IdxSeek(_, _, _) => 5
    case IdxLock(_, _, _) => 6
    case DatUnlock(_, _, _) => 7
    case DatWrite(_, _, _) => 8
    case DatSeek(_, _) => 9
    case DatLock(_, _) => 10
    case AppHead(_) => 11
    case FreeUnlock(_, _, _, _, _) => 12
    case FreeTake(_, _, _, _, _, _) => 13
    case FreeWalk(_, _, _, _, _) => 14
    case FreeHead(_, _) => 15
    case FreeLock(_, _) => 16
    case NewHead(_) => 17
    case DelUnlock(_) => 18
    case DelChainPtr(_, _, _, _, _) => 19
    case DelFreePtr(_, _, _, _, _) => 20
    case DelIdx(_, _, _, _, _, _) => 21
    case DelReadFree(_, _, _, _, _) => 22
    case DelDat(_, _, _, _, _) => 23
    case DelLock(_, _, _, _, _) => 24
    case Walk(_, _, _, _) => 25
    case ReadHead(_) => 26
    case WantChain(_) => 27
  }

  function Ahead(s: State, a: Proc): int {
    match a
    case Walk(c, _, _, i) => |ListAt(s, Chain(c))| - i
    case FreeWalk(_, _, _, _, i) => |ListAt(s, 0)| - i
    case _ => 0
  }

  lemma ShortensSearch(s: State, p: nat, a: Proc, input: Call)
    requires Searching(a) && !a.Idle?
    ensures var a' := Effect(s, p, a, input).1;
            Phase(a') < Phase(a) || (a.Walk? && a'.Walk? && a'.c == a.c && a'.i == a.i + 1)
  {
    hide Hash, SpecMap, SpecResult, RecLen, Blanked, Remove, BlankText, RecAtOff, HeadOf, ListAt, SetList, WritePtr,
         Without, DatAtOff, DataOf, AfterFreePtr, Max;
  }

  lemma ShortensStore(s: State, p: nat, a: Proc, input: Call)
    requires !Searching(a)
    ensures var a' := Effect(s, p, a, input).1;
            Phase(a') < Phase(a) || (a.FreeWalk? && a'.FreeWalk? && a'.i == a.i + 1)
  {
    hide Hash, SpecMap, SpecResult, RecLen, Blanked, Remove, BlankText, RecAtOff, HeadOf, ListAt, SetList, WritePtr,
         Without, DatAtOff, DataOf, OnMissing, OnFound, AfterPtr, Max;
  }

  // every step of a call brings it nearer to its return
  lemma StepShortens(s: State, p: nat, s': State)
    requires Inv(s) && Step(s, p, s') && !s.procs[p].Idle?
    ensures Inv(s') && p in s'.procs
    ensures var a, a' := s.procs[p], s'.procs[p];
            Phase(a') < Phase(a) || (Phase(a') == Phase(a) && 0 <= Ahead(s', a') < Ahead(s, a))
    ensures s'.procs.Keys == s.procs.Keys && forall q | q in s.procs && q != p :: s'.procs[q] == s.procs[q]
  {
    hide Inv, Guar, Next, Effect, Hash;
    StepInv(s, p, s');
    GuarProcs(s, s', p);
    InvParts(s', p);
    var input :| CallOk(input) && s' == Next(s, p, input);
    StepGains(s, p, input);
    var a, a' := s.procs[p], s'.procs[p];
    hide LocalAt, Phase, Step, Searching;
    if Searching(a) { ShortensSearch(s, p, a, input); } else { ShortensStore(s, p, a, input); }
    WalkInside(s', p, a');
    if Phase(a') >= Phase(a) { WalkKeepsLists(s, p, a, input, s'); }
  }

  lemma WalkInside(s: State, p: nat, a: Proc)
    requires LocalAt(s, p, a)
    ensures Ahead(s, a) >= 0
  {
    hide Hash, Fresh, Passed, CallOk, ReadyAt, Whole;
  }

  lemma WalkKeepsLists(s: State, p: nat, a: Proc, input: Call, s': State)
    requires (a.Walk? || a.FreeWalk?) && p in s.procs && s.procs[p] == a && s' == Next(s, p, input)
    ensures s'.lists == s.lists
  {
    hide Hash, OnMissing, OnFound, AfterPtr, AfterFreePtr, RecAtOff;
  }

  // A call left alone returns after finitely many steps of its own.
  lemma {:induction false} ReturnsAlone(s: State, p: nat) returns (trace: seq<State>)
    requires Inv(s) && p in s.procs
    requires forall q | q in s.procs && q != p :: s.procs[q].Idle?
    ensures |trace| > 0 && trace[0] == s && forall i | 0 <= i < |trace| - 1 :: Step(trace[i], p, trace[i + 1])
    ensures var t := trace[|trace| - 1]; p in t.procs && t.procs[p].Idle?
    decreases Phase(s.procs[p]), Ahead(s, s.procs[p])
  {
    hide Inv, Phase, Ahead, Next, LocalAt, Base;
    InvParts(s, p);
    WalkInside(s, p, s.procs[p]);
    if s.procs[p].Idle? {
      trace := [s];
    } else {
      var s' := Next(s, p, Fetch(""));
      assert Step(s, p, s') by {
        assert CallOk(Fetch(""));
        forall q | q in s.procs && q != p ensures !Blocks(s.procs[p], s.procs[q]) { assert s.procs[q].Idle?; }
      }
      hide Step;
      StepShortens(s, p, s');
      var rest := ReturnsAlone(s', p);
      trace := [s] + rest;
      forall i | 0 <= i < |trace| - 1 ensures Step(trace[i], p, trace[i + 1]) {
        if i > 0 { assert Step(rest[i - 1], p, rest[i - 1 + 1]); }
      }
    }
  }
}
