/**
 Several processes sharing one database, as a step machine.  One step is one lock call, one
 seek, or one read or write of a pointer field, an index record or a data record; between two
 steps of a process any other process may take any number of steps.  The position of a process
 in the program records the locks it holds: each is held from the step after the lock call up
 to and including the unlock step.
 */
module DbProcesses {
  import opened Common
  import opened DbCodec
  import opened DbLayout

  datatype Flag = DbInsert | DbReplace | DbStore

  datatype Call =
    | Fetch(key: string)
    | Delete(key: string)
    | Store(key: string, data: string, flag: Flag)

  datatype Result = Data(data: Option<string>) | Code(rc: int)

  // ---- what one call does to a plain map, at one instant ----

  function SpecMap(m: map<string, string>, c: Call): map<string, string> {
    match c
    case Fetch(_) => m
    case Delete(key) => m - {key}
    case Store(key, data, flag) => if SpecResult(m, c) == Code(0) then m[key := data] else m
  }

  function SpecResult(m: map<string, string>, c: Call): Result {
    match c
    case Fetch(key) => Data(if key in m then Some(m[key]) else None)
    case Delete(key) => Code(if key in m then 0 else -1)
    case Store(key, _, flag) =>
      if key in m then Code(if flag == DbInsert then 1 else 0)
      else Code(if flag == DbReplace then -1 else 0)
  }

  // ---- program positions, with the variables live there ----

  // where a pointer field is: the head of a list or the front of a record
  datatype Loc = HeadLoc(l: nat) | RecLoc(o: nat)

  // `i` is the position of a record on its list; it plays no part in any decision
  datatype Proc =
    | Idle
    // _db_find_and_lock
    | WantChain(c: Call)
    | ReadHead(c: Call)
    | Walk(c: Call, at: Loc, o: nat, i: nat)
    // db_fetch and db_store on the record found
    | ReadData(c: Call, o: nat, r: Rec, i: nat)
    | Overwrite(c: Call, o: nat, r: Rec, i: nat)
    // _db_dodelete
    | DelLock(c: Call, at: Loc, o: nat, r: Rec, i: nat)
    | DelDat(c: Call, at: Loc, o: nat, r: Rec, i: nat)
    | DelReadFree(c: Call, at: Loc, o: nat, r: Rec, i: nat)
    | DelIdx(c: Call, at: Loc, o: nat, r: Rec, i: nat, free: nat)
    | DelFreePtr(c: Call, at: Loc, o: nat, r: Rec, i: nat)
    | DelChainPtr(c: Call, at: Loc, o: nat, r: Rec, i: nat)
    | DelUnlock(c: Call)
    // db_store of a new key, _db_findfree, reuse
    | NewHead(c: Call)
    | FreeLock(c: Call, ptr: nat)
    | FreeHead(c: Call, ptr: nat)
    | FreeWalk(c: Call, ptr: nat, at: Loc, o: nat, i: nat)
    | FreeTake(c: Call, ptr: nat, at: Loc, o: nat, r: Rec, i: nat)
    | FreeUnlock(c: Call, ptr: nat, took: bool, o: nat, r: Rec)
    | ReuseDat(c: Call, ptr: nat, o: nat, r: Rec)
    | ReuseIdx(c: Call, ptr: nat, o: nat, r: Rec)
    // append
    | AppHead(c: Call)
    | DatLock(c: Call, ptr: nat)
    | DatSeek(c: Call, ptr: nat)
    | DatWrite(c: Call, ptr: nat, doff: nat)
    | DatUnlock(c: Call, ptr: nat, doff: nat)
    | IdxLock(c: Call, ptr: nat, doff: nat)
    | IdxSeek(c: Call, ptr: nat, doff: nat)
    | IdxWrite(c: Call, ptr: nat, doff: nat, o: nat)
    | IdxUnlock(c: Call, o: nat)
    // the last write and the final unlock
    | PutHead(c: Call, o: nat)
    | Unlock(c: Call, res: Result)

  datatype State = State(
    heads: seq<nat>,          // header pointers of the index file
    recs: map<nat, Rec>,      // index records by offset
    dat: map<nat, string>,    // data records by offset
    idxEnd: nat,              // sizes of the two files
    datEnd: nat,
    procs: map<nat, Proc>,
    // auxiliary: no step reads these to decide anything
    lists: seq<seq<nat>>,     // the records of each list
    own: map<nat, nat>,       // the list a record is on, or NLISTS + p while process p works on it
    m: map<string, string>)   // the plain map: changed only when a call returns

  function Chain(c: Call): (l: nat)
    ensures 0 < l < NLISTS
  {
    Hash(c.key) + 1
  }

  predicate Writes(c: Call) { !c.Fetch? }

  // ---- locks held ----

  predicate InChain(a: Proc) { !a.Idle? && !a.WantChain? }

  predicate HoldsFree(a: Proc) {
    a.DelDat? || a.DelReadFree? || a.DelIdx? || a.DelFreePtr? || a.DelChainPtr? || a.DelUnlock?
    || a.FreeHead? || a.FreeWalk? || a.FreeTake? || a.FreeUnlock?
  }

  predicate HoldsDat(a: Proc) { a.DatSeek? || a.DatWrite? || a.DatUnlock? }

  predicate HoldsIdx(a: Proc) { a.IdxSeek? || a.IdxWrite? || a.IdxUnlock? }

  // a holds list l exclusively: a chain by its write lock, list 0 by the free-list lock
  predicate HoldsList(a: Proc, l: nat) {
    if l == 0 then HoldsFree(a) else InChain(a) && Chain(a.c) == l && Writes(a.c)
  }

  predicate ReadsChain(a: Proc, l: nat) { InChain(a) && Chain(a.c) == l }

  // ---- one step ----

  // a is stopped by a lock that b holds
  predicate Blocks(a: Proc, b: Proc) {
    match a
    case WantChain(c) => if Writes(c) then ReadsChain(b, Chain(c)) else HoldsList(b, Chain(c))
    case DelLock(_, _, _, _, _) => HoldsFree(b)
    case FreeLock(_, _) => HoldsFree(b)
    case DatLock(_, _) => HoldsDat(b)
    case IdxLock(_, _, _) => HoldsIdx(b)
    case _ => false
  }

  predicate Enabled(s: State, p: nat) {
    p in s.procs && forall q | q in s.procs && q != p :: !Blocks(s.procs[p], s.procs[q])
  }

  function RecAtOff(s: State, o: nat): Rec {
    if o in s.recs then s.recs[o] else Rec(0, "", 0, 0)
  }

  function HeadOf(s: State, l: nat): nat { if l < |s.heads| then s.heads[l] else 0 }

  function DatAtOff(s: State, d: nat): string { if d in s.dat then s.dat[d] else "" }

  function WritePtr(s: State, at: Loc, v: nat): State {
    match at
    case HeadLoc(l) => if l < |s.heads| then s.(heads := s.heads[l := v]) else s
    case RecLoc(o) => s.(recs := s.recs[o := RecAtOff(s, o).(ptr := v)])
  }

  function OnMissing(c: Call): Proc {
    match c
    case Fetch(_) => Unlock(c, Data(None))
    case Delete(_) => Unlock(c, Code(-1))
    case Store(_, _, flag) => if flag == DbReplace then Unlock(c, Code(-1)) else NewHead(c)
  }

  function OnFound(c: Call, at: Loc, o: nat, r: Rec, i: nat): Proc {
    match c
    case Fetch(_) => ReadData(c, o, r, i)
    case Delete(_) => DelLock(c, at, o, r, i)
    case Store(_, data, flag) =>
      if flag == DbInsert then Unlock(c, Code(1))
      else if |data| + 1 == r.datlen then Overwrite(c, o, r, i)
      else DelLock(c, at, o, r, i)
  }

  function AfterPtr(c: Call, at: Loc, o: nat, i: nat): Proc {
    if o == 0 then OnMissing(c) else Walk(c, at, o, i)
  }

  function AfterFreePtr(c: Call, ptr: nat, at: Loc, o: nat, i: nat): Proc {
    if o == 0 then FreeUnlock(c, ptr, false, 0, Rec(0, "", 0, 0)) else FreeWalk(c, ptr, at, o, i)
  }

  function DataOf(c: Call): string { if c.Store? then c.data else "" }

  function SetList(s: State, l: nat, path: seq<nat>, o: nat, owner: nat): State {
    if l < |s.lists| then s.(lists := s.lists[l := path], own := s.own[o := owner]) else s
  }

  function ListAt(s: State, l: nat): seq<nat> { if l < |s.lists| then s.lists[l] else [] }

  function Without(path: seq<nat>, i: nat): seq<nat> { if i < |path| then Remove(path, i) else path }

  function Private(p: nat): nat { NLISTS + p }

  // the state after the step of the process at position a; `input` is the call an idle process makes
  function Effect(s: State, p: nat, a: Proc, input: Call): (State, Proc) {
    match a
    case Idle => (s, WantChain(input))
    case WantChain(c) => (s, ReadHead(c))
    case ReadHead(c) => (s, AfterPtr(c, HeadLoc(Chain(c)), HeadOf(s, Chain(c)), 0))
    case Walk(c, at, o, i) =>
      var r := RecAtOff(s, o);
      (s, if r.key == c.key then OnFound(c, at, o, r, i) else AfterPtr(c, RecLoc(o), r.ptr, i + 1))
    case ReadData(c, o, r, i) => (s, Unlock(c, Data(Some(DatAtOff(s, r.datoff)))))
    case Overwrite(c, o, r, i) => (s.(dat := s.dat[r.datoff := DataOf(c)]), Unlock(c, Code(0)))
    case DelLock(c, at, o, r, i) => (s, DelDat(c, at, o, r, i))
    case DelDat(c, at, o, r, i) =>
      (SetList(s.(dat := s.dat[r.datoff := BlankText(r)]), Chain(c), Without(ListAt(s, Chain(c)), i), o, Private(p)),
       DelReadFree(c, at, o, r, i))
    case DelReadFree(c, at, o, r, i) => (s, DelIdx(c, at, o, r, i, HeadOf(s, 0)))
    case DelIdx(c, at, o, r, i, free) => (s.(recs := s.recs[o := Blanked(r, free)]), DelFreePtr(c, at, o, r, i))
    case DelFreePtr(c, at, o, r, i) =>
      (SetList(WritePtr(s, HeadLoc(0), o), 0, [o] + ListAt(s, 0), o, 0), DelChainPtr(c, at, o, r, i))
    case DelChainPtr(c, at, o, r, i) => (WritePtr(s, at, r.ptr), DelUnlock(c))
    case DelUnlock(c) => (s, if c.Store? then AppHead(c) else Unlock(c, Code(0)))
    case NewHead(c) => (s, FreeLock(c, HeadOf(s, Chain(c))))
    case FreeLock(c, ptr) => (s, FreeHead(c, ptr))
    case FreeHead(c, ptr) => (s, AfterFreePtr(c, ptr, HeadLoc(0), HeadOf(s, 0), 0))
    case FreeWalk(c, ptr, at, o, i) =>
      var r := RecAtOff(s, o);
      (s, if |r.key| == |c.key| && r.datlen == |DataOf(c)| + 1 then FreeTake(c, ptr, at, o, r, i)
          else AfterFreePtr(c, ptr, RecLoc(o), r.ptr, i + 1))
    case FreeTake(c, ptr, at, o, r, i) =>
      (SetList(WritePtr(s, at, r.ptr), 0, Without(ListAt(s, 0), i), o, Private(p)), FreeUnlock(c, ptr, true, o, r))
    case FreeUnlock(c, ptr, took, o, r) => (s, if took then ReuseDat(c, ptr, o, r) else DatLock(c, ptr))
    case ReuseDat(c, ptr, o, r) => (s.(dat := s.dat[r.datoff := DataOf(c)]), ReuseIdx(c, ptr, o, r))
    case ReuseIdx(c, ptr, o, r) =>
      (s.(recs := s.recs[o := Rec(ptr, c.key, r.datoff, |DataOf(c)| + 1)]), PutHead(c, o))
    case AppHead(c) => (s, DatLock(c, HeadOf(s, Chain(c))))
    case DatLock(c, ptr) => (s, DatSeek(c, ptr))
    case DatSeek(c, ptr) => (s, DatWrite(c, ptr, s.datEnd))
    case DatWrite(c, ptr, doff) =>
      (s.(dat := s.dat[doff := DataOf(c)], datEnd := Max(s.datEnd, doff + |DataOf(c)| + 1)), DatUnlock(c, ptr, doff))
    case DatUnlock(c, ptr, doff) => (s, IdxLock(c, ptr, doff))
    case IdxLock(c, ptr, doff) => (s, IdxSeek(c, ptr, doff))
    case IdxSeek(c, ptr, doff) => (s, IdxWrite(c, ptr, doff, s.idxEnd))
    case IdxWrite(c, ptr, doff, o) =>
      var r := Rec(ptr, c.key, doff, |DataOf(c)| + 1);
      (s.(recs := s.recs[o := r], idxEnd := Max(s.idxEnd, o + RecLen(r)), own := s.own[o := Private(p)]),
        IdxUnlock(c, o))
    case IdxUnlock(c, o) => (s, PutHead(c, o))
    case PutHead(c, o) =>
      (SetList(WritePtr(s, HeadLoc(Chain(c)), o), Chain(c), [o] + ListAt(s, Chain(c)), o, Chain(c)), Unlock(c, Code(0)))
    case Unlock(c, _) => (s.(m := SpecMap(s.m, c)), Idle)
  }

  function Max(a: nat, b: nat): nat { if a < b then b else a }

  function Next(s: State, p: nat, input: Call): State
    requires p in s.procs
  {
    var (s', a') := Effect(s, p, s.procs[p], input);
    s'.(procs := s.procs[p := a'])
  }

  ghost predicate CallOk(c: Call) { c.Store? ==> KeyText(c.key) }

  ghost predicate Step(s: State, p: nat, s': State) {
    Enabled(s, p) && exists input :: CallOk(input) && s' == Next(s, p, input)
  }

  // an empty database and any number of idle processes
  ghost predicate Init(s: State) {
    && s.heads == seq(NLISTS, _ => 0) && s.recs == map[] && s.dat == map[]
    && s.idxEnd == HEADER && s.datEnd == 0
    && (forall p | p in s.procs :: s.procs[p] == Idle)
    && s.lists == seq(NLISTS, _ => []) && s.own == map[] && s.m == map[]
  }
}
