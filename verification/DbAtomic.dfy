/**
 Why the steps of DbProcesses, interleaved in any way, make each call one atomic operation on a
 plain map.  The proof is by rely and guarantee: LocalAt says what a process knows at its position,
 Guar what any step leaves alone for the others, and Stable that the second protects the first.
 Module DbSteps has the other half, that every step keeps to Guar and to the invariant.
 */
module DbAtomic {
  import opened Common
  import opened DbCodec
  import opened DbLayout
  import opened DbProcesses

  // ---- a chain against the map ----

  ghost predicate Carries(recs: map<nat, Rec>, dat: map<nat, string>, o: nat, m: map<string, string>) {
    o in recs && recs[o].key in m && recs[o].datoff in dat && m[recs[o].key] == dat[recs[o].datoff]
  }

  ghost predicate OnPath(recs: map<nat, Rec>, path: seq<nat>, k: string) {
    exists i :: 0 <= i < |path| && path[i] in recs && recs[path[i]].key == k
  }

  // the records on path are exactly m's entries for chain l
  ghost predicate ChainMap(recs: map<nat, Rec>, dat: map<nat, string>, path: seq<nat>, l: nat, m: map<string, string>) {
    && (forall i | 0 <= i < |path| :: Carries(recs, dat, path[i], m))
    && (forall k | k in m && Hash(k) + 1 == l :: OnPath(recs, path, k))
  }

  ghost predicate Absent(s: State, c: Call) {
    var path := ListAt(s, Chain(c));
    forall i | 0 <= i < |path| :: path[i] in s.recs && s.recs[path[i]].key != c.key
  }

  // ---- what is always true ----

  ghost predicate Shape(s: State, l: nat) {
    NoDup(ListAt(s, l)) && Owns(s.own, l, ListAt(s, l)) && Contents(s.recs, l, ListAt(s, l))
  }

  // the record a process works on that is on no list
  function Carried(a: Proc): Option<nat> {
    match a
    case DelReadFree(_, _, o, _, _) => Some(o)
    case DelIdx(_, _, o, _, _, _) => Some(o)
    case DelFreePtr(_, _, o, _, _) => Some(o)
    case FreeUnlock(_, _, took, o, _) => if took then Some(o) else None
    case ReuseDat(_, _, o, _) => Some(o)
    case ReuseIdx(_, _, o, _) => Some(o)
    case IdxUnlock(_, o) => Some(o)
    case PutHead(_, o) => Some(o)
    case _ => None
  }

  // a data record already appended whose index record is not
  function Pending(a: Proc): Option<nat> {
    match a
    case DatUnlock(_, _, d) => Some(d)
    case IdxLock(_, _, d) => Some(d)
    case IdxSeek(_, _, d) => Some(d)
    case IdxWrite(_, _, d, _) => Some(d)
    case _ => None
  }

  // every record is on exactly one list or in the hands of exactly one process
  ghost predicate Owned(s: State) {
    && s.own.Keys == s.recs.Keys
    && forall o | o in s.recs ::
         && 0 < o
         && (s.own[o] < NLISTS ==> o in ListAt(s, s.own[o]))
         && (s.own[o] >= NLISTS ==> s.own[o] - NLISTS in s.procs && Carried(s.procs[s.own[o] - NLISTS]) == Some(o))
  }

  ghost predicate HasData(s: State, o: nat) {
    o in s.recs && s.recs[o].datoff in s.dat && |s.dat[s.recs[o].datoff]| + 1 == s.recs[o].datlen
  }

  // no two index records share a data record, nor does an index record share one being added
  ghost predicate DataOk(s: State) {
    && (forall o | o in s.recs :: HasData(s, o))
    && (forall o, o' | o in s.recs && o' in s.recs && o != o' :: s.recs[o].datoff != s.recs[o'].datoff)
    && (forall q | q in s.procs && Pending(s.procs[q]).Some? ::
          Pending(s.procs[q]).value in s.dat && forall o | o in s.recs :: s.recs[o].datoff != Pending(s.procs[q]).value)
    && (forall q, q' | q in s.procs && q' in s.procs && q != q' && Pending(s.procs[q]).Some? ::
          Pending(s.procs[q]) != Pending(s.procs[q']))
  }

  // records lie inside their file and do not overlap
  ghost predicate Extents(s: State) {
    && HEADER <= s.idxEnd
    && (forall o | o in s.recs :: o + RecLen(s.recs[o]) <= s.idxEnd)
    && (forall o, o' | o in s.recs && o' in s.recs && o < o' :: o + RecLen(s.recs[o]) <= o')
    && (forall d | d in s.dat :: d + |s.dat[d]| + 1 <= s.datEnd)
    && (forall d, d' | d in s.dat && d' in s.dat && d < d' :: d + |s.dat[d]| + 1 <= d')
  }

  ghost predicate Base(s: State) {
    match s
    case State(heads, _, _, _, _, _, lists, _, _) =>
      && |heads| == |lists| == NLISTS
      && (forall l | 0 <= l < NLISTS :: Shape(s, l))
      && Owned(s) && DataOk(s) && Extents(s)
  }

  ghost predicate Whole(s: State, l: nat) {
    l < |s.heads| && l < |s.lists| && Linked(s.recs, s.heads[l], s.lists[l])
  }

  ghost predicate Mapped(s: State, l: nat, m: map<string, string>) {
    ChainMap(s.recs, s.dat, ListAt(s, l), l, m)
  }

  // ---- what a process knows at its position ----

  function LocOf(l: nat, path: seq<nat>, i: nat): Loc {
    if i == 0 || i > |path| then HeadLoc(l) else RecLoc(path[i - 1])
  }

  ghost predicate AtPos(s: State, l: nat, at: Loc, o: nat, i: nat) {
    i < |ListAt(s, l)| && ListAt(s, l)[i] == o && at == LocOf(l, ListAt(s, l), i)
  }

  ghost predicate Fresh(s: State, c: Call) {
    Writes(c) ==> Whole(s, Chain(c)) && Mapped(s, Chain(c), s.m)
  }

  ghost predicate Passed(s: State, c: Call, i: nat) {
    var path := ListAt(s, Chain(c));
    forall k | 0 <= k < i && k < |path| :: path[k] in s.recs && s.recs[path[k]].key != c.key
  }

  ghost predicate Hit(s: State, c: Call, o: nat, r: Rec, i: nat) {
    && Fresh(s, c) && i < |ListAt(s, Chain(c))| && ListAt(s, Chain(c))[i] == o
    && o in s.recs && s.recs[o] == r && r.key == c.key
  }

  // list l as it will be once the pointer field `at` holds `next`
  ghost predicate WholeVia(s: State, l: nat, at: Loc, next: nat) {
    && l < |s.heads| && l < |s.lists|
    && match at
       case HeadLoc(_) => Linked(s.recs, next, s.lists[l])
       case RecLoc(a) => a in s.recs && Linked(s.recs[a := s.recs[a].(ptr := next)], s.heads[l], s.lists[l])
  }

  ghost predicate Mine(s: State, p: nat, o: nat, r: Rec) {
    o in s.recs && o in s.own && s.own[o] == Private(p) && s.recs[o] == r
  }

  // the record is off its chain, and only the pointer field `at` still leads to it
  ghost predicate Bypassed(s: State, c: Call, at: Loc, r: Rec, i: nat) {
    var l := Chain(c);
    && Writes(c) && r.key == c.key && c.key in s.m && SpecResult(s.m, c) == Code(0)
    && i <= |ListAt(s, l)| && at == LocOf(l, ListAt(s, l), i)
    && WholeVia(s, l, at, r.ptr) && Mapped(s, l, s.m - {c.key}) && Absent(s, c)
  }

  // the chain has no record for the key, and a store of it is due
  ghost predicate Ready(s: State, c: Call) {
    && c.Store? && SpecResult(s.m, c) == Code(0)
    && Whole(s, Chain(c)) && Mapped(s, Chain(c), s.m - {c.key}) && Absent(s, c)
  }

  ghost predicate ReadyAt(s: State, c: Call, ptr: nat) {
    Ready(s, c) && ptr == HeadOf(s, Chain(c))
  }

  ghost predicate Fits(c: Call, r: Rec) {
    |r.key| == |c.key| && r.datlen == |DataOf(c)| + 1
  }

  ghost predicate Appended(s: State, c: Call, d: nat) {
    d in s.dat && s.dat[d] == DataOf(c)
  }

  ghost predicate Written(s: State, p: nat, c: Call, o: nat) {
    && Ready(s, c) && o in s.recs
    && Mine(s, p, o, Rec(HeadOf(s, Chain(c)), c.key, s.recs[o].datoff, |DataOf(c)| + 1))
    && Appended(s, c, s.recs[o].datoff)
  }

  ghost predicate LocalAt(s: State, p: nat, a: Proc) {
    match a
    case Idle => true
    case WantChain(c) => CallOk(c)
    case ReadHead(c) => CallOk(c) && Fresh(s, c)
    case Walk(c, at, o, i) => CallOk(c) && Fresh(s, c) && AtPos(s, Chain(c), at, o, i) && Passed(s, c, i)
    case ReadData(c, o, r, i) => c.Fetch? && Hit(s, c, o, r, i)
    case Overwrite(c, o, r, i) => CallOk(c) && c.Store? && SpecResult(s.m, c) == Code(0) && Hit(s, c, o, r, i)
      && |c.data| + 1 == r.datlen
    case DelLock(c, at, o, r, i) => CallOk(c) && Writes(c) && SpecResult(s.m, c) == Code(0) && Hit(s, c, o, r, i)
      && AtPos(s, Chain(c), at, o, i)
    case DelDat(c, at, o, r, i) => CallOk(c) && Writes(c) && SpecResult(s.m, c) == Code(0) && Hit(s, c, o, r, i)
      && AtPos(s, Chain(c), at, o, i) && Whole(s, 0)
    case DelReadFree(c, at, o, r, i) => CallOk(c) && Bypassed(s, c, at, r, i) && Mine(s, p, o, r) && Whole(s, 0)
    case DelIdx(c, at, o, r, i, free) => CallOk(c) && Bypassed(s, c, at, r, i) && Mine(s, p, o, r) && Whole(s, 0)
      && free == HeadOf(s, 0)
    case DelFreePtr(c, at, o, r, i) => CallOk(c) && Bypassed(s, c, at, r, i)
      && Mine(s, p, o, Blanked(r, HeadOf(s, 0))) && Whole(s, 0)
    case DelChainPtr(c, at, o, r, i) => CallOk(c) && Bypassed(s, c, at, r, i) && Whole(s, 0)
    case DelUnlock(c) =>
      && CallOk(c) && Writes(c) && c.key in s.m && SpecResult(s.m, c) == Code(0)
      && Whole(s, Chain(c)) && Mapped(s, Chain(c), s.m - {c.key}) && Absent(s, c) && Whole(s, 0)
    case NewHead(c) => CallOk(c) && Ready(s, c)
    case FreeLock(c, ptr) => CallOk(c) && ReadyAt(s, c, ptr)
    case FreeHead(c, ptr) => CallOk(c) && ReadyAt(s, c, ptr) && Whole(s, 0)
    case FreeWalk(c, ptr, at, o, i) => CallOk(c) && ReadyAt(s, c, ptr) && Whole(s, 0) && AtPos(s, 0, at, o, i)
    case FreeTake(c, ptr, at, o, r, i) =>
      CallOk(c) && ReadyAt(s, c, ptr) && Whole(s, 0) && AtPos(s, 0, at, o, i) && o in s.recs && s.recs[o] == r
        && Fits(c, r)
    case FreeUnlock(c, ptr, took, o, r) =>
      CallOk(c) && ReadyAt(s, c, ptr) && Whole(s, 0) && (took ==> Mine(s, p, o, r) && Fits(c, r))
    case ReuseDat(c, ptr, o, r) => CallOk(c) && ReadyAt(s, c, ptr) && Mine(s, p, o, r) && Fits(c, r)
    case ReuseIdx(c, ptr, o, r) => CallOk(c) && ReadyAt(s, c, ptr) && Mine(s, p, o, r) && Fits(c, r)
      && Appended(s, c, r.datoff)
    case AppHead(c) => CallOk(c) && Ready(s, c)
    case DatLock(c, ptr) => CallOk(c) && ReadyAt(s, c, ptr)
    case DatSeek(c, ptr) => CallOk(c) && ReadyAt(s, c, ptr)
    case DatWrite(c, ptr, d) => CallOk(c) && ReadyAt(s, c, ptr) && d == s.datEnd
    case DatUnlock(c, ptr, d) => CallOk(c) && ReadyAt(s, c, ptr) && Appended(s, c, d)
    case IdxLock(c, ptr, d) => CallOk(c) && ReadyAt(s, c, ptr) && Appended(s, c, d)
    case IdxSeek(c, ptr, d) => CallOk(c) && ReadyAt(s, c, ptr) && Appended(s, c, d)
    case IdxWrite(c, ptr, d, o) => CallOk(c) && ReadyAt(s, c, ptr) && Appended(s, c, d) && o == s.idxEnd
    case IdxUnlock(c, o) => CallOk(c) && Written(s, p, c, o)
    case PutHead(c, o) => CallOk(c) && Written(s, p, c, o)
    case Unlock(c, res) =>
      res == SpecResult(s.m, c) && (Writes(c) ==> Whole(s, Chain(c)) && Mapped(s, Chain(c), SpecMap(s.m, c)))
  }

  // a list nobody holds exclusively is linked, and a chain nobody writes represents the map
  ghost predicate Settled(s: State, l: nat) {
    (forall p | p in s.procs :: !HoldsList(s.procs[p], l)) ==> Whole(s, l) && (l > 0 ==> Mapped(s, l, s.m))
  }

  // the locks exclude each other
  ghost predicate Compatible(a: Proc, b: Proc) {
    && (InChain(a) && InChain(b) && Chain(a.c) == Chain(b.c) ==> !Writes(a.c) && !Writes(b.c))
    && !(HoldsFree(a) && HoldsFree(b)) && !(HoldsDat(a) && HoldsDat(b)) && !(HoldsIdx(a) && HoldsIdx(b))
  }

  ghost predicate Exclusive(s: State) {
    forall p, q | p in s.procs && q in s.procs && p != q :: Compatible(s.procs[p], s.procs[q])
  }

  ghost predicate Inv(s: State) {
    match s
    case State(_, _, _, _, _, procs, _, _, _) =>
      && Base(s) && Exclusive(s)
      && (forall p | p in procs :: LocalAt(s, p, procs[p]))
      && (forall l | 0 <= l < NLISTS :: Settled(s, l))
  }

  // ---- what one step of p leaves alone ----

  ghost predicate RecSame(s: State, s': State, o: nat) {
    && (o in s.recs <==> o in s'.recs)
    && (o in s.recs ==> s'.recs[o] == s.recs[o]
                        && (s.recs[o].datoff in s.dat ==>
                          s.recs[o].datoff in s'.dat
                          && s'.dat[s.recs[o].datoff] == s.dat[s.recs[o].datoff]))
  }

  ghost predicate ListSame(s: State, s': State, l: nat) {
    && |s'.lists| == |s.lists| && |s'.heads| == |s.heads|
    && ListAt(s', l) == ListAt(s, l) && HeadOf(s', l) == HeadOf(s, l)
    && forall i | 0 <= i < |ListAt(s, l)| :: RecSame(s, s', ListAt(s, l)[i])
  }

  ghost predicate MapSame(m: map<string, string>, m': map<string, string>, l: nat) {
    forall k | Hash(k) + 1 == l :: (k in m <==> k in m') && (k in m ==> m[k] == m'[k])
  }

  ghost predicate OwnSame(s: State, s': State, o: nat) {
    o in s.own ==> o in s'.own && s'.own[o] == s.own[o] && RecSame(s, s', o)
  }

  ghost predicate Guar(s: State, s': State, p: nat) {
    && p in s.procs && s'.procs.Keys == s.procs.Keys && (forall q | q in s.procs && q != p :: s'.procs[q] == s.procs[q])
    && (forall l | 0 <= l < NLISTS && !HoldsList(s.procs[p], l) :: ListSame(s, s', l) && MapSame(s.m, s'.m, l))
    && (forall o | o in s.own && s.own[o] >= NLISTS && s.own[o] != Private(p) :: OwnSame(s, s', o))
    && (forall q | q in s.procs && q != p && Pending(s.procs[q]).Some? ::
          var d := Pending(s.procs[q]).value; d in s.dat ==> d in s'.dat && s'.dat[d] == s.dat[d])
    && (!HoldsDat(s.procs[p]) ==> s'.datEnd == s.datEnd)
    && (!HoldsIdx(s.procs[p]) ==> s'.idxEnd == s.idxEnd)
  }

  // ---- what others know survives a step ----

  lemma WholeSame(s: State, s': State, l: nat)
    requires ListSame(s, s', l) && Whole(s, l)
    ensures Whole(s', l)
  {
    var path := s.lists[l];
    assert s'.lists[l] == path && s'.heads[l] == s.heads[l];
    forall i | 0 <= i < |path| ensures path[i] in s'.recs && s'.recs[path[i]] == s.recs[path[i]] {
      assert RecSame(s, s', ListAt(s, l)[i]);
    }
  }

  lemma WholeViaSame(s: State, s': State, l: nat, at: Loc, next: nat, i: nat)
    requires ListSame(s, s', l) && WholeVia(s, l, at, next)
    requires i <= |ListAt(s, l)| && at == LocOf(l, ListAt(s, l), i)
    ensures WholeVia(s', l, at, next)
  {
    var path := s.lists[l];
    assert s'.lists[l] == path && s'.heads[l] == s.heads[l];
    forall k | 0 <= k < |path|
      ensures (path[k] in s.recs <==> path[k] in s'.recs) && (path[k] in s.recs ==> s'.recs[path[k]] == s.recs[path[k]])
    {
      assert RecSame(s, s', ListAt(s, l)[k]);
    }
  }

  lemma MappedSame(s: State, s': State, l: nat, m: map<string, string>, m': map<string, string>)
    requires ListSame(s, s', l) && MapSame(m, m', l) && Mapped(s, l, m) && Shape(s, l) && l > 0
    ensures Mapped(s', l, m')
  {
    hide Hash, KeyText;
    var path := ListAt(s, l);
    forall i | 0 <= i < |path| ensures Carries(s'.recs, s'.dat, path[i], m')
      && s'.recs[path[i]].key == s.recs[path[i]].key {
      assert RecSame(s, s', path[i]) && Carries(s.recs, s.dat, path[i], m);
      assert KeyFits(s.recs[path[i]].key, l);
    }
    forall k | k in m' && Hash(k) + 1 == l ensures OnPath(s'.recs, path, k) {
      assert OnPath(s.recs, path, k);
      var i :| 0 <= i < |path| && path[i] in s.recs && s.recs[path[i]].key == k;
      assert Carries(s'.recs, s'.dat, path[i], m');
    }
  }

  lemma AbsentSame(s: State, s': State, c: Call)
    requires ListSame(s, s', Chain(c)) && Absent(s, c)
    ensures Absent(s', c)
  {
    hide Hash;
    var path := ListAt(s, Chain(c));
    forall i | 0 <= i < |path| ensures path[i] in s'.recs && s'.recs[path[i]].key != c.key {
      assert RecSame(s, s', path[i]);
    }
  }

  lemma PassedSame(s: State, s': State, c: Call, i: nat)
    requires ListSame(s, s', Chain(c)) && Passed(s, c, i)
    ensures Passed(s', c, i)
  {
    hide Hash;
    var path := ListAt(s, Chain(c));
    forall k | 0 <= k < i && k < |path| ensures path[k] in s'.recs && s'.recs[path[k]].key != c.key {
      assert RecSame(s, s', path[k]);
    }
  }

  lemma ResultSame(m: map<string, string>, m': map<string, string>, c: Call)
    requires MapSame(m, m', Chain(c))
    ensures SpecResult(m', c) == SpecResult(m, c)
    ensures MapSame(m - {c.key}, m' - {c.key}, Chain(c)) && MapSame(SpecMap(m, c), SpecMap(m', c), Chain(c))
    ensures c.key in m <==> c.key in m'
  {
    hide Hash;
  }

  lemma FreshSame(s: State, s': State, c: Call)
    requires ListSame(s, s', Chain(c)) && MapSame(s.m, s'.m, Chain(c)) && Shape(s, Chain(c)) && Fresh(s, c)
    ensures Fresh(s', c)
  {
    hide Hash, Whole, Mapped, ListSame, MapSame;
    if Writes(c) {
      WholeSame(s, s', Chain(c));
      MappedSame(s, s', Chain(c), s.m, s'.m);
    }
  }

  lemma HitSame(s: State, s': State, c: Call, o: nat, r: Rec, i: nat)
    requires ListSame(s, s', Chain(c)) && MapSame(s.m, s'.m, Chain(c)) && Shape(s, Chain(c)) && Hit(s, c, o, r, i)
    ensures Hit(s', c, o, r, i)
  {
    hide Hash, Fresh, Shape, MapSame;
    FreshSame(s, s', c);
    assert RecSame(s, s', ListAt(s, Chain(c))[i]);
  }

  lemma BypassedSame(s: State, s': State, c: Call, at: Loc, r: Rec, i: nat)
    requires ListSame(s, s', Chain(c)) && MapSame(s.m, s'.m, Chain(c)) && Shape(s, Chain(c)) && Bypassed(s, c, at, r, i)
    ensures Bypassed(s', c, at, r, i)
  {
    hide Hash, WholeVia, Mapped, MapSame, Absent, SpecResult, SpecMap;
    ResultSame(s.m, s'.m, c);
    WholeViaSame(s, s', Chain(c), at, r.ptr, i);
    MappedSame(s, s', Chain(c), s.m - {c.key}, s'.m - {c.key});
    AbsentSame(s, s', c);
  }

  lemma ReadySame(s: State, s': State, c: Call)
    requires ListSame(s, s', Chain(c)) && MapSame(s.m, s'.m, Chain(c)) && Shape(s, Chain(c)) && Ready(s, c)
    ensures Ready(s', c)
  {
    hide Hash, Whole, Mapped, MapSame, Absent, SpecResult, SpecMap, ListSame;
    ResultSame(s.m, s'.m, c);
    WholeSame(s, s', Chain(c));
    MappedSame(s, s', Chain(c), s.m - {c.key}, s'.m - {c.key});
    AbsentSame(s, s', c);
  }

  lemma WrittenSame(s: State, s': State, q: nat, c: Call, o: nat)
    requires ListSame(s, s', Chain(c)) && MapSame(s.m, s'.m, Chain(c)) && Shape(s, Chain(c)) && Written(s, q, c, o)
    requires OwnSame(s, s', o)
    ensures Written(s', q, c, o)
  {
    hide Hash, Ready, MapSame, Shape, Mapped, Whole;
    ReadySame(s, s', c);
  }

  // the lists p must leave alone because q's locks exclude p's
  lemma Protected(s: State, s': State, p: nat, q: nat)
    requires Guar(s, s', p) && q in s.procs && p != q && Compatible(s.procs[p], s.procs[q])
    ensures InChain(s.procs[q]) ==> ListSame(s, s', Chain(s.procs[q].c)) && MapSame(s.m, s'.m, Chain(s.procs[q].c))
    ensures HoldsFree(s.procs[q]) ==> ListSame(s, s', 0)
  {
    hide Hash, ListSame, MapSame;
  }

  // what a process at position a relies on is the same in s and s'
  ghost predicate Undisturbed(s: State, s': State, a: Proc) {
    && (InChain(a) ==> ListSame(s, s', Chain(a.c)) && MapSame(s.m, s'.m, Chain(a.c)) && Shape(s, Chain(a.c)))
    && (HoldsFree(a) ==> ListSame(s, s', 0))
    && (Carried(a).Some? ==> OwnSame(s, s', Carried(a).value))
    && (Pending(a).Some? ==> var d := Pending(a).value; d in s.dat ==> d in s'.dat && s'.dat[d] == s.dat[d])
    && (HoldsDat(a) ==> s'.datEnd == s.datEnd)
    && (HoldsIdx(a) ==> s'.idxEnd == s.idxEnd)
  }

  lemma MineKept(s: State, s': State, q: nat, o: nat, r: Rec)
    requires OwnSame(s, s', o) && Mine(s, q, o, r)
    ensures Mine(s', q, o, r)
    ensures r.datoff in s.dat ==> r.datoff in s'.dat && s'.dat[r.datoff] == s.dat[r.datoff]
  {
  }

  predicate Searching(a: Proc) {
    a.Idle? || a.WantChain? || a.ReadHead? || a.Walk? || a.ReadData? || a.Overwrite? || a.DelLock? || a.DelDat?
    || a.DelReadFree? || a.DelIdx? || a.DelFreePtr? || a.DelChainPtr? || a.DelUnlock?
  }

  // the deleting positions of a search
  predicate Deleting(a: Proc) {
    a.DelDat? || a.DelReadFree? || a.DelIdx? || a.DelFreePtr? || a.DelChainPtr? || a.DelUnlock?
  }

  predicate OnFreeList(a: Proc) { a.FreeHead? || a.FreeWalk? || a.FreeTake? || a.FreeUnlock? }

  lemma LocalSameSearch(s: State, s': State, q: nat, a: Proc)
    requires Undisturbed(s, s', a) && LocalAt(s, q, a) && Searching(a) && !Deleting(a)
    ensures LocalAt(s', q, a)
  {
    hide Hash, ListSame, MapSame, Whole, Mapped, SpecResult, SpecMap, Bypassed, Ready, Absent, Hit, Fresh, Shape,
         Passed, Written, CallOk, Fits, Blanked, Mine, OwnSame;
    if InChain(a) {
      ListSameParts(s, s', Chain(a.c));
      ResultSame(s.m, s'.m, a.c);
    }
    match a {
      case Idle =>
      case WantChain(c) =>
      case ReadHead(c) => FreshSame(s, s', c);
      case Walk(c, at, o, i) => FreshSame(s, s', c); PassedSame(s, s', c, i);
      case ReadData(c, o, r, i) => HitSame(s, s', c, o, r, i);
      case Overwrite(c, o, r, i) => HitSame(s, s', c, o, r, i);
      case DelLock(c, at, o, r, i) => HitSame(s, s', c, o, r, i);
    }
  }

  lemma LocalSameDelete(s: State, s': State, q: nat, a: Proc)
    requires Undisturbed(s, s', a) && LocalAt(s, q, a) && Deleting(a)
    ensures LocalAt(s', q, a)
  {
    hide Hash, ListSame, MapSame, Whole, Mapped, SpecResult, SpecMap, Bypassed, Ready, Absent, Hit, Fresh, Shape,
         Passed, Written, CallOk, Fits, Blanked, Mine, OwnSame;
    ListSameParts(s, s', 0);
    WholeSame(s, s', 0);
    ListSameParts(s, s', Chain(a.c));
    ResultSame(s.m, s'.m, a.c);
    match a {
      case DelDat(c, at, o, r, i) => HitSame(s, s', c, o, r, i);
      case DelReadFree(c, at, o, r, i) => BypassedSame(s, s', c, at, r, i); MineKept(s, s', q, o, r);
      case DelIdx(c, at, o, r, i, free) => BypassedSame(s, s', c, at, r, i); MineKept(s, s', q, o, r);
      case DelFreePtr(c, at, o, r, i) => BypassedSame(s, s', c, at, r, i);
        MineKept(s, s', q, o, Blanked(r, HeadOf(s, 0)));
      case DelChainPtr(c, at, o, r, i) => BypassedSame(s, s', c, at, r, i);
      case DelUnlock(c) =>
        WholeSame(s, s', Chain(c)); AbsentSame(s, s', c);
        MappedSame(s, s', Chain(c), s.m - {c.key}, s'.m - {c.key});
    }
  }

  lemma LocalSameFree(s: State, s': State, q: nat, a: Proc)
    requires Undisturbed(s, s', a) && LocalAt(s, q, a) && OnFreeList(a)
    ensures LocalAt(s', q, a)
  {
    hide Hash, ListSame, MapSame, Whole, Mapped, SpecResult, SpecMap, Bypassed, Ready, Absent, Hit, Fresh, Shape,
         Passed, Written, CallOk, Fits, Blanked, Mine, OwnSame;
    ListSameParts(s, s', 0);
    WholeSame(s, s', 0);
    ListSameParts(s, s', Chain(a.c));
    ReadySame(s, s', a.c);
    match a {
      case FreeTake(c, ptr, at, o, r, i) => assert RecSame(s, s', o) by { ListSameAt(s, s', 0, i); }
      case FreeUnlock(c, ptr, took, o, r) => if took { MineKept(s, s', q, o, r); }
      case _ =>
    }
  }

  lemma LocalSameStore(s: State, s': State, q: nat, a: Proc)
    requires Undisturbed(s, s', a) && LocalAt(s, q, a) && !Searching(a) && !OnFreeList(a)
    ensures LocalAt(s', q, a)
  {
    hide Hash, ListSame, MapSame, Whole, Mapped, SpecResult, SpecMap, Bypassed, Ready, Absent, Hit, Fresh, Shape,
         Passed, Written, CallOk, Fits, Blanked, Mine, OwnSame;
    ListSameParts(s, s', Chain(a.c));
    if !a.IdxUnlock? && !a.PutHead? && !a.Unlock? { ReadySame(s, s', a.c); }
    match a {
      case ReuseDat(c, ptr, o, r) => MineKept(s, s', q, o, r);
      case ReuseIdx(c, ptr, o, r) => MineKept(s, s', q, o, r);
      case IdxUnlock(c, o) => WrittenSame(s, s', q, c, o);
      case PutHead(c, o) => WrittenSame(s, s', q, c, o);
      case Unlock(c, res) =>
        ResultSame(s.m, s'.m, c);
        if Writes(c) {
          WholeSame(s, s', Chain(c));
          MappedSame(s, s', Chain(c), SpecMap(s.m, c), SpecMap(s'.m, c));
        }
      case _ =>
    }
  }

  lemma LocalSame(s: State, s': State, q: nat, a: Proc)
    requires Undisturbed(s, s', a) && LocalAt(s, q, a)
    ensures LocalAt(s', q, a)
  {
    hide Hash, Undisturbed, LocalAt, Searching, Deleting, OnFreeList;
    if Deleting(a) { LocalSameDelete(s, s', q, a); }
    else if Searching(a) { LocalSameSearch(s, s', q, a); }
    else if OnFreeList(a) { LocalSameFree(s, s', q, a); }
    else { LocalSameStore(s, s', q, a); }
  }

  lemma BaseShape(s: State, l: nat)
    requires Base(s) && l < NLISTS
    ensures Shape(s, l) && |s.lists| == |s.heads| == NLISTS && Owned(s) && DataOk(s) && Extents(s)
  {
  }

  // rely and guarantee: no step of p changes what q relies on
  lemma Stable(s: State, s': State, p: nat, q: nat)
    requires Base(s) && Guar(s, s', p) && q in s.procs && p != q && Compatible(s.procs[p], s.procs[q])
    requires LocalAt(s, q, s.procs[q])
    ensures LocalAt(s', q, s'.procs[q])
  {
    hide Hash, ListSame, MapSame, LocalAt, Base, OwnSame, Shape;
    var a := s.procs[q];
    Protected(s, s', p, q);
    if InChain(a) { BaseShape(s, Chain(a.c)); }
    if Carried(a).Some? { assert OwnSame(s, s', Carried(a).value) by { CarriedOwn(s, s', p, q); } }
    LocalSame(s, s', q, a);
  }

  // what process q carries is q's own
  lemma CarriedOwn(s: State, s': State, p: nat, q: nat)
    requires Guar(s, s', p) && q in s.procs && p != q && LocalAt(s, q, s.procs[q]) && Carried(s.procs[q]).Some?
    ensures OwnSame(s, s', Carried(s.procs[q]).value)
  {
    hide Hash, ListSame, MapSame, Whole, Mapped, SpecResult, SpecMap, Bypassed, Ready, CallOk, Fits, Blanked;
  }

  lemma ListSameParts(s: State, s': State, l: nat)
    requires ListSame(s, s', l)
    ensures ListAt(s', l) == ListAt(s, l) && HeadOf(s', l) == HeadOf(s, l)
  {
  }

  lemma ListSameAt(s: State, s': State, l: nat, i: nat)
    requires ListSame(s, s', l) && i < |ListAt(s, l)|
    ensures RecSame(s, s', ListAt(s, l)[i])
  {
  }
}
