/**
 Nothing is lost in either file, whatever the interleaving: every byte of the index file belongs to
 a record and every byte of the data file to the data of a record, or to data a process has appended
 and not yet written a record for.  So when no call is in progress the files are files of the kind
 the single-process proof is about, and a handle that opens them finds the map.
 */
module DbCover {
  import opened Common
  import opened DbCodec
  import opened DbLayout
  import opened DbProcesses
  import opened DbAtomic
  import opened DbSteps
  import opened DbRuns

  // byte x of the index file belongs to record o
  ghost predicate InRec(recs: map<nat, Rec>, o: nat, x: nat) { o in recs && o <= x < o + RecLen(recs[o]) }

  ghost predicate IdxHeld(recs: map<nat, Rec>, x: nat) { exists o :: InRec(recs, o, x) }

  // byte x of the data file belongs to the data at d
  ghost predicate InText(dat: map<nat, string>, d: nat, x: nat) { d in dat && d <= x < d + |dat[d]| + 1 }

  ghost predicate DatHeld(dat: map<nat, string>, x: nat) { exists d :: InText(dat, d, x) }

  ghost predicate HasRec(recs: map<nat, Rec>, d: nat) { exists o :: o in recs && recs[o].datoff == d }

  // the data at d has a record, or a process is about to append one
  ghost predicate Used(s: State, d: nat) {
    HasRec(s.recs, d) || exists q :: q in s.procs && Pending(s.procs[q]) == Some(d)
  }

  ghost predicate Covered(s: State) {
    && HEADER <= s.idxEnd
    && (forall o | o in s.recs :: HEADER <= o)
    && (forall x | HEADER <= x < s.idxEnd :: IdxHeld(s.recs, x))
    && (forall x | 0 <= x < s.datEnd :: DatHeld(s.dat, x))
    && (forall d | d in s.dat :: Used(s, d))
  }

  // ---- steps that rewrite in place ----

  // the same records and data, each where it was and of the length it had
  ghost predicate Same(s: State, s': State) {
    && s'.idxEnd == s.idxEnd && s'.datEnd == s.datEnd && s'.recs.Keys == s.recs.Keys && s'.dat.Keys == s.dat.Keys
    && (forall o | o in s.recs :: RecLen(s'.recs[o]) == RecLen(s.recs[o]) && s'.recs[o].datoff == s.recs[o].datoff)
    && (forall d | d in s.dat :: |s'.dat[d]| == |s.dat[d]|)
  }

  lemma SameCovered(s: State, s': State)
    requires Covered(s) && Same(s, s')
    requires forall q | q in s.procs && Pending(s.procs[q]).Some? ::
               q in s'.procs
               && Pending(s'.procs[q]) == Pending(s.procs[q])
    ensures Covered(s')
  {
    hide RecLen, Pending;
    forall x | HEADER <= x < s'.idxEnd ensures IdxHeld(s'.recs, x) {
      assert IdxHeld(s.recs, x);
      var o :| InRec(s.recs, o, x);
      assert InRec(s'.recs, o, x);
    }
    forall x | 0 <= x < s'.datEnd ensures DatHeld(s'.dat, x) {
      assert DatHeld(s.dat, x);
      var d :| InText(s.dat, d, x);
      assert InText(s'.dat, d, x);
    }
    forall d | d in s'.dat ensures Used(s', d) {
      assert Used(s, d);
      if HasRec(s.recs, d) {
        var o :| o in s.recs && s.recs[o].datoff == d;
        assert o in s'.recs && s'.recs[o].datoff == d;
      } else {
        var q :| q in s.procs && Pending(s.procs[q]) == Some(d);
        assert q in s'.procs && Pending(s'.procs[q]) == Some(d);
      }
    }
  }

  lemma SameThen(s: State, s1: State, s2: State)
    requires Same(s, s1) && Same(s1, s2)
    ensures Same(s, s2)
  {
    hide RecLen;
  }

  lemma SamePtr(s: State, at: Loc, v: nat)
    requires at.RecLoc? ==> at.o in s.recs
    ensures Same(s, WritePtr(s, at, v))
  {
    hide RecLen;
    if at.RecLoc? { PtrLen(s.recs[at.o], v); }
  }

  lemma SameList(s: State, l: nat, path: seq<nat>, o: nat, owner: nat)
    ensures Same(s, SetList(s, l, path, o, owner))
  {
    hide RecLen;
  }

  lemma SameDat(s: State, o: nat, t: string)
    requires HasData(s, o) && |t| + 1 == s.recs[o].datlen
    ensures Same(s, s.(dat := s.dat[s.recs[o].datoff := t]))
  {
    hide RecLen;
  }

  lemma SameRec(s: State, o: nat, r: Rec)
    requires o in s.recs && RecLen(r) == RecLen(s.recs[o]) && r.datoff == s.recs[o].datoff
    ensures Same(s, s.(recs := s.recs[o := r]))
  {
    hide RecLen;
  }

  // the link a search came by is in a record, or in a header
  lemma LinkInRecs(s: State, l: nat, i: nat)
    requires Shape(s, l) && i < |ListAt(s, l)|
    ensures var at := LocOf(l, ListAt(s, l), i); at.RecLoc? ==> at.o in s.recs
  {
    hide KeyFits, NoDup, Owns;
  }

  predicate IsAppending(a: Proc) { a.DatWrite? || a.IdxWrite? }

  lemma OverwriteSame(s: State, p: nat, c: Call, o: nat, r: Rec, i: nat, input: Call)
    requires LocalAt(s, p, Overwrite(c, o, r, i)) && DataOk(s)
    ensures Same(s, Effect(s, p, Overwrite(c, o, r, i), input).0)
  {
    hide Hash, RecLen, Fresh, CallOk, SpecResult, Same;
    HasDataAt(s, o);
    SameDat(s, o, DataOf(c));
  }

  lemma DelDatSame(s: State, p: nat, c: Call, at: Loc, o: nat, r: Rec, i: nat, input: Call)
    requires LocalAt(s, p, DelDat(c, at, o, r, i)) && DataOk(s)
    ensures Same(s, Effect(s, p, DelDat(c, at, o, r, i), input).0)
  {
    hide Hash, RecLen, Fresh, CallOk, SpecResult, Whole, Same, SetList, Without;
    HasDataAt(s, o);
    SameDat(s, o, BlankText(r));
    var s1 := s.(dat := s.dat[r.datoff := BlankText(r)]);
    SameList(s1, Chain(c), Without(ListAt(s, Chain(c)), i), o, Private(p));
    SameThen(s, s1, Effect(s, p, DelDat(c, at, o, r, i), input).0);
  }

  lemma DelIdxSame(s: State, p: nat, c: Call, at: Loc, o: nat, r: Rec, i: nat, free: nat, input: Call)
    requires LocalAt(s, p, DelIdx(c, at, o, r, i, free))
    ensures Same(s, Effect(s, p, DelIdx(c, at, o, r, i, free), input).0)
  {
    hide Hash, RecLen, CallOk, Bypassed, Whole, Same;
    BlankLen(r, free);
    SameRec(s, o, Blanked(r, free));
  }

  lemma DelChainPtrSame(s: State, p: nat, c: Call, at: Loc, o: nat, r: Rec, i: nat, input: Call)
    requires LocalAt(s, p, DelChainPtr(c, at, o, r, i))
    ensures Same(s, Effect(s, p, DelChainPtr(c, at, o, r, i), input).0)
  {
    hide Hash, RecLen, CallOk, SpecResult, Mapped, Absent, Linked, Whole, Same, WritePtr;
    SamePtr(s, at, r.ptr);
  }

  lemma FreeTakeSame(s: State, p: nat, c: Call, ptr: nat, at: Loc, o: nat, r: Rec, i: nat, input: Call)
    requires LocalAt(s, p, FreeTake(c, ptr, at, o, r, i)) && Shape(s, 0)
    ensures Same(s, Effect(s, p, FreeTake(c, ptr, at, o, r, i), input).0)
  {
    hide Hash, RecLen, CallOk, ReadyAt, Whole, Same, WritePtr, SetList, Without, Shape, Fits;
    LinkInRecs(s, 0, i);
    SamePtr(s, at, r.ptr);
    var s1 := WritePtr(s, at, r.ptr);
    SameList(s1, 0, Without(ListAt(s, 0), i), o, Private(p));
    SameThen(s, s1, Effect(s, p, FreeTake(c, ptr, at, o, r, i), input).0);
  }

  lemma ReuseDatSame(s: State, p: nat, c: Call, ptr: nat, o: nat, r: Rec, input: Call)
    requires LocalAt(s, p, ReuseDat(c, ptr, o, r)) && DataOk(s)
    ensures Same(s, Effect(s, p, ReuseDat(c, ptr, o, r), input).0)
  {
    hide Hash, RecLen, CallOk, ReadyAt, Same;
    HasDataAt(s, o);
    SameDat(s, o, DataOf(c));
  }

  lemma ReuseIdxSame(s: State, p: nat, c: Call, ptr: nat, o: nat, r: Rec, input: Call)
    requires LocalAt(s, p, ReuseIdx(c, ptr, o, r))
    ensures Same(s, Effect(s, p, ReuseIdx(c, ptr, o, r), input).0)
  {
    hide Hash, RecLen, CallOk, ReadyAt, Same, DbAtomic.Appended;
    var q := Rec(ptr, c.key, r.datoff, |DataOf(c)| + 1);
    SameLen(r, q);
    SameRec(s, o, q);
  }

  // pushing a record on a list writes a header and no record
  lemma PushSame(s: State, l: nat, o: nat)
    ensures Same(s, SetList(WritePtr(s, HeadLoc(l), o), l, [o] + ListAt(s, l), o, l))
  {
    hide RecLen, WritePtr, SetList, Same;
    SamePtr(s, HeadLoc(l), o);
    SameList(WritePtr(s, HeadLoc(l), o), l, [o] + ListAt(s, l), o, l);
    SameThen(s, WritePtr(s, HeadLoc(l), o), SetList(WritePtr(s, HeadLoc(l), o), l, [o] + ListAt(s, l), o, l));
  }

  lemma SameRefl(s: State, m: map<string, string>)
    ensures Same(s, s) && Same(s, s.(m := m))
  {
    hide RecLen;
  }

  lemma EffectSame(s: State, p: nat, a: Proc, input: Call)
    requires Base(s) && LocalAt(s, p, a) && !IsAppending(a)
    ensures Same(s, Effect(s, p, a, input).0)
  {
    hide Hash, Same, LocalAt, Effect, IsQuiet, Shape, Owned, DataOk, Extents;
    SameRefl(s, s.m);
    if IsQuiet(a) {
      QuietMemory(s, p, a, input);
    } else {
      WritingSame(s, p, a, input);
    }
  }

  lemma WritingSame(s: State, p: nat, a: Proc, input: Call)
    requires Base(s) && LocalAt(s, p, a) && !IsAppending(a) && !IsQuiet(a)
    ensures Same(s, Effect(s, p, a, input).0)
  {
    hide Hash, Same, LocalAt, Effect, Shape, Owned, DataOk, Extents;
    match a {
      case Overwrite(c, o, r, i) => OverwriteSame(s, p, c, o, r, i, input);
      case DelDat(c, at, o, r, i) => DelDatSame(s, p, c, at, o, r, i, input);
      case DelIdx(c, at, o, r, i, free) => DelIdxSame(s, p, c, at, o, r, i, free, input);
      case DelFreePtr(c, at, o, r, i) => PushedSame(s, p, a, input, 0, o);
      case DelChainPtr(c, at, o, r, i) => DelChainPtrSame(s, p, c, at, o, r, i, input);
      case FreeTake(c, ptr, at, o, r, i) => FreeTakeSame(s, p, c, ptr, at, o, r, i, input);
      case ReuseDat(c, ptr, o, r) => ReuseDatSame(s, p, c, ptr, o, r, input);
      case ReuseIdx(c, ptr, o, r) => ReuseIdxSame(s, p, c, ptr, o, r, input);
      case PutHead(c, o) => PushedSame(s, p, a, input, Chain(c), o);
      case Unlock(c, res) => ReturnedSame(s, p, c, res, input);
    }
  }

  lemma PushedSame(s: State, p: nat, a: Proc, input: Call, l: nat, o: nat)
    requires (a.DelFreePtr? && l == 0 && a.o == o) || (a.PutHead? && l == Chain(a.c) && a.o == o)
    ensures Same(s, Effect(s, p, a, input).0)
  {
    hide Hash, Same, SetList, WritePtr;
    PushSame(s, l, o);
  }

  lemma ReturnedSame(s: State, p: nat, c: Call, res: Result, input: Call)
    ensures Same(s, Effect(s, p, Unlock(c, res), input).0)
  {
    hide Same, SpecMap;
    SameRefl(s, SpecMap(s.m, c));
  }

  // only the step that writes the index record ends the pending of data
  lemma PendingStays(s: State, p: nat, a: Proc, input: Call)
    requires Pending(a).Some? && !a.IdxWrite?
    ensures Pending(Effect(s, p, a, input).1) == Pending(a)
  {
    hide Hash, RecLen;
  }

  // ---- appending ----

  lemma DatWriteCovered(s: State, s': State, p: nat)
    requires Covered(s) && Extents(s) && p in s.procs && Pending(s.procs[p]) == None
    requires p in s'.procs && s'.procs == s.procs[p := s'.procs[p]] && Pending(s'.procs[p]) == Some(s.datEnd)
    requires s'.recs == s.recs && s'.idxEnd == s.idxEnd
    requires s.datEnd in s'.dat && s'.dat == s.dat[s.datEnd := s'.dat[s.datEnd]]
             && s'.datEnd == s.datEnd + |s'.dat[s.datEnd]| + 1
    ensures Covered(s')
  {
    hide RecLen, Pending;
    var end := s.datEnd;
    assert end !in s.dat;
    forall x | 0 <= x < s'.datEnd ensures DatHeld(s'.dat, x) {
      if x < end {
        assert DatHeld(s.dat, x);
        var d :| InText(s.dat, d, x);
        assert InText(s'.dat, d, x);
      } else {
        assert InText(s'.dat, end, x);
      }
    }
    forall d | d in s'.dat ensures Used(s', d) {
      if d == end {
        assert p in s'.procs && Pending(s'.procs[p]) == Some(d);
      } else {
        assert Used(s, d);
        if !HasRec(s.recs, d) {
          var q :| q in s.procs && Pending(s.procs[q]) == Some(d);
          assert q in s'.procs && Pending(s'.procs[q]) == Some(d);
        }
      }
    }
  }

  lemma IdxWriteCovered(s: State, s': State, p: nat, r: Rec)
    requires Covered(s) && Extents(s) && p in s.procs && Pending(s.procs[p]) == Some(r.datoff)
    requires p in s'.procs && s'.procs == s.procs[p := s'.procs[p]]
    requires s'.recs == s.recs[s.idxEnd := r] && s'.idxEnd == s.idxEnd + RecLen(r) && s'.dat == s.dat
             && s'.datEnd == s.datEnd
    ensures Covered(s')
  {
    hide Pending, Body;
    var end := s.idxEnd;
    assert end !in s.recs;
    hide RecLen;
    forall x | HEADER <= x < s'.idxEnd ensures IdxHeld(s'.recs, x) {
      if x < end {
        assert IdxHeld(s.recs, x);
        var o :| InRec(s.recs, o, x);
        assert InRec(s'.recs, o, x);
      } else {
        assert InRec(s'.recs, end, x);
      }
    }
    forall d | d in s'.dat ensures Used(s', d) {
      assert Used(s, d);
      if HasRec(s.recs, d) {
        var o :| o in s.recs && s.recs[o].datoff == d;
        assert o in s'.recs && s'.recs[o].datoff == d;
      } else {
        var q :| q in s.procs && Pending(s.procs[q]) == Some(d);
        if q == p {
          assert end in s'.recs && s'.recs[end].datoff == d;
        } else {
          assert q in s'.procs && Pending(s'.procs[q]) == Some(d);
        }
      }
    }
  }

  lemma AppendingCovered(s: State, p: nat, input: Call)
    requires Base(s) && Covered(s) && p in s.procs && IsAppending(s.procs[p]) && LocalAt(s, p, s.procs[p])
    ensures Covered(Next(s, p, input))
  {
    hide Hash, RecLen, Covered, Extents, Shape, Owned, DataOk, ReadyAt, CallOk;
    var a, s' := s.procs[p], Next(s, p, input);
    match a {
      case DatWrite(c, ptr, d) => DatWriteCovered(s, s', p);
      case IdxWrite(c, ptr, d, o) => IdxWriteCovered(s, s', p, Rec(ptr, c.key, d, |DataOf(c)| + 1));
    }
  }

  lemma ProcsSame(s: State, s1: State, procs: map<nat, Proc>)
    requires Same(s, s1)
    ensures Same(s, s1.(procs := procs))
  {
    hide RecLen;
  }

  // no step of any process leaves a gap in either file or loses data
  lemma StepCovered(s: State, p: nat, s': State)
    requires Inv(s) && Covered(s) && Step(s, p, s')
    ensures Covered(s')
  {
    hide Hash, Inv, Covered, Base, LocalAt, Same, Effect, Pending, CallOk, Enabled, Gains;
    assert p in s.procs by { EnabledProc(s, p); }
    var input :| CallOk(input) && s' == Next(s, p, input);
    InvParts(s, p);
    var a := s.procs[p];
    if IsAppending(a) {
      AppendingCovered(s, p, input);
    } else {
      EffectSame(s, p, a, input);
      ProcsSame(s, Effect(s, p, a, input).0, s'.procs);
      StepGains(s, p, input);
      forall q | q in s.procs && Pending(s.procs[q]).Some?
        ensures q in s'.procs && Pending(s'.procs[q]) == Pending(s.procs[q]) {
        if q == p { PendingStays(s, p, a, input); }
      }
      SameCovered(s, s');
    }
  }

  lemma {:induction false} RunCovered(trace: seq<State>, who: seq<nat>, i: nat)
    requires IsRun(trace, who) && i < |trace|
    ensures Covered(trace[i])
  {
    hide Inv, Step, Covered, Init;
    if i == 0 {
      InitCovered(trace[0]);
    } else {
      RunCovered(trace, who, i - 1);
      RunInv(trace, who, i - 1);
      StepCovered(trace[i - 1], who[i - 1], trace[i]);
    }
  }

  lemma InitCovered(s: State)
    requires Init(s)
    ensures Covered(s)
  {
  }

  // ---- when no call is in progress ----

  // x is the start of a record or the end of the file, and no record runs across it
  ghost predicate Boundary(recs: map<nat, Rec>, x: nat) {
    forall o | o in recs :: o + RecLen(recs[o]) <= x || x <= o
  }

  // at a boundary before the end a record starts, and where it ends is a boundary again
  lemma NextBoundary(s: State, x: nat)
    requires Extents(s) && Covered(s) && HEADER <= x < s.idxEnd && Boundary(s.recs, x)
    ensures x in s.recs && x + RecLen(s.recs[x]) <= s.idxEnd && Boundary(s.recs, x + RecLen(s.recs[x]))
    ensures RecLen(s.recs[x]) > 0 && forall o | o in s.recs && x < o :: x + RecLen(s.recs[x]) <= o
  {
    hide Body;
    assert IdxHeld(s.recs, x);
    var p :| InRec(s.recs, p, x);
    assert p == x;
  }

  // the records from x on, in file order
  lemma {:induction false} OffsFrom(s: State, x: nat) returns (offs: seq<nat>)
    requires Extents(s) && Covered(s) && HEADER <= x <= s.idxEnd && Boundary(s.recs, x)
    ensures IdxStart(offs, 0, s.idxEnd) == x
    ensures forall i | 0 <= i < |offs| :: TileAt(offs, s.recs, s.idxEnd, i)
    ensures forall o | o in s.recs && x <= o :: o in offs
    decreases s.idxEnd - x
  {
    if x == s.idxEnd {
      offs := [];
      assert forall o | o in s.recs :: o < x;
    } else {
      hide Extents, Covered, Boundary, RecLen;
      NextBoundary(s, x);
      var rest := OffsFrom(s, x + RecLen(s.recs[x]));
      offs := [x] + rest;
      forall i | 0 <= i < |offs| ensures TileAt(offs, s.recs, s.idxEnd, i) {
        if i > 0 { assert TileAt(rest, s.recs, s.idxEnd, i - 1); }
      }
      forall o | o in s.recs && x <= o ensures o in offs {
        if o != x { assert o in rest; }
      }
    }
  }

  // sizes within the limits of the format
  ghost predicate Sized(s: State) {
    && s.idxEnd <= PTR_MAX + 1
    && forall o | o in s.recs :: IDXLEN_MIN <= |Body(s.recs[o])| <= IDXLEN_MAX && s.recs[o].datlen <= DATLEN_MAX
  }

  function CharAt(t: string, k: nat): char { if k < |t| then t[k] else NUL }

  ghost function IdxByte(heads: seq<nat>, recs: map<nat, Rec>, x: nat): char
    requires |heads| == NLISTS
  {
    if x < HEADER - 1 then CharAt(Pad(PTR_SZ, heads[x / 7]), x % 7)
    else if x == HEADER - 1 then '\n'
    else if IdxHeld(recs, x) then var o :| InRec(recs, o, x); CharAt(Enc(recs[o]), x - o)
    else NUL
  }

  ghost function DatByte(dat: map<nat, string>, x: nat): char {
    if DatHeld(dat, x) then var d :| InText(dat, d, x); CharAt(dat[d] + ['\n'], x - d) else NUL
  }

  ghost function IdxFile(heads: seq<nat>, recs: map<nat, Rec>, end: nat): (f: string)
    requires |heads| == NLISTS
    ensures |f| == end && forall x | 0 <= x < end :: f[x] == IdxByte(heads, recs, x)
  {
    seq(end, x requires 0 <= x < end => IdxByte(heads, recs, x))
  }

  ghost function DatFile(dat: map<nat, string>, end: nat): (f: string)
    ensures |f| == end && forall x | 0 <= x < end :: f[x] == DatByte(dat, x)
  {
    seq(end, x requires 0 <= x < end => DatByte(dat, x))
  }

  // t is what f holds at off
  lemma HoldsAt(f: string, off: nat, t: string)
    requires off + |t| <= |f| && forall k | off <= k < off + |t| :: f[k] == CharAt(t, k - off)
    ensures f[off..off + |t|] == t
  {
  }

  lemma HeadBytes(f: string, heads: seq<nat>, recs: map<nat, Rec>, l: nat)
    requires |heads| == NLISTS && f == IdxFile(heads, recs, |f|) && HEADER <= |f| && l < NLISTS && heads[l] <= PTR_MAX
    ensures f[HeadAt(l)..HeadAt(l) + 7] == Pad(PTR_SZ, heads[l])
  {
    hide Pad, Enc, IdxFile;
    PtrFieldFits(heads[l]);
    forall k | 7 * l <= k < 7 * l + 7 ensures f[k] == CharAt(Pad(PTR_SZ, heads[l]), k - 7 * l) {
      assert k / 7 == l && k % 7 == k - 7 * l;
    }
    HoldsAt(f, HeadAt(l), Pad(PTR_SZ, heads[l]));
  }

  lemma RecBytes(s: State, f: string, o: nat)
    requires |s.heads| == NLISTS && f == IdxFile(s.heads, s.recs, s.idxEnd)
    requires Extents(s) && o in s.recs && HEADER <= o && ValidRec(s.recs[o])
    ensures RecAt(f, o, s.recs[o])
  {
    EncLength(s.recs[o]);
    hide Pad, Enc, IdxFile, ValidRec, RecLen;
    forall k | o <= k < o + RecLen(s.recs[o]) ensures f[k] == CharAt(Enc(s.recs[o]), k - o) {
      assert InRec(s.recs, o, k);
      assert forall q | InRec(s.recs, q, k) :: q == o;
    }
    HoldsAt(f, o, Enc(s.recs[o]));
  }

  lemma DatBytes(s: State, f: string, d: nat)
    requires Extents(s) && d in s.dat && f == DatFile(s.dat, s.datEnd)
    ensures d + |s.dat[d]| + 1 <= |f| && f[d..d + |s.dat[d]| + 1] == s.dat[d] + ['\n']
  {
    hide DatFile, RecLen;
    var t := s.dat[d] + ['\n'];
    forall k | d <= k < d + |t| ensures f[k] == CharAt(t, k - d) {
      assert InText(s.dat, d, k);
      assert forall e | InText(s.dat, e, k) :: e == d;
    }
    HoldsAt(f, d, t);
  }

  lemma IdxHolds(s: State, f: string)
    requires |s.heads| == NLISTS && Extents(s) && Covered(s) && InRange(s) && f == IdxFile(s.heads, s.recs, s.idxEnd)
    ensures IdxImage(f, s.heads, s.recs)
  {
    assert HEADER <= |f| && f[HEADER - 1] == '\n';
    assert forall o | o in s.recs :: HEADER <= o;
    hide IdxFile, ValidRec, Pad, RecLen, Covered, IdxByte, RecAt, Body;
    forall l | 0 <= l < NLISTS ensures f[HeadAt(l)..HeadAt(l) + 7] == Pad(PTR_SZ, s.heads[l]) {
      HeadBytes(f, s.heads, s.recs, l);
    }
    forall o | o in s.recs ensures RecAt(f, o, s.recs[o]) { RecBytes(s, f, o); }
  }

  lemma DatHolds(s: State, text: map<nat, string>, g: string)
    requires Extents(s) && DataOk(s) && g == DatFile(s.dat, s.datEnd)
    requires text.Keys == s.recs.Keys && forall o | o in s.recs :: text[o] == DatAtOff(s, s.recs[o].datoff)
    ensures DatImage(g, s.recs, text)
  {
    hide DatFile, RecLen, Extents, DataOk;
    forall o | o in s.recs ensures DatAt(g, s.recs[o], text[o]) {
      HasDataAt(s, o);
      DatBytes(s, g, s.recs[o].datoff);
    }
    forall o, q | o in s.recs && q in s.recs && o != q
      ensures s.recs[o].datoff + s.recs[o].datlen <= s.recs[q].datoff
              || s.recs[q].datoff + s.recs[q].datlen <= s.recs[o].datoff
    {
      DataApart(s, o, q);
    }
  }

  lemma DataApart(s: State, o: nat, q: nat)
    requires Extents(s) && DataOk(s) && o in s.recs && q in s.recs && o != q
    ensures s.recs[o].datoff + s.recs[o].datlen <= s.recs[q].datoff
            || s.recs[q].datoff + s.recs[q].datlen <= s.recs[o].datoff
  {
    hide RecLen, Pending;
    assert HasData(s, o) && HasData(s, q);
  }

  // every number fits its field
  ghost predicate InRange(s: State) {
    && (forall l | 0 <= l < |s.heads| :: s.heads[l] <= PTR_MAX)
    && forall o | o in s.recs :: ValidRec(s.recs[o])
  }

  // when no call is in progress this follows from the sizes
  lemma QuiescentInRange(s: State)
    requires Sized(s) && Extents(s) && DataOk(s) && ListsOk(LayoutOf(s), {})
    ensures InRange(s)
  {
    hide Sized, Extents, DataOk, ListsOk, ValidRec;
    forall o | o in s.recs ensures ValidRec(s.recs[o]) { QuiescentRec(s, o); }
    forall l | 0 <= l < |s.heads| ensures s.heads[l] <= PTR_MAX { QuiescentHead(s, l); }
  }

  lemma QuiescentHead(s: State, l: nat)
    requires Sized(s) && Extents(s) && ListsOk(LayoutOf(s), {}) && l < |s.heads|
    ensures s.heads[l] <= PTR_MAX
  {
    hide Body, NoDup, Owns, Contents;
    assert ListOk(LayoutOf(s), l);
  }

  lemma QuiescentRec(s: State, o: nat)
    requires Sized(s) && Extents(s) && DataOk(s) && ListsOk(LayoutOf(s), {}) && o in s.recs
    ensures ValidRec(s.recs[o])
  {
    hide Hash, Body, NoDup, Owns, DataOk, Linked, Contents;
    var st := LayoutOf(s);
    HasDataAt(s, o);
    var l := st.loc[o];
    assert ListOk(st, l);
    var i :| 0 <= i < |st.lists[l]| && st.lists[l][i] == o;
    ListedRec(st, {}, l, i);
    if i + 1 < |st.lists[l]| { ListedRec(st, {}, l, i + 1); }
  }

  // two files of full length that hold the same records are the same file
  lemma IdxUnique(f: string, g: string, heads: seq<nat>, recs: map<nat, Rec>)
    requires IdxImage(f, heads, recs) && IdxImage(g, heads, recs) && |f| == |g|
    requires forall x | HEADER <= x < |f| :: IdxHeld(recs, x)
    ensures f == g
  {
    hide Pad, Enc, ValidRec, RecLen;
    forall x | 0 <= x < |f| ensures f[x] == g[x] {
      if x < HEADER - 1 {
        var l := x / 7;
        assert f[x] == f[HeadAt(l)..HeadAt(l) + 7][x % 7] && g[x] == g[HeadAt(l)..HeadAt(l) + 7][x % 7];
      } else if x >= HEADER {
        assert IdxHeld(recs, x);
        var o: nat :| InRec(recs, o, x);
        assert RecAt(f, o, recs[o]) && RecAt(g, o, recs[o]);
        assert f[x] == f[o..o + RecLen(recs[o])][x - o] && g[x] == g[o..o + RecLen(recs[o])][x - o];
      }
    }
  }

  lemma DatUnique(f: string, g: string, recs: map<nat, Rec>, text: map<nat, string>)
    requires DatImage(f, recs, text) && DatImage(g, recs, text) && |f| == |g|
    requires forall x | 0 <= x < |f| :: Held(recs, x)
    ensures f == g
  {
    forall x | 0 <= x < |f| ensures f[x] == g[x] {
      assert Held(recs, x);
      var o: nat :| InData(recs, o, x);
      var r := recs[o];
      assert DatAt(f, r, text[o]) && DatAt(g, r, text[o]);
      assert f[x] == f[r.datoff..r.datoff + r.datlen][x - r.datoff]
        && g[x] == g[r.datoff..r.datoff + r.datlen][x - r.datoff];
    }
  }

  // without a call in progress all data has a record
  lemma AllHeld(s: State, x: nat)
    requires Covered(s) && DataOk(s) && x < s.datEnd && forall p | p in s.procs :: s.procs[p].Idle?
    ensures Held(s.recs, x)
  {
    hide RecLen;
    assert DatHeld(s.dat, x);
    var d :| InText(s.dat, d, x);
    assert Used(s, d);
    var o :| o in s.recs && s.recs[o].datoff == d;
    HasDataAt(s, o);
    assert InData(s.recs, o, x);
  }

  lemma QuiescentTiles(s: State) returns (offs: seq<nat>)
    requires Extents(s) && Covered(s) && DataOk(s) && forall p | p in s.procs :: s.procs[p].Idle?
    ensures Tiles(offs, s.recs, s.idxEnd, s.datEnd)
  {
    assert Boundary(s.recs, HEADER);
    offs := OffsFrom(s, HEADER);
    hide RecLen, DataOk, Extents;
    forall i | 0 <= i < |offs| ensures offs[i] in s.recs { assert TileAt(offs, s.recs, s.idxEnd, i); }
    forall x | 0 <= x < s.datEnd ensures Held(s.recs, x) { AllHeld(s, x); }
  }

  // After any run, when no call is in progress and the files are within the limits of the format,
  // there is exactly one pair of files with these records and data, of exactly these sizes, and it is
  // a database as the single-process program keeps it, holding the map the calls have made.
  lemma QuiescentStored(trace: seq<State>, who: seq<nat>, i: nat) returns (idx: string, dat: string, st: Layout)
    requires IsRun(trace, who) && i < |trace|
    requires Sized(trace[i]) && forall p | p in trace[i].procs :: trace[i].procs[p].Idle?
    ensures Stored(idx, dat, st, trace[i].m)
    ensures |idx| == trace[i].idxEnd && |dat| == trace[i].datEnd && st.heads == trace[i].heads
            && st.recs == trace[i].recs
    ensures forall f, g | |f| == |idx| && |g| == |dat| && IdxImage(f, st.heads, st.recs)
            && DatImage(g, st.recs, st.text) ::
              f == idx && g == dat
  {
    hide IsRun, Inv, Covered, Sized, IdxImage, DatImage, Stored;
    var s := trace[i];
    RunInv(trace, who, i);
    RunCovered(trace, who, i);
    idx, dat, st := StoredFiles(s);
    forall f, g | |f| == |idx| && |g| == |dat| && IdxImage(f, st.heads, st.recs) && DatImage(g, st.recs, st.text)
      ensures f == idx && g == dat
    {
      FilesUnique(s, f, idx, g, dat, st.text);
    }
  }

  lemma QuiescentBase(s: State)
    requires Inv(s)
    ensures |s.heads| == NLISTS && Extents(s) && DataOk(s)
  {
    hide Extents, DataOk, Shape, Owned, Exclusive, LocalAt, Settled;
  }

  lemma StoredFiles(s: State) returns (idx: string, dat: string, st: Layout)
    requires Inv(s) && Covered(s) && Sized(s) && forall p | p in s.procs :: s.procs[p].Idle?
    ensures Stored(idx, dat, st, s.m) && DataOk(s)
    ensures |idx| == s.idxEnd && |dat| == s.datEnd && st.heads == s.heads && st.recs == s.recs
    ensures IdxImage(idx, s.heads, s.recs) && DatImage(dat, s.recs, st.text)
  {
    hide Inv, Covered, DataOk, Extents, Sized, IdxImage, DatImage, Tiles, Represents, ListsOk, InRange;
    QuiescentLayout(s);
    QuiescentBase(s);
    QuiescentInRange(s);
    var offs := QuiescentTiles(s);
    var st0 := LayoutOf(s);
    st := st0.(offs := offs);
    OffsIrrelevant(st0, offs);
    RepSame(st0, st, s.m);
    idx, dat := IdxFile(s.heads, s.recs, s.idxEnd), DatFile(s.dat, s.datEnd);
    IdxHolds(s, idx);
    DatHolds(s, st.text, dat);
  }

  lemma FilesUnique(s: State, f: string, f': string, g: string, g': string, text: map<nat, string>)
    requires Covered(s) && DataOk(s) && forall p | p in s.procs :: s.procs[p].Idle?
    requires |f| == |f'| == s.idxEnd && IdxImage(f, s.heads, s.recs) && IdxImage(f', s.heads, s.recs)
    requires |g| == |g'| == s.datEnd && DatImage(g, s.recs, text) && DatImage(g', s.recs, text)
    ensures f == f' && g == g'
  {
    hide DataOk, IdxImage, DatImage;
    forall x | 0 <= x < s.datEnd ensures Held(s.recs, x) { AllHeld(s, x); }
    IdxUnique(f, f', s.heads, s.recs);
    DatUnique(g, g', s.recs, text);
  }
}
