/**
 The two files as a linked structure.  The index file is a header of 138 pointer fields
 (list 0 is the free list, list 1 + h is hash chain h) followed by whole records; a record
 starts with the pointer field that links it to the next record of its list.
 */
module DbLayout {
  import opened Common
  import opened DbCodec

  const NLISTS := 138
  const HEADER := 967  // (NHASH_DEF + 1) * PTR_SZ, and a newline

  function HeadAt(l: nat): nat { 7 * l }

  // ---- bytes ----

  // write(2) at an offset; past the end of the file the gap reads as NUL bytes
  function Write(f: string, off: nat, s: string): string {
    if off > |f| then f + seq(off - |f|, _ => NUL) + s
    else f[..off] + s + (if off + |s| <= |f| then f[off + |s|..] else [])
  }

  lemma WriteKeeps(f: string, off: nat, s: string, a: nat, b: nat)
    requires off <= |f| && a <= b <= |f| && (b <= off || off + |s| <= a)
    ensures b <= |Write(f, off, s)| && Write(f, off, s)[a..b] == f[a..b]
  {
    var w := Write(f, off, s);
    assert |w| == if off + |s| <= |f| then |f| else off + |s|;
    forall k | a <= k < b ensures w[k] == f[k] {
      if k >= off { assert off + |s| <= k; }
    }
  }

  lemma WritePuts(f: string, off: nat, s: string)
    requires off <= |f|
    ensures off + |s| <= |Write(f, off, s)|
    ensures Write(f, off, s)[off..off + |s|] == s
    ensures |Write(f, off, s)| == if off + |s| <= |f| then |f| else off + |s|
  {
  }

  // ---- the index file ----

  ghost predicate RecAt(f: string, o: nat, r: Rec) {
    ValidRec(r) && HEADER <= o && o + RecLen(r) <= |f| && f[o..o + RecLen(r)] == Enc(r)
  }

  ghost predicate HeadsImage(f: string, heads: seq<nat>) {
    && |heads| == NLISTS && HEADER <= |f| && f[HEADER - 1] == '\n'
    && forall l | 0 <= l < NLISTS :: heads[l] <= PTR_MAX && f[HeadAt(l)..HeadAt(l) + 7] == Pad(PTR_SZ, heads[l])
  }

  ghost predicate RecsImage(f: string, recs: map<nat, Rec>) {
    forall o | o in recs :: RecAt(f, o, recs[o])
  }

  ghost predicate Separate(recs: map<nat, Rec>) {
    forall o, p | o in recs && p in recs && o < p :: o + RecLen(recs[o]) <= p
  }

  ghost predicate IdxImage(f: string, heads: seq<nat>, recs: map<nat, Rec>) {
    HeadsImage(f, heads) && RecsImage(f, recs) && Separate(recs)
  }

  lemma WriteHead(f: string, heads: seq<nat>, recs: map<nat, Rec>, l: nat, v: nat)
    requires IdxImage(f, heads, recs) && l < NLISTS && v <= PTR_MAX
    ensures IdxImage(Write(f, HeadAt(l), Pad(PTR_SZ, v)), heads[l := v], recs)
    ensures |Write(f, HeadAt(l), Pad(PTR_SZ, v))| == |f|
  {
    hide Pad, Enc, ValidRec, RecLen, Write, Separate;
    var s := Pad(PTR_SZ, v);
    var w := Write(f, HeadAt(l), s);
    PtrFieldFits(v);
    WritePuts(f, HeadAt(l), s);
    forall m | 0 <= m < NLISTS && m != l ensures w[HeadAt(m)..HeadAt(m) + 7] == f[HeadAt(m)..HeadAt(m) + 7] {
      WriteKeeps(f, HeadAt(l), s, HeadAt(m), HeadAt(m) + 7);
    }
    WriteKeeps(f, HeadAt(l), s, HEADER - 1, HEADER);
    assert w[HEADER - 1..HEADER] == f[HEADER - 1..HEADER];
    assert w[HEADER - 1..HEADER][0] == f[HEADER - 1..HEADER][0];
    forall o | o in recs ensures RecAt(w, o, recs[o]) {
      WriteKeeps(f, HeadAt(l), s, o, o + RecLen(recs[o]));
    }
  }

  // any in-place rewrite of a whole record that keeps its length
  lemma WriteRec(f: string, heads: seq<nat>, recs: map<nat, Rec>, o: nat, r: Rec)
    requires IdxImage(f, heads, recs) && o in recs && ValidRec(r) && RecLen(r) == RecLen(recs[o])
    ensures IdxImage(Write(f, o, Enc(r)), heads, recs[o := r])
    ensures |Write(f, o, Enc(r))| == |f|
  {
    EncLength(r);
    WriteRecBytes(f, heads, recs, o, o, Enc(r), r);
  }

  lemma PtrSplit(q: Rec, v: nat)
    requires ValidRec(q) && v <= PTR_MAX
    ensures var r := q.(ptr := v);
            && ValidRec(r) && RecLen(r) == RecLen(q) && |Enc(q)| == RecLen(q)
            && Enc(r) == Pad(PTR_SZ, v) + Enc(q)[7..RecLen(q)]
  {
    var r := q.(ptr := v);
    assert Body(q) == Body(r);
    EncFields(q);
    EncFields(r);
  }

  // the pointer field alone
  lemma WriteRecPtr(f: string, heads: seq<nat>, recs: map<nat, Rec>, o: nat, v: nat)
    requires IdxImage(f, heads, recs) && o in recs && v <= PTR_MAX
    ensures IdxImage(Write(f, o, Pad(PTR_SZ, v)), heads, recs[o := recs[o].(ptr := v)])
    ensures |Write(f, o, Pad(PTR_SZ, v))| == |f|
  {
    hide Pad, Dec, Write, Separate, HeadsImage;
    var q, r := recs[o], recs[o].(ptr := v);
    var s := Pad(PTR_SZ, v);
    var w := Write(f, o, s);
    assert RecAt(f, o, q);
    PtrFieldFits(v);
    PtrSplit(q, v);
    WritePuts(f, o, s);
    WriteKeeps(f, o, s, o + 7, o + RecLen(q));
    SubSlice(f, o, o + RecLen(q), 7, RecLen(q));
    assert w[o..o + RecLen(r)] == w[o..o + 7] + w[o + 7..o + RecLen(r)];
    WriteRecBytes(f, heads, recs, o, o, s, r);
  }

  lemma WriteRecBytes(f: string, heads: seq<nat>, recs: map<nat, Rec>, o: nat, at: nat, s: string, r: Rec)
    requires IdxImage(f, heads, recs) && o in recs && ValidRec(r) && RecLen(r) == RecLen(recs[o])
    requires o <= at && at + |s| <= o + RecLen(r)
    requires var w := Write(f, at, s); o + RecLen(r) <= |w| && w[o..o + RecLen(r)] == Enc(r)
    ensures IdxImage(Write(f, at, s), heads, recs[o := r])
    ensures |Write(f, at, s)| == |f|
  {
    hide Pad, Enc, ValidRec, Write, Dec, Body;
    var w := Write(f, at, s);
    WritePuts(f, at, s);
    forall m | 0 <= m < NLISTS ensures w[HeadAt(m)..HeadAt(m) + 7] == f[HeadAt(m)..HeadAt(m) + 7] {
      WriteKeeps(f, at, s, HeadAt(m), HeadAt(m) + 7);
    }
    WriteKeeps(f, at, s, HEADER - 1, HEADER);
    assert w[HEADER - 1..HEADER][0] == f[HEADER - 1..HEADER][0];
    forall p | p in recs && p != o ensures RecAt(w, p, recs[p]) {
      WriteKeeps(f, at, s, p, p + RecLen(recs[p]));
    }
  }

  lemma AppendRec(f: string, heads: seq<nat>, recs: map<nat, Rec>, r: Rec)
    requires IdxImage(f, heads, recs) && ValidRec(r)
    ensures |f| !in recs
    ensures IdxImage(Write(f, |f|, Enc(r)), heads, recs[|f| := r])
    ensures |Write(f, |f|, Enc(r))| == |f| + RecLen(r)
  {
    EncLength(r);
    var w := Write(f, |f|, Enc(r));
    WritePuts(f, |f|, Enc(r));
    forall m | 0 <= m < NLISTS ensures w[HeadAt(m)..HeadAt(m) + 7] == f[HeadAt(m)..HeadAt(m) + 7] {
      WriteKeeps(f, |f|, Enc(r), HeadAt(m), HeadAt(m) + 7);
    }
    WriteKeeps(f, |f|, Enc(r), HEADER - 1, HEADER);
    assert w[HEADER - 1..HEADER][0] == f[HEADER - 1..HEADER][0];
    forall p | p in recs ensures RecAt(w, p, recs[p]) {
      WriteKeeps(f, |f|, Enc(r), p, p + RecLen(recs[p]));
    }
  }

  // ---- the data file ----

  ghost predicate DatAt(d: string, r: Rec, t: string) {
    |t| + 1 == r.datlen && r.datoff + r.datlen <= |d| && d[r.datoff..r.datoff + r.datlen] == t + ['\n']
  }

  ghost predicate DatImage(d: string, recs: map<nat, Rec>, text: map<nat, string>) {
    && (forall o | o in recs :: o in text && DatAt(d, recs[o], text[o]))
    && forall o, p | o in recs && p in recs && o != p ::
         recs[o].datoff + recs[o].datlen <= recs[p].datoff || recs[p].datoff + recs[p].datlen <= recs[o].datoff
  }

  // overwriting a data record with text of the same length
  lemma WriteDat(d: string, recs: map<nat, Rec>, text: map<nat, string>, o: nat, t: string)
    requires DatImage(d, recs, text) && o in recs && |t| + 1 == recs[o].datlen
    ensures DatImage(Write(d, recs[o].datoff, t + ['\n']), recs, text[o := t])
    ensures |Write(d, recs[o].datoff, t + ['\n'])| == |d|
  {
    var s := t + ['\n'];
    WritePuts(d, recs[o].datoff, s);
    forall p | p in recs && p != o ensures DatAt(Write(d, recs[o].datoff, s), recs[p], text[p]) {
      WriteKeeps(d, recs[o].datoff, s, recs[p].datoff, recs[p].datoff + recs[p].datlen);
    }
  }

  lemma AppendDat(d: string, recs: map<nat, Rec>, text: map<nat, string>, o: nat, r: Rec, t: string)
    requires DatImage(d, recs, text) && o !in recs && r.datoff == |d| && |t| + 1 == r.datlen
    ensures DatImage(Write(d, |d|, t + ['\n']), recs[o := r], text[o := t])
    ensures |Write(d, |d|, t + ['\n'])| == |d| + r.datlen
  {
    var s := t + ['\n'];
    WritePuts(d, |d|, s);
    forall p | p in recs ensures DatAt(Write(d, |d|, s), recs[p], text[p]) {
      WriteKeeps(d, |d|, s, recs[p].datoff, recs[p].datoff + recs[p].datlen);
    }
  }

  // an index record may be rewritten freely as long as its data region stays put
  lemma DatIgnoresPtrAndKey(d: string, recs: map<nat, Rec>, text: map<nat, string>, o: nat, r: Rec)
    requires DatImage(d, recs, text) && o in recs
    requires r.datoff == recs[o].datoff && r.datlen == recs[o].datlen
    ensures DatImage(d, recs[o := r], text)
  {
  }

  // ---- both files are exactly covered ----

  // byte x of the data file belongs to the data of record o
  ghost predicate InData(recs: map<nat, Rec>, o: nat, x: nat) {
    o in recs && recs[o].datoff <= x < recs[o].datoff + recs[o].datlen
  }

  ghost predicate Held(recs: map<nat, Rec>, x: nat) { exists o :: InData(recs, o, x) }

  // in file order the index records leave no gap, and no byte of the data file is outside all data
  ghost predicate Tiles(offs: seq<nat>, recs: map<nat, Rec>, idxEnd: nat, datEnd: nat) {
    && (forall i | 0 <= i < |offs| :: offs[i] in recs)
    && (forall o | o in recs :: o in offs)
    && IdxStart(offs, 0, idxEnd) == HEADER
    && (forall i | 0 <= i < |offs| :: TileAt(offs, recs, idxEnd, i))
    && forall x | 0 <= x < datEnd :: Held(recs, x)
  }

  // the i-th record ends where the next one starts
  ghost predicate TileAt(offs: seq<nat>, recs: map<nat, Rec>, idxEnd: nat, i: nat) {
    i < |offs| && offs[i] in recs && offs[i] + RecLen(recs[offs[i]]) == IdxStart(offs, i + 1, idxEnd)
  }

  function IdxStart(offs: seq<nat>, i: nat, idxEnd: nat): nat {
    if i < |offs| then offs[i] else idxEnd
  }

  lemma TilesKept(offs: seq<nat>, recs: map<nat, Rec>, idxEnd: nat, datEnd: nat, o: nat, r: Rec)
    requires Tiles(offs, recs, idxEnd, datEnd) && o in recs
    requires RecLen(r) == RecLen(recs[o]) && r.datoff == recs[o].datoff && r.datlen == recs[o].datlen
    ensures Tiles(offs, recs[o := r], idxEnd, datEnd)
  {
    hide RecLen;
    var recs' := recs[o := r];
    forall i | 0 <= i < |offs| ensures TileAt(offs, recs', idxEnd, i) {
      assert TileAt(offs, recs, idxEnd, i);
    }
    forall x | 0 <= x < datEnd ensures Held(recs', x) {
      assert Held(recs, x);
      var p :| InData(recs, p, x);
      assert InData(recs', p, x);
    }
  }

  lemma TilesAppend(offs: seq<nat>, recs: map<nat, Rec>, idxEnd: nat, datEnd: nat, r: Rec)
    requires Tiles(offs, recs, idxEnd, datEnd) && idxEnd !in recs && r.datoff == datEnd
    ensures Tiles(offs + [idxEnd], recs[idxEnd := r], idxEnd + RecLen(r), datEnd + r.datlen)
  {
    hide RecLen;
    var offs', recs' := offs + [idxEnd], recs[idxEnd := r];
    var idxEnd', datEnd' := idxEnd + RecLen(r), datEnd + r.datlen;
    assert offs'[|offs|] == idxEnd;
    assert forall i | 0 <= i < |offs| :: offs'[i] == offs[i];
    forall o | o in recs' ensures o in offs' { }
    forall i | 0 <= i < |offs'| ensures TileAt(offs', recs', idxEnd', i) {
      if i < |offs| { assert TileAt(offs, recs, idxEnd, i); }
    }
    forall x | 0 <= x < datEnd' ensures Held(recs', x) {
      if x < datEnd {
        assert Held(recs, x);
        var p :| InData(recs, p, x);
        assert InData(recs', p, x);
      } else {
        assert InData(recs', idxEnd, x);
      }
    }
  }

  // ---- lists ----

  datatype Layout = Layout(
    heads: seq<nat>,            // header pointers
    recs: map<nat, Rec>,        // index records by offset
    text: map<nat, string>,     // data by index-record offset
    offs: seq<nat>,             // record offsets in file order
    lists: seq<seq<nat>>,       // the records of each list, in link order
    loc: map<nat, nat>)         // the list a record is on; NLISTS when on none

  function NextOf(path: seq<nat>, i: nat): nat { if i + 1 < |path| then path[i + 1] else 0 }

  ghost predicate Linked(recs: map<nat, Rec>, head: nat, path: seq<nat>) {
    && head == (if |path| == 0 then 0 else path[0])
    && (forall i | 0 <= i < |path| :: path[i] in recs)
    && forall i {:trigger NextOf(path, i)} | 0 <= i < |path| :: recs[path[i]].ptr == NextOf(path, i)
  }

  ghost predicate Blank(s: string) { forall i | 0 <= i < |s| :: s[i] == ' ' }

  ghost predicate Owns(loc: map<nat, nat>, l: nat, path: seq<nat>) {
    forall i | 0 <= i < |path| :: path[i] in loc && loc[path[i]] == l
  }

  // free records have blank keys; chained keys hash to their chain and differ
  ghost predicate Contents(recs: map<nat, Rec>, l: nat, path: seq<nat>) {
    && (forall i | 0 <= i < |path| :: path[i] in recs && KeyFits(recs[path[i]].key, l))
    && (l > 0 ==> forall i, j | 0 <= i < j < |path| :: recs[path[i]].key != recs[path[j]].key)
  }

  ghost predicate KeyFits(key: string, l: nat) {
    if l == 0 then Blank(key) else KeyText(key) && Hash(key) + 1 == l
  }

  ghost predicate ListOk(st: Layout, l: nat)
    requires l < |st.lists| && l < |st.heads|
  {
    && Linked(st.recs, st.heads[l], st.lists[l])
    && NoDup(st.lists[l])
    && Owns(st.loc, l, st.lists[l])
    && Contents(st.recs, l, st.lists[l])
  }

  // every list well formed; every record except `loose` on exactly one list
  ghost predicate ListsOk(st: Layout, loose: set<nat>) {
    && |st.heads| == |st.lists| == NLISTS
    && (forall o | o in st.recs :: 0 < o)
    && (forall l | 0 <= l < NLISTS :: ListOk(st, l))
    && st.loc.Keys == st.text.Keys == st.recs.Keys
    && forall o | o in st.recs ::
         if o in loose then st.loc[o] == NLISTS else st.loc[o] < NLISTS && o in st.lists[st.loc[o]]
  }

  // position of the pointer field that links to lists[l][i]
  function LinkLoc(st: Layout, l: nat, i: nat): nat
    requires l < |st.lists| && i <= |st.lists[l]|
  {
    if i == 0 then HeadAt(l) else st.lists[l][i - 1]
  }

  function Remove<T>(s: seq<T>, i: nat): seq<T>
    requires i < |s|
  {
    s[..i] + s[i + 1..]
  }

  // take lists[l][i] off its list by bypassing it
  ghost function Unlink(st: Layout, l: nat, i: nat): Layout
    requires l < |st.lists| && l < |st.heads| && i < |st.lists[l]|
    requires i > 0 ==> st.lists[l][i - 1] in st.recs
  {
    var path := st.lists[l];
    var next := NextOf(path, i);
    st.(heads := if i == 0 then st.heads[l := next] else st.heads,
        recs := if i == 0 then st.recs else st.recs[path[i - 1] := st.recs[path[i - 1]].(ptr := next)],
        lists := st.lists[l := Remove(path, i)],
        loc := st.loc[path[i] := NLISTS])
  }

  // put record o, holding r and data t, at the front of list l
  ghost function LinkFront(st: Layout, l: nat, o: nat, r: Rec, t: string): Layout
    requires l < |st.lists| && l < |st.heads|
  {
    st.(heads := st.heads[l := o],
        recs := st.recs[o := r],
        text := st.text[o := t],
        lists := st.lists[l := [o] + st.lists[l]],
        loc := st.loc[o := l])
  }

  lemma RemoveAt(path: seq<nat>, i: nat, k: nat)
    requires i < |path| && k < |path| - 1
    ensures |Remove(path, i)| == |path| - 1
    ensures Remove(path, i)[k] == path[if k < i then k else k + 1]
    ensures NextOf(Remove(path, i), k) == (if k + 1 == i then NextOf(path, i)
            else NextOf(path, if k < i then k else k + 1))
  {
  }

  lemma NoDupRemove(path: seq<nat>, i: nat)
    requires NoDup(path) && i < |path|
    ensures NoDup(Remove(path, i)) && path[i] !in Remove(path, i)
    ensures forall p | p in path && p != path[i] :: p in Remove(path, i)
  {
    forall k | 0 <= k < |path| - 1 ensures Remove(path, i)[k] == path[if k < i then k else k + 1] {
      RemoveAt(path, i, k);
    }
    forall p | p in path && p != path[i] ensures p in Remove(path, i) {
      var k :| 0 <= k < |path| && path[k] == p;
      RemoveAt(path, i, if k < i then k else k - 1);
    }
  }

  lemma LinkedRemove(recs: map<nat, Rec>, head: nat, path: seq<nat>, i: nat)
    requires Linked(recs, head, path) && NoDup(path) && i < |path|
    ensures i == 0 ==> Linked(recs, NextOf(path, 0), Remove(path, 0))
    ensures i > 0 ==> Linked(recs[path[i - 1] := recs[path[i - 1]].(ptr := NextOf(path, i))], head, Remove(path, i))
  {
    var path' := Remove(path, i);
    var recs' := if i == 0 then recs else recs[path[i - 1] := recs[path[i - 1]].(ptr := NextOf(path, i))];
    forall k | 0 <= k < |path'| ensures path'[k] in recs' && recs'[path'[k]].ptr == NextOf(path', k) {
      RemoveAt(path, i, k);
      var k' := if k < i then k else k + 1;
      assert recs[path[k']].ptr == NextOf(path, k');
      if i > 0 && k' != i - 1 { assert path[k'] != path[i - 1]; }
    }
  }

  lemma OwnsRemove(loc: map<nat, nat>, l: nat, path: seq<nat>, i: nat, owner: nat)
    requires Owns(loc, l, path) && NoDup(path) && i < |path|
    ensures Owns(loc[path[i] := owner], l, Remove(path, i))
  {
    forall k | 0 <= k < |path| - 1 ensures Remove(path, i)[k] == path[if k < i then k else k + 1] {
      RemoveAt(path, i, k);
    }
  }

  // removing a member and changing only pointer fields keeps a list's contents
  lemma ContentsRemove(recs: map<nat, Rec>, recs': map<nat, Rec>, l: nat, path: seq<nat>, i: nat)
    requires Contents(recs, l, path) && i < |path|
    requires forall p | p in recs :: p in recs' && recs'[p].key == recs[p].key
    ensures Contents(recs', l, Remove(path, i))
  {
    var path' := Remove(path, i);
    forall k | 0 <= k < |path'| ensures path'[k] == path[if k < i then k else k + 1] {
      RemoveAt(path, i, k);
    }
    assert forall k | 0 <= k < |path| :: path[k] in recs;
  }

  // a list is untouched by changes to two records that are not on it
  lemma OtherListKept(st: Layout, st': Layout, m: nat, a: nat, b: nat)
    requires m < |st.lists| == |st'.lists| && m < |st.heads| == |st'.heads|
    requires ListOk(st, m) && st'.lists[m] == st.lists[m] && st'.heads[m] == st.heads[m]
    requires a !in st.lists[m] && b !in st.lists[m]
    requires forall p | p in st.recs && p != a && p != b :: p in st'.recs && st'.recs[p] == st.recs[p]
    requires forall p | p in st.loc && p != a && p != b :: p in st'.loc && st'.loc[p] == st.loc[p]
    ensures ListOk(st', m)
  {
    var path := st.lists[m];
    assert forall i | 0 <= i < |path| :: path[i] != a && path[i] != b && path[i] in st.recs && path[i] in st.loc;
  }

  lemma NotOnOther(st: Layout, l: nat, m: nat, o: nat)
    requires l < NLISTS && m < NLISTS && l != m
    requires |st.heads| == |st.lists| == NLISTS && ListOk(st, l) && ListOk(st, m)
    requires o in st.lists[l]
    ensures o !in st.lists[m]
  {
  }

  lemma UnlinkSame(st: Layout, l: nat, i: nat)
    requires ListsOk(st, {}) && l < NLISTS && i < |st.lists[l]|
    requires i > 0 ==> st.lists[l][i - 1] in st.recs
    ensures ListOk(Unlink(st, l, i), l)
  {
    var st' := Unlink(st, l, i);
    var path := st.lists[l];
    assert Linked(st.recs, st.heads[l], path) && NoDup(path) && Owns(st.loc, l, path) && Contents(st.recs, l, path) by {
      assert ListOk(st, l);
    }
    NoDupRemove(path, i);
    OwnsRemove(st.loc, l, path, i, NLISTS);
    LinkedRemove(st.recs, st.heads[l], path, i);
    ContentsRemove(st.recs, st'.recs, l, path, i);
  }

  lemma UnlinkOther(st: Layout, l: nat, i: nat, m: nat)
    requires ListsOk(st, {}) && l < NLISTS && m < NLISTS && m != l && i < |st.lists[l]|
    requires i > 0 ==> st.lists[l][i - 1] in st.recs
    ensures ListOk(Unlink(st, l, i), m)
  {
    var path := st.lists[l];
    var a := if i == 0 then path[i] else path[i - 1];
    assert ListOk(st, l) && ListOk(st, m);
    NotOnOther(st, l, m, path[i]);
    NotOnOther(st, l, m, a);
    OtherListKept(st, Unlink(st, l, i), m, a, path[i]);
  }

  lemma UnlinkOk(st: Layout, l: nat, i: nat)
    requires ListsOk(st, {}) && l < NLISTS && i < |st.lists[l]|
    requires i > 0 ==> st.lists[l][i - 1] in st.recs
    ensures ListsOk(Unlink(st, l, i), {st.lists[l][i]})
  {
    var st' := Unlink(st, l, i);
    forall m | 0 <= m < NLISTS ensures ListOk(st', m) {
      if m == l { UnlinkSame(st, l, i); } else { UnlinkOther(st, l, i, m); }
    }
    assert NoDup(st.lists[l]) && st.lists[l][i] in st.recs by { assert ListOk(st, l); }
    NoDupRemove(st.lists[l], i);
  }

  lemma LooseOnNoList(st: Layout, o: nat, m: nat)
    requires ListsOk(st, if o in st.recs then {o} else {}) && m < NLISTS
    ensures o !in st.lists[m]
  {
    assert ListOk(st, m);
  }

  lemma LinkFrontSame(st: Layout, l: nat, o: nat, r: Rec, t: string)
    requires l < NLISTS && |st.heads| == |st.lists| == NLISTS
    requires ListOk(st, l) && o !in st.lists[l]
    requires r.ptr == st.heads[l] && KeyFits(r.key, l)
    requires l > 0 ==> forall p | p in st.lists[l] :: p in st.recs && st.recs[p].key != r.key
    ensures ListOk(LinkFront(st, l, o, r, t), l)
  {
    var st' := LinkFront(st, l, o, r, t);
    var path, path' := st.lists[l], st'.lists[l];
    forall k | 0 < k < |path'|
      ensures path'[k] == path[k - 1] && path'[k] in st.recs && path'[k] != o
      ensures NextOf(path', k) == NextOf(path, k - 1)
    {
    }
    assert Linked(st'.recs, o, path');
    assert NoDup(path');
    assert Owns(st'.loc, l, path');
    assert Contents(st'.recs, l, path');
  }

  lemma LinkFrontOther(st: Layout, l: nat, o: nat, r: Rec, t: string, m: nat)
    requires l < NLISTS && m < NLISTS && m != l && |st.heads| == |st.lists| == NLISTS
    requires ListOk(st, m) && o !in st.lists[m]
    ensures ListOk(LinkFront(st, l, o, r, t), m)
  {
    OtherListKept(st, LinkFront(st, l, o, r, t), m, o, o);
  }

  lemma LinkFrontOk(st: Layout, l: nat, o: nat, r: Rec, t: string)
    requires l < NLISTS && 0 < o
    requires ListsOk(st, if o in st.recs then {o} else {})
    requires r.ptr == st.heads[l] && KeyFits(r.key, l)
    requires l > 0 ==> forall p | p in st.lists[l] :: p in st.recs && st.recs[p].key != r.key
    ensures ListsOk(LinkFront(st, l, o, r, t), {})
  {
    var st' := LinkFront(st, l, o, r, t);
    forall m | 0 <= m < NLISTS ensures ListOk(st', m) {
      LooseOnNoList(st, o, m);
      if m == l { LinkFrontSame(st, l, o, r, t); } else { LinkFrontOther(st, l, o, r, t, m); }
    }
    assert st'.lists[l][0] == o;
    assert forall p | p in st.lists[l] :: p in st'.lists[l];
  }

  // ---- the key -> data map ----

  ghost predicate OnChain(st: Layout, o: nat) {
    o in st.recs && o in st.loc && o in st.text && 0 < st.loc[o] < NLISTS
  }

  ghost predicate Represents(st: Layout, m: map<string, string>) {
    && (forall o | OnChain(st, o) :: st.recs[o].key in m && m[st.recs[o].key] == st.text[o])
    && forall k | k in m :: exists o :: OnChain(st, o) && st.recs[o].key == k
  }

  // the two files hold the layout, and the layout holds the map
  ghost predicate Stored(idx: string, dat: string, st: Layout, m: map<string, string>) {
    match st
    case Layout(heads, recs, text, offs, _, _) =>
      && IdxImage(idx, heads, recs) && DatImage(dat, recs, text) && Tiles(offs, recs, |idx|, |dat|)
      && ListsOk(st, {}) && Represents(st, m)
  }

  lemma ChainedKey(st: Layout, o: nat)
    requires ListsOk(st, {}) && OnChain(st, o)
    ensures KeyFits(st.recs[o].key, st.loc[o])
    ensures o in st.lists[st.loc[o]]
  {
    assert ListOk(st, st.loc[o]);
  }

  // at most one chained record carries a given key, and it is on that key's chain
  lemma KeyUnique(st: Layout, o: nat, p: nat)
    requires ListsOk(st, {}) && OnChain(st, o) && OnChain(st, p) && st.recs[o].key == st.recs[p].key
    ensures o == p && st.loc[o] == Hash(st.recs[o].key) + 1
  {
    ChainedKey(st, o);
    ChainedKey(st, p);
    var path := st.lists[st.loc[o]];
    assert ListOk(st, st.loc[o]);
    assert Contents(st.recs, st.loc[o], path);
    var i :| 0 <= i < |path| && path[i] == o;
    var j :| 0 <= j < |path| && path[j] == p;
  }

  // ---- how the map follows the lists ----

  // p is chained in both layouts or in neither, with the same key and data
  ghost predicate SameChained(st: Layout, st': Layout, p: nat) {
    && (OnChain(st', p) <==> OnChain(st, p))
    && (OnChain(st, p) ==> st'.recs[p].key == st.recs[p].key && st'.text[p] == st.text[p])
  }

  // o leaves its chain; nothing else on a chain changes
  lemma RepRemove(st: Layout, st': Layout, m: map<string, string>, o: nat)
    requires Represents(st, m) && ListsOk(st, {}) && OnChain(st, o)
    requires !OnChain(st', o)
    requires forall p | p != o :: SameChained(st, st', p)
    ensures Represents(st', m - {st.recs[o].key})
  {
    hide ListsOk;
    var m' := m - {st.recs[o].key};
    forall p | OnChain(st', p) ensures st'.recs[p].key in m' && m'[st'.recs[p].key] == st'.text[p] {
      assert SameChained(st, st', p);
      if st.recs[p].key == st.recs[o].key { KeyUnique(st, o, p); }
    }
    forall k | k in m' ensures exists p :: OnChain(st', p) && st'.recs[p].key == k {
      var p :| OnChain(st, p) && st.recs[p].key == k;
      assert SameChained(st, st', p);
    }
  }

  // o joins a chain under a new key, or keeps its place and gets new data
  lemma RepPut(st: Layout, st': Layout, m: map<string, string>, o: nat, key: string, data: string)
    requires Represents(st, m)
    requires OnChain(st', o) && st'.recs[o].key == key && st'.text[o] == data
    requires forall p | p != o :: SameChained(st, st', p)
    requires forall p | p != o && OnChain(st, p) :: st.recs[p].key != key
    requires OnChain(st, o) ==> st.recs[o].key == key
    ensures Represents(st', m[key := data])
  {
    var m' := m[key := data];
    forall p | OnChain(st', p) ensures st'.recs[p].key in m' && m'[st'.recs[p].key] == st'.text[p] {
      if p != o { assert SameChained(st, st', p); }
    }
    forall k | k in m' ensures exists p :: OnChain(st', p) && st'.recs[p].key == k {
      if k == key {
        assert OnChain(st', o);
      } else {
        var p :| OnChain(st, p) && st.recs[p].key == k;
        assert SameChained(st, st', p);
      }
    }
  }

  // nothing on a chain changes
  lemma RepSame(st: Layout, st': Layout, m: map<string, string>)
    requires Represents(st, m)
    requires forall p :: SameChained(st, st', p)
    ensures Represents(st', m)
  {
    forall p | OnChain(st', p) ensures st'.recs[p].key in m && m[st'.recs[p].key] == st'.text[p] {
      assert SameChained(st, st', p);
    }
    forall k | k in m ensures exists p :: OnChain(st', p) && st'.recs[p].key == k {
      var p :| OnChain(st, p) && st.recs[p].key == k;
      assert SameChained(st, st', p);
    }
  }

  // no record of the key's chain carries the key
  ghost predicate NotOnChain(st: Layout, key: string) {
    && Hash(key) + 1 < |st.lists|
    && forall p | p in st.lists[Hash(key) + 1] :: p in st.recs && st.recs[p].key != key
  }

  // no chained record at all carries the key
  ghost predicate Unused(st: Layout, key: string) {
    forall p | OnChain(st, p) :: st.recs[p].key != key
  }

  // following the links of chain Hash(key) + 1 to its end without a match means the key is absent
  lemma KeyAbsent(st: Layout, m: map<string, string>, key: string)
    requires ListsOk(st, {}) && Represents(st, m)
    requires NotOnChain(st, key)
    ensures key !in m && Unused(st, key)
  {
    forall p | OnChain(st, p) ensures st.recs[p].key != key {
      ChainedKey(st, p);
    }
  }

  lemma KeyPresent(st: Layout, m: map<string, string>, o: nat)
    requires ListsOk(st, {}) && Represents(st, m) && OnChain(st, o)
    ensures st.recs[o].key in m && m[st.recs[o].key] == st.text[o]
    ensures forall p | OnChain(st, p) && p != o :: st.recs[p].key != st.recs[o].key
  {
    forall p | OnChain(st, p) && p != o ensures st.recs[p].key != st.recs[o].key {
      if st.recs[p].key == st.recs[o].key { KeyUnique(st, o, p); }
    }
  }

  // position i of list l holds a record that its list describes correctly
  ghost predicate ListedAt(st: Layout, l: nat, i: nat) {
    && l < |st.lists| && i < |st.lists[l]|
    && (i > 0 ==> st.lists[l][i - 1] in st.recs && st.lists[l][i - 1] != st.lists[l][i])
    && var o := st.lists[l][i];
       && 0 < o && o in st.recs && o in st.text && o in st.loc && st.loc[o] == l
       && st.recs[o].ptr == NextOf(st.lists[l], i) && KeyFits(st.recs[o].key, l)
  }

  lemma ListedRec(st: Layout, loose: set<nat>, l: nat, i: nat)
    requires ListsOk(st, loose) && l < NLISTS && i < |st.lists[l]|
    ensures ListedAt(st, l, i)
  {
    hide KeyFits;
    assert ListOk(st, l);
    if i > 0 { assert st.lists[l][i - 1] in st.recs; }
  }

  // read as bytes, the pointer field before position i holds the offset listed there (0 at the
  // end), and the record at that offset parses as the one listed
  ghost predicate LinkReads(f: string, st: Layout, l: nat, i: nat) {
    && l < |st.lists| && i <= |st.lists[l]|
    && LinkLoc(st, l, i) + PTR_SZ <= |f|
    && Atol(f[LinkLoc(st, l, i)..LinkLoc(st, l, i) + PTR_SZ]) == (if i < |st.lists[l]| then st.lists[l][i] else 0)
    && (i < |st.lists[l]| ==>
          var o := st.lists[l][i];
          ListedAt(st, l, i) && o <= PTR_MAX
          && ReadRec(f, o) == Ok(st.recs[o].ptr, st.recs[o].key, st.recs[o].datoff, st.recs[o].datlen,
            |Body(st.recs[o])|))
  }

  lemma Listed(f: string, st: Layout, loose: set<nat>, l: nat, i: nat)
    requires IdxImage(f, st.heads, st.recs) && ListsOk(st, loose) && l < NLISTS && i <= |st.lists[l]|
    ensures LinkReads(f, st, l, i)
  {
    hide ValidRec, Atol, Pad, Enc, Body, KeyFits, ReadRec, IdxImage;
    LinkHolds(f, st, loose, l, i);
    if i < |st.lists[l]| {
      ListedRec(st, loose, l, i);
      RecReads(f, st.heads, st.recs, st.lists[l][i]);
    }
  }

  lemma LinkHolds(f: string, st: Layout, loose: set<nat>, l: nat, i: nat)
    requires IdxImage(f, st.heads, st.recs) && ListsOk(st, loose) && l < NLISTS && i <= |st.lists[l]|
    ensures LinkLoc(st, l, i) + PTR_SZ <= |f|
    ensures Atol(f[LinkLoc(st, l, i)..LinkLoc(st, l, i) + PTR_SZ])
            == (if i < |st.lists[l]| then st.lists[l][i] else 0) <= PTR_MAX
  {
    hide Atol, KeyFits, IdxImage;
    var path := st.lists[l];
    if i == 0 {
      assert st.heads[l] == (if |path| == 0 then 0 else path[0]) by { assert ListOk(st, l); }
      HeadReads(f, st.heads, st.recs, l);
    } else {
      ListedRec(st, loose, l, i - 1);
      RecPtrReads(f, st.heads, st.recs, path[i - 1]);
    }
  }

  lemma RecPtrReads(f: string, heads: seq<nat>, recs: map<nat, Rec>, o: nat)
    requires IdxImage(f, heads, recs) && o in recs
    ensures o + PTR_SZ <= |f| && Atol(f[o..o + PTR_SZ]) == recs[o].ptr <= PTR_MAX
  {
    assert RecAt(f, o, recs[o]);
    EncFields(recs[o]);
    SubSlice(f, o, o + RecLen(recs[o]), 0, PTR_SZ);
    AtolPad(PTR_SZ, recs[o].ptr);
  }

  // a record read at its offset gives back the fields written there
  lemma RecReads(f: string, heads: seq<nat>, recs: map<nat, Rec>, o: nat)
    requires IdxImage(f, heads, recs) && o in recs
    ensures ReadRec(f, o) == Ok(recs[o].ptr, recs[o].key, recs[o].datoff, recs[o].datlen, |Body(recs[o])|)
    ensures o + RecLen(recs[o]) <= |f|
  {
    assert RecAt(f, o, recs[o]);
    ReadWritten(f, o, recs[o]);
  }

  lemma HeadReads(f: string, heads: seq<nat>, recs: map<nat, Rec>, l: nat)
    requires IdxImage(f, heads, recs) && l < NLISTS
    ensures HeadAt(l) + PTR_SZ <= |f| && Atol(f[HeadAt(l)..HeadAt(l) + PTR_SZ]) == heads[l] <= PTR_MAX
  {
    AtolPad(PTR_SZ, heads[l]);
  }

  // ---- delete ----

  function BlankText(r: Rec): string { Spaces(if r.datlen == 0 then 0 else r.datlen - 1) }

  function Blanked(r: Rec, ptr: nat): Rec { Rec(ptr, Spaces(|r.key|), r.datoff, r.datlen) }

  // record i of chain l moved, blanked, to the front of the free list
  ghost function Deleted(st: Layout, l: nat, i: nat): Layout
    requires 0 < l < |st.lists| && |st.lists| == |st.heads| && i < |st.lists[l]| && st.lists[l][i] in st.recs
    requires i > 0 ==> st.lists[l][i - 1] in st.recs
  {
    var o := st.lists[l][i];
    var r := st.recs[o];
    LinkFront(Unlink(st, l, i), 0, o, Blanked(r, st.heads[0]), BlankText(r))
  }

  // the crux of in-place deletion: a blanked record has exactly its old length
  lemma BlankedLength(r: Rec, ptr: nat)
    requires ValidRec(r) && ptr <= PTR_MAX
    ensures ValidRec(Blanked(r, ptr)) && RecLen(Blanked(r, ptr)) == RecLen(r)
  {
  }

  lemma DeletedLists(st: Layout, l: nat, i: nat)
    requires ListsOk(st, {}) && 0 < l < NLISTS && ListedAt(st, l, i)
    ensures ListsOk(Deleted(st, l, i), {})
  {
    hide KeyFits, RecLen, Linked, NoDup, Owns, Contents;
    var o := st.lists[l][i];
    var st1 := Unlink(st, l, i);
    UnlinkOk(st, l, i);
    assert st1.heads[0] == st.heads[0];
    BlankFits(st.recs[o], st.heads[0]);
    LinkFrontOk(st1, 0, o, Blanked(st.recs[o], st.heads[0]), Deleted(st, l, i).text[o]);
  }

  lemma BlankFits(r: Rec, ptr: nat)
    ensures KeyFits(Blanked(r, ptr).key, 0)
  {
  }

  lemma DeletedChains(st: Layout, l: nat, i: nat, p: nat)
    requires ListsOk(st, {}) && 0 < l < NLISTS && ListedAt(st, l, i)
    ensures if p == st.lists[l][i] then OnChain(st, p) && !OnChain(Deleted(st, l, i), p)
            else SameChained(st, Deleted(st, l, i), p)
  {
    hide KeyFits, RecLen, ListOk;
  }

  lemma DeletedOk(st: Layout, m: map<string, string>, l: nat, i: nat)
    requires ListsOk(st, {}) && Represents(st, m)
    requires 0 < l < NLISTS && ListedAt(st, l, i)
    ensures var o, st' := st.lists[l][i], Deleted(st, l, i);
            && ListsOk(st', {})
            && st.recs[o].key in m && Represents(st', m - {st.recs[o].key})
            && Unused(st', st.recs[o].key)
  {
    hide KeyFits, RecLen, ListOk, Represents;
    var o, st' := st.lists[l][i], Deleted(st, l, i);
    DeletedLists(st, l, i);
    forall p ensures if p == o then OnChain(st, p) && !OnChain(st', p) else SameChained(st, st', p) {
      DeletedChains(st, l, i, p);
    }
    KeyPresent(st, m, o);
    RepRemove(st, st', m, o);
  }

  lemma BeforeDelete(f: string, st: Layout, l: nat, i: nat)
    requires IdxImage(f, st.heads, st.recs) && ListsOk(st, {}) && 0 < l < NLISTS && ListedAt(st, l, i)
    ensures var o, r := st.lists[l][i], st.recs[st.lists[l][i]];
            && |st.heads| == |st.lists| == NLISTS
            && ValidRec(r) && o <= PTR_MAX && o + RecLen(r) <= |f|
            && IDXLEN_MIN <= |Body(Blanked(r, st.heads[0]))| <= IDXLEN_MAX
            && HeadAt(0) + PTR_SZ <= |f| && Atol(f[HeadAt(0)..HeadAt(0) + PTR_SZ]) == st.heads[0] <= PTR_MAX
            && LinkLoc(st, l, i) + PTR_SZ <= |f| && r.ptr <= PTR_MAX
  {
    hide ListOk, KeyFits, Atol, Enc, Pad, Dec, Separate;
    var o, r := st.lists[l][i], st.recs[st.lists[l][i]];
    assert RecAt(f, o, r);
    HeadReads(f, st.heads, st.recs, 0);
    LinkHolds(f, st, {}, l, i);
    BlankedLength(r, st.heads[0]);
  }

  // the three index writes of a delete, in program order, produce the bytes of the new layout
  lemma DeletedIdx(f: string, st: Layout, l: nat, i: nat)
    requires IdxImage(f, st.heads, st.recs) && ListsOk(st, {}) && 0 < l < NLISTS && ListedAt(st, l, i)
    ensures var o := st.lists[l][i];
            var f1 := Write(f, o, Enc(Blanked(st.recs[o], st.heads[0])));
            var f2 := Write(f1, HeadAt(0), Pad(PTR_SZ, o));
            var f3 := Write(f2, LinkLoc(st, l, i), Pad(PTR_SZ, st.recs[o].ptr));
            IdxImage(f3, Deleted(st, l, i).heads, Deleted(st, l, i).recs) && |f1| == |f2| == |f3| == |f|
  {
    hide KeyFits, ValidRec, RecLen, ListOk, Enc, Pad, Write, IdxImage, Atol;
    var path, o := st.lists[l], st.lists[l][i];
    var r, next := st.recs[o], st.recs[o].ptr;
    var r' := Blanked(r, st.heads[0]);
    assert o <= PTR_MAX && next <= PTR_MAX && st.heads[0] <= PTR_MAX && ValidRec(r) by {
      BeforeDelete(f, st, l, i);
    }
    BlankedLength(r, st.heads[0]);
    WriteRec(f, st.heads, st.recs, o, r');
    var f1, recs1 := Write(f, o, Enc(r')), st.recs[o := r'];
    WriteHead(f1, st.heads, recs1, 0, o);
    var f2, heads1 := Write(f1, HeadAt(0), Pad(PTR_SZ, o)), st.heads[0 := o];
    if i == 0 {
      WriteHead(f2, heads1, recs1, l, next);
      assert Deleted(st, l, i).heads == heads1[l := next];
      assert Deleted(st, l, i).recs == recs1;
    } else {
      WriteRecPtr(f2, heads1, recs1, path[i - 1], next);
      assert Deleted(st, l, i).heads == heads1;
      assert Deleted(st, l, i).recs == recs1[path[i - 1] := recs1[path[i - 1]].(ptr := next)];
    }
  }

  // what a delete does to the records: two rewrites, neither moving a record or its data
  lemma DeletedRecs(st: Layout, l: nat, i: nat)
    requires |st.lists| == |st.heads| == NLISTS && 0 < l < NLISTS && ListedAt(st, l, i)
    ensures var path, o := st.lists[l], st.lists[l][i];
            var recs1 := st.recs[o := Blanked(st.recs[o], st.heads[0])];
            && Deleted(st, l, i).text == st.text[o := BlankText(st.recs[o])]
            && Deleted(st, l, i).recs ==
               if i == 0 then recs1 else recs1[path[i - 1] := recs1[path[i - 1]].(ptr := st.recs[o].ptr)]
  {
    hide KeyFits, Spaces;
  }

  lemma DeletedDat(d: string, st: Layout, l: nat, i: nat)
    requires |st.lists| == |st.heads| == NLISTS && 0 < l < NLISTS && ListedAt(st, l, i)
    requires DatImage(d, st.recs, st.text)
    ensures var r, st' := st.recs[st.lists[l][i]], Deleted(st, l, i);
            var d' := Write(d, r.datoff, BlankText(r) + ['\n']);
            DatImage(d', st'.recs, st'.text) && |d'| == |d|
  {
    hide KeyFits, Spaces, Write;
    var path, o := st.lists[l], st.lists[l][i];
    var r := st.recs[o];
    DeletedRecs(st, l, i);
    assert DatAt(d, r, st.text[o]);
    hide DatImage, DatAt, Deleted, Unlink, LinkFront;
    WriteDat(d, st.recs, st.text, o, BlankText(r));
    var d', text' := Write(d, r.datoff, BlankText(r) + ['\n']), st.text[o := BlankText(r)];
    var recs1 := st.recs[o := Blanked(r, st.heads[0])];
    DatIgnoresPtrAndKey(d', st.recs, text', o, recs1[o]);
    if i > 0 {
      DatIgnoresPtrAndKey(d', recs1, text', path[i - 1], recs1[path[i - 1]].(ptr := r.ptr));
    }
  }

  lemma DeletedTiles(st: Layout, idxEnd: nat, datEnd: nat, l: nat, i: nat)
    requires |st.lists| == |st.heads| == NLISTS && 0 < l < NLISTS && ListedAt(st, l, i)
    requires Tiles(st.offs, st.recs, idxEnd, datEnd)
    ensures Tiles(Deleted(st, l, i).offs, Deleted(st, l, i).recs, idxEnd, datEnd)
  {
    hide KeyFits, Spaces, Tiles, Dec;
    var path, o := st.lists[l], st.lists[l][i];
    var r := st.recs[o];
    DeletedRecs(st, l, i);
    var recs1 := st.recs[o := Blanked(r, st.heads[0])];
    assert RecLen(Blanked(r, st.heads[0])) == RecLen(r);
    TilesKept(st.offs, st.recs, idxEnd, datEnd, o, recs1[o]);
    if i > 0 {
      TilesKept(st.offs, recs1, idxEnd, datEnd, path[i - 1], recs1[path[i - 1]].(ptr := r.ptr));
    }
  }

  // ---- taking a record off the free list ----

  // list i's link bypassed in the bytes
  lemma UnlinkIdx(f: string, st: Layout, l: nat, i: nat)
    requires IdxImage(f, st.heads, st.recs) && |st.lists| == NLISTS && l < NLISTS && ListedAt(st, l, i)
    ensures var f' := Write(f, LinkLoc(st, l, i), Pad(PTR_SZ, st.recs[st.lists[l][i]].ptr));
            IdxImage(f', Unlink(st, l, i).heads, Unlink(st, l, i).recs) && |f'| == |f|
  {
    hide KeyFits, Write, Pad, Enc;
    var next := st.recs[st.lists[l][i]].ptr;
    RecPtrReads(f, st.heads, st.recs, st.lists[l][i]);
    if i == 0 {
      WriteHead(f, st.heads, st.recs, l, next);
    } else {
      WriteRecPtr(f, st.heads, st.recs, st.lists[l][i - 1], next);
    }
  }

  lemma UnlinkDat(d: string, st: Layout, idxEnd: nat, datEnd: nat, l: nat, i: nat)
    requires DatImage(d, st.recs, st.text) && Tiles(st.offs, st.recs, idxEnd, datEnd)
    requires |st.lists| == |st.heads| == NLISTS && l < NLISTS && ListedAt(st, l, i)
    ensures var st' := Unlink(st, l, i);
            DatImage(d, st'.recs, st'.text) && Tiles(st'.offs, st'.recs, idxEnd, datEnd)
  {
    hide KeyFits, Dec;
    if i > 0 {
      var p := st.lists[l][i - 1];
      var q := st.recs[p].(ptr := st.recs[st.lists[l][i]].ptr);
      DatIgnoresPtrAndKey(d, st.recs, st.text, p, q);
      TilesKept(st.offs, st.recs, idxEnd, datEnd, p, q);
    }
  }

  lemma FreeUnlinkMap(st: Layout, m: map<string, string>, i: nat, key: string)
    requires ListsOk(st, {}) && Represents(st, m) && ListedAt(st, 0, i)
    requires Unused(st, key)
    ensures Represents(Unlink(st, 0, i), m) && Unused(Unlink(st, 0, i), key)
  {
    hide KeyFits, ListOk;
    var st' := Unlink(st, 0, i);
    forall p ensures SameChained(st, st', p) { }
    RepSame(st, st', m);
    forall p | OnChain(st', p) ensures st'.recs[p].key != key {
      assert SameChained(st, st', p);
    }
  }

  // ---- putting a new key at the front of its chain ----

  lemma LinkFrontMap(st: Layout, m: map<string, string>, l: nat, o: nat, r: Rec, t: string)
    requires |st.lists| == |st.heads| == NLISTS && 0 < l < NLISTS
    requires ListsOk(st, if o in st.recs then {o} else {}) && Represents(st, m) && Unused(st, r.key)
    ensures Represents(LinkFront(st, l, o, r, t), m[r.key := t])
  {
    hide ListOk;
    var st' := LinkFront(st, l, o, r, t);
    assert !OnChain(st, o);
    forall p | p != o ensures SameChained(st, st', p) { }
    forall p | p != o && OnChain(st, p) ensures st.recs[p].key != r.key { }
    RepPut(st, st', m, o, r.key, t);
  }

  lemma ReuseLists(st: Layout, o: nat, r: Rec, t: string)
    requires ListsOk(st, {o}) && o in st.recs && Unused(st, r.key) && KeyText(r.key)
    requires |st.heads| == NLISTS && r.ptr == st.heads[Hash(r.key) + 1]
    ensures ListsOk(LinkFront(st, Hash(r.key) + 1, o, r, t), {})
  {
    hide Hash, KeyText, Linked, NoDup, Owns, RecLen;
    var l := Hash(r.key) + 1;
    assert KeyFits(r.key, l);
    forall p | p in st.lists[l] ensures p in st.recs && st.recs[p].key != r.key {
      ListMember(st, {o}, l, p);
    }
    LinkFrontOk(st, l, o, r, t);
  }

  lemma ListMember(st: Layout, loose: set<nat>, l: nat, p: nat)
    requires ListsOk(st, loose) && l < NLISTS && p in st.lists[l]
    ensures p in st.recs && p in st.loc && p in st.text && st.loc[p] == l
    ensures l > 0 ==> OnChain(st, p)
  {
    hide KeyFits;
    assert ListOk(st, l);
    var i :| 0 <= i < |st.lists[l]| && st.lists[l][i] == p;
  }

  ghost function Appended(st: Layout, l: nat, o: nat, r: Rec, t: string): Layout
    requires l < |st.lists| && l < |st.heads|
  {
    LinkFront(st, l, o, r, t).(offs := st.offs + [o])
  }

  lemma AppendLists(st: Layout, o: nat, r: Rec, t: string)
    requires ListsOk(st, {}) && 0 < o && o !in st.recs && Unused(st, r.key) && KeyText(r.key)
    requires |st.heads| == NLISTS && r.ptr == st.heads[Hash(r.key) + 1]
    ensures ListsOk(Appended(st, Hash(r.key) + 1, o, r, t), {})
  {
    hide Hash, KeyText, Linked, NoDup, Owns, RecLen;
    var l := Hash(r.key) + 1;
    assert KeyFits(r.key, l);
    forall p | p in st.lists[l] ensures p in st.recs && st.recs[p].key != r.key {
      ListMember(st, {}, l, p);
    }
    LinkFrontOk(st, l, o, r, t);
    OffsIrrelevant(LinkFront(st, l, o, r, t), st.offs + [o]);
  }

  lemma OffsIrrelevant(st: Layout, offs: seq<nat>)
    requires ListsOk(st, {})
    ensures ListsOk(st.(offs := offs), {})
  {
    hide KeyFits, Linked, NoDup, Owns, Contents;
    var st' := st.(offs := offs);
    forall l | 0 <= l < NLISTS ensures ListOk(st', l) { assert ListOk(st, l); }
  }

  lemma AppendMap(st: Layout, m: map<string, string>, l: nat, o: nat, r: Rec, t: string)
    requires ListsOk(st, {}) && o !in st.recs && 0 < l < NLISTS && Represents(st, m) && Unused(st, r.key)
    ensures Represents(Appended(st, l, o, r, t), m[r.key := t])
  {
    hide ListOk;
    LinkFrontMap(st, m, l, o, r, t);
    var a, b := LinkFront(st, l, o, r, t), Appended(st, l, o, r, t);
    forall p ensures SameChained(a, b, p) { }
    RepSame(a, b, m[r.key := t]);
  }

  lemma TextIrrelevant(st: Layout, o: nat, t: string)
    requires ListsOk(st, {}) && o in st.text
    ensures ListsOk(st.(text := st.text[o := t]), {})
  {
    hide KeyFits, Linked, NoDup, Owns, Contents;
    var st' := st.(text := st.text[o := t]);
    forall l | 0 <= l < NLISTS ensures ListOk(st', l) { assert ListOk(st, l); }
  }

  // replacing the data of a chained record
  lemma ReplaceMap(st: Layout, m: map<string, string>, o: nat, t: string)
    requires ListsOk(st, {}) && Represents(st, m) && OnChain(st, o)
    ensures ListsOk(st.(text := st.text[o := t]), {})
    ensures Represents(st.(text := st.text[o := t]), m[st.recs[o].key := t])
  {
    hide KeyFits, ListOk, Represents;
    var st' := st.(text := st.text[o := t]);
    assert ListsOk(st', {}) by { TextIrrelevant(st, o, t); }
    KeyPresent(st, m, o);
    forall p | p != o ensures SameChained(st, st', p) { }
    RepPut(st, st', m, o, st.recs[o].key, t);
  }

  lemma UnlinkKeeps(st: Layout, l: nat, i: nat)
    requires l < |st.lists| && l < |st.heads| && ListedAt(st, l, i)
    ensures var o := st.lists[l][i];
            o in Unlink(st, l, i).recs && Unlink(st, l, i).recs[o] == st.recs[o]
  {
  }

  lemma BodyNoPtr(r: Rec, p: nat)
    ensures Body(r) == Body(r.(ptr := p))
  {
  }

  lemma AppendedParts(st: Layout, l: nat, o: nat, r: Rec, t: string)
    requires l < |st.lists| && l < |st.heads|
    ensures var st' := Appended(st, l, o, r, t);
            st'.heads == st.heads[l := o] && st'.recs == st.recs[o := r] && st'.text == st.text[o := t]
              && st'.offs == st.offs + [o]
  {
  }

  lemma LinkFrontParts(st: Layout, l: nat, o: nat, r: Rec, t: string)
    requires l < |st.lists| && l < |st.heads|
    ensures var st' := LinkFront(st, l, o, r, t);
            st'.heads == st.heads[l := o] && st'.recs == st.recs[o := r] && st'.text == st.text[o := t]
              && st'.offs == st.offs
  {
  }

  // the crux of reuse: with the key's length and the data region unchanged, so is the record's length
  lemma RefitLength(q: Rec, r: Rec)
    requires ValidRec(q) && KeyText(r.key) && r.ptr <= PTR_MAX
    requires |r.key| == |q.key| && r.datoff == q.datoff && r.datlen == q.datlen
    ensures ValidRec(r) && RecLen(r) == RecLen(q)
  {
  }

  lemma DatInside(d: string, recs: map<nat, Rec>, text: map<nat, string>, o: nat)
    requires DatImage(d, recs, text) && o in recs
    ensures recs[o].datoff + recs[o].datlen <= |d| && 0 < recs[o].datlen
    ensures o in text && text[o] == d[recs[o].datoff..recs[o].datoff + recs[o].datlen - 1]
  {
    var r := recs[o];
    assert DatAt(d, r, text[o]);
    assert d[r.datoff..r.datoff + r.datlen - 1] == d[r.datoff..r.datoff + r.datlen][..r.datlen - 1];
  }

  lemma LinkListed(f: string, st: Layout, l: nat, i: nat)
    requires LinkReads(f, st, l, i) && i < |st.lists[l]|
    ensures ListedAt(st, l, i)
  {
  }

  lemma ChainListed(st: Layout, l: nat, i: nat)
    requires 0 < l < NLISTS && ListedAt(st, l, i)
    ensures OnChain(st, st.lists[l][i])
  {
  }

  // after the first fit was unlinked, everything a reuse needs holds
  lemma FreeTaken(st: Layout, m: map<string, string>, i: nat, key: string)
    requires ListsOk(st, {}) && Represents(st, m) && Unused(st, key) && ListedAt(st, 0, i)
    ensures var o, st' := st.lists[0][i], Unlink(st, 0, i);
            ListsOk(st', {o}) && Represents(st', m) && Unused(st', key)
    ensures |st.heads| == |Unlink(st, 0, i).heads|
            && forall l | 0 < l < |st.heads| :: Unlink(st, 0, i).heads[l] == st.heads[l]
  {
    hide ListOk, KeyFits;
    UnlinkOk(st, 0, i);
    FreeUnlinkMap(st, m, i, key);
  }

  // ---- sequential scan ----

  // the bytes at the start of record n are that record, and the next record starts after them
  ghost predicate OffsetReads(f: string, d: string, st: Layout, n: nat) {
    && n < |st.offs| && st.offs[n] in st.recs && st.offs[n] in st.text
    && var r := st.recs[st.offs[n]];
       && ReadRec(f, st.offs[n]) == Ok(r.ptr, r.key, r.datoff, r.datlen, |Body(r)|)
       && st.offs[n] + PTR_SZ + IDXLEN_SZ + |Body(r)| == IdxStart(st.offs, n + 1, |f|)
       && 0 < r.datlen && r.datoff + r.datlen <= |d|
       && st.text[st.offs[n]] == d[r.datoff..r.datoff + r.datlen - 1]
  }

  lemma OffsetRead(f: string, d: string, st: Layout, n: nat)
    requires IdxImage(f, st.heads, st.recs) && DatImage(d, st.recs, st.text) && Tiles(st.offs, st.recs, |f|, |d|)
    requires n < |st.offs|
    ensures OffsetReads(f, d, st, n)
  {
    hide ReadRec, Body;
    assert TileAt(st.offs, st.recs, |f|, n);
    RecReads(f, st.heads, st.recs, st.offs[n]);
    DatInside(d, st.recs, st.text, st.offs[n]);
  }

  lemma OffsStored(st: Layout, idxEnd: nat, datEnd: nat)
    requires Tiles(st.offs, st.recs, idxEnd, datEnd) && ListsOk(st, {})
    ensures forall i | 0 <= i < |st.offs| :: st.offs[i] in st.recs && st.offs[i] in st.text
  {
    hide ListOk, TileAt, Held;
  }

  // key and data of the records from position n on, in file order, blank keys skipped
  ghost function LiveFrom(st: Layout, n: nat): seq<(string, string)>
    requires forall i | 0 <= i < |st.offs| :: st.offs[i] in st.recs && st.offs[i] in st.text
    decreases |st.offs| - n
  {
    if n >= |st.offs| then []
    else
      var o := st.offs[n];
      (if Blank(st.recs[o].key) then [] else [(st.recs[o].key, st.text[o])]) + LiveFrom(st, n + 1)
  }

  lemma {:induction false} OffsIncrease(st: Layout, idxEnd: nat, datEnd: nat, i: nat, j: nat)
    requires Tiles(st.offs, st.recs, idxEnd, datEnd) && i < j < |st.offs|
    ensures st.offs[i] < st.offs[j]
  {
    assert TileAt(st.offs, st.recs, idxEnd, j - 1);
    if i < j - 1 { OffsIncrease(st, idxEnd, datEnd, i, j - 1); }
  }

  // a free record's key is blank
  lemma FreeIsBlank(st: Layout, o: nat)
    requires ListsOk(st, {}) && o in st.recs
    ensures Blank(st.recs[o].key) || OnChain(st, o)
  {
    hide Hash, Linked, NoDup, Owns;
    var l := st.loc[o];
    assert ListOk(st, l);
    var i :| 0 <= i < |st.lists[l]| && st.lists[l][i] == o;
    assert KeyFits(st.recs[o].key, l);
  }

  lemma {:induction false} LiveElement(st: Layout, n: nat, k: nat) returns (i: nat)
    requires forall i | 0 <= i < |st.offs| :: st.offs[i] in st.recs && st.offs[i] in st.text
    requires k < |LiveFrom(st, n)|
    ensures n <= i < |st.offs| && !Blank(st.recs[st.offs[i]].key)
    ensures LiveFrom(st, n)[k] == (st.recs[st.offs[i]].key, st.text[st.offs[i]])
    decreases |st.offs| - n
  {
    if Blank(st.recs[st.offs[n]].key) {
      i := LiveElement(st, n + 1, k);
    } else if k == 0 {
      i := n;
    } else {
      i := LiveElement(st, n + 1, k - 1);
    }
  }

  lemma {:induction false} LiveCovers(st: Layout, n: nat, i: nat)
    requires forall i | 0 <= i < |st.offs| :: st.offs[i] in st.recs && st.offs[i] in st.text
    requires n <= i < |st.offs| && !Blank(st.recs[st.offs[i]].key)
    ensures (st.recs[st.offs[i]].key, st.text[st.offs[i]]) in LiveFrom(st, n)
    decreases |st.offs| - n
  {
    if n < i { LiveCovers(st, n + 1, i); }
  }

  ghost predicate DistinctKeys(s: seq<(string, string)>) {
    forall i, j | 0 <= i < j < |s| :: s[i].0 != s[j].0
  }

  lemma {:induction false} LiveDistinct(st: Layout, idxEnd: nat, datEnd: nat, n: nat)
    requires ListsOk(st, {}) && Tiles(st.offs, st.recs, idxEnd, datEnd)
    requires forall i | 0 <= i < |st.offs| :: st.offs[i] in st.recs && st.offs[i] in st.text
    ensures DistinctKeys(LiveFrom(st, n))
    decreases |st.offs| - n
  {
    hide ListsOk, Tiles, Blank;
    if n < |st.offs| {
      LiveDistinct(st, idxEnd, datEnd, n + 1);
      var o, rest := st.offs[n], LiveFrom(st, n + 1);
      if !Blank(st.recs[o].key) {
        forall k | 0 <= k < |rest| ensures rest[k].0 != st.recs[o].key {
          var i := LiveElement(st, n + 1, k);
          OffsIncrease(st, idxEnd, datEnd, n, i);
          FreeIsBlank(st, o);
          FreeIsBlank(st, st.offs[i]);
          if rest[k].0 == st.recs[o].key { KeyUnique(st, o, st.offs[i]); }
        }
      }
    }
  }

  // a full scan lists the keys of the map with their data, once each, but leaves out blank keys,
  // which look like those of free records
  lemma LiveIsMap(st: Layout, idxEnd: nat, datEnd: nat, m: map<string, string>)
    requires ListsOk(st, {}) && Tiles(st.offs, st.recs, idxEnd, datEnd) && Represents(st, m)
    requires forall i | 0 <= i < |st.offs| :: st.offs[i] in st.recs && st.offs[i] in st.text
    ensures DistinctKeys(LiveFrom(st, 0))
    ensures forall k, v :: (k, v) in LiveFrom(st, 0) <==> k in m && m[k] == v && !Blank(k)
  {
    hide ListsOk, Blank;
    var live := LiveFrom(st, 0);
    LiveDistinct(st, idxEnd, datEnd, 0);
    forall k, v ensures (k, v) in live <==> k in m && m[k] == v && !Blank(k) {
      if (k, v) in live {
        var j :| 0 <= j < |live| && live[j] == (k, v);
        var i := LiveElement(st, 0, j);
        FreeIsBlank(st, st.offs[i]);
      }
      if k in m && m[k] == v && !Blank(k) {
        var o :| OnChain(st, o) && st.recs[o].key == k;
        assert o in st.offs;
        var i :| 0 <= i < |st.offs| && st.offs[i] == o;
        LiveCovers(st, 0, i);
      }
    }
  }
}
