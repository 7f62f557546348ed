/**
 The database handle and its operations, each statement in the order of the program, over the
 bytes of the two files.  Locks do nothing when one process runs alone and are omitted here;
 module DbProcesses has them.
 */
module DbFile {
  import opened Common
  import opened DbCodec
  import opened DbLayout

  datatype Flag = DbInsert | DbReplace | DbStore | DbOther

  // the record an append would write
  function NewRec(datEnd: nat, key: string, data: string): Rec { Rec(0, key, datEnd, |data| + 1) }

  // it fits the format; only an empty key can make it too short
  predicate RoomFor(idxEnd: nat, datEnd: nat, key: string, data: string) {
    && idxEnd <= PTR_MAX
    && IDXLEN_MIN <= |Body(NewRec(datEnd, key, data))| <= IDXLEN_MAX
  }

  // the record of this key, whose data is at datoff, is at offset o
  ghost predicate HoldsRec(f: string, o: nat, ptr: nat, key: string, datoff: nat, data: string) {
    RecAt(f, o, Rec(ptr, key, datoff, |data| + 1))
  }

  // a free record that can be reused for a key and data of these lengths
  predicate SizesFit(recs: map<nat, Rec>, p: nat, keylen: nat, len: nat) {
    p in recs && |recs[p].key| == keylen && recs[p].datlen == len
  }

  ghost predicate SomeFree(st: Layout, keylen: nat, len: nat) {
    st.lists != [] && exists p | p in st.lists[0] :: SizesFit(st.recs, p, keylen, len)
  }

  // the call writes the key into a record
  predicate Puts(m: map<string, string>, key: string, flag: Flag) { key !in m && (flag == DbInsert || flag == DbStore) }

  // the call appends a record: a new key for which no free record fits, or data of another length
  ghost predicate Appends(st: Layout, m: map<string, string>, key: string, data: string, flag: Flag) {
    || (Puts(m, key, flag) && !SomeFree(st, |key|, |data| + 1))
    || (key in m && (flag == DbReplace || flag == DbStore) && |data| != |m[key]|)
  }

  class DB {
    var idx: string      // contents of the index file
    var dat: string      // contents of the data file
    var idxpos: nat      // file offset of the index descriptor
    var idxbuf: string   // the key of the record read last
    var datbuf: string
    var idxoff: nat
    var idxlen: nat
    var datoff: nat
    var datlen: nat
    var ptrval: int
    var ptroff: nat
    var chainoff: nat
    ghost var st: Layout
    ghost var m: map<string, string>

    ghost predicate Image()
      reads this`idx, this`dat, this`st
    {
      match st
      case Layout(heads, recs, text, offs, _, _) =>
        IdxImage(idx, heads, recs) && DatImage(dat, recs, text) && Tiles(offs, recs, |idx|, |dat|)
    }

    ghost predicate Valid()
      reads this`idx, this`dat, this`st, this`m
    {
      match st
      case Layout(_, _, _, _, _, _) => Image() && ListsOk(st, {}) && Represents(st, m)
    }

    // the part of db_open that initialises a newly created index file
    constructor ()
      ensures Valid() && m == map[] && st.recs == map[] && |idx| == HEADER && dat == ""
      ensures |st.lists| == NLISTS && st.lists[0] == []
      // 138 fields that read "      0", and a newline
      ensures forall l | 0 <= l < NLISTS :: idx[HeadAt(l)..HeadAt(l) + 7] == "      0"
      ensures idx[HEADER - 1] == '\n'
    {
      RecordText();
      var hash := "";
      var i := 0;
      while i < NHASH + 1
        invariant 0 <= i <= NHASH + 1
        invariant |hash| == HeadAt(i)
        invariant forall l | 0 <= l < i :: hash[HeadAt(l)..HeadAt(l) + 7] == Pad(PTR_SZ, 0)
      {
        PtrFieldFits(0);
        ghost var before := hash;
        hash := hash + Pad(PTR_SZ, 0);
        assert hash[HeadAt(i)..HeadAt(i) + 7] == Pad(PTR_SZ, 0);
        forall l | 0 <= l < i ensures hash[HeadAt(l)..HeadAt(l) + 7] == Pad(PTR_SZ, 0) {
          assert hash[HeadAt(l)..HeadAt(l) + 7] == before[HeadAt(l)..HeadAt(l) + 7];
        }
        i := i + 1;
      }
      ghost var before := hash;
      hash := hash + "\n";
      ghost var st0 := Layout(seq(NLISTS, _ => 0), map[], map[], [], seq(NLISTS, _ => []), map[]);
      forall l | 0 <= l < NLISTS ensures hash[HeadAt(l)..HeadAt(l) + 7] == Pad(PTR_SZ, 0) {
        assert hash[HeadAt(l)..HeadAt(l) + 7] == before[HeadAt(l)..HeadAt(l) + 7];
      }
      forall l | 0 <= l < NLISTS ensures ListOk(st0, l) { }
      idx, dat := hash, "";
      idxpos, idxoff, idxlen, datoff, datlen, ptrval, ptroff, chainoff := HEADER, HEADER, 0, 0, 0, 0, 0, 0;
      idxbuf, datbuf := "", "";
      st, m := st0, map[];
    }

    // the part of db_open for files that are there already: nothing is written
    constructor Open(idx: string, dat: string, ghost st: Layout, ghost m: map<string, string>)
      requires Stored(idx, dat, st, m)
      ensures Valid() && this.idx == idx && this.dat == dat && this.m == m
    {
      hide ListsOk, IdxImage, DatImage, Tiles, Represents;
      this.idx, this.dat, this.st, this.m := idx, dat, st, m;
      idxpos, idxoff, idxlen, datoff, datlen, ptrval, ptroff, chainoff := HEADER, HEADER, 0, 0, 0, 0, 0, 0;
      idxbuf, datbuf := "", "";
    }

    // ---- pointer fields ----

    method ReadPtr(off: nat) returns (v: int)
      requires off + PTR_SZ <= |idx|
      modifies this`idxpos
      ensures v == Atol(idx[off..off + PTR_SZ])
    {
      var asciiptr := idx[off..off + PTR_SZ];
      idxpos := off + PTR_SZ;
      v := Atol(asciiptr);
    }

    method WritePtr(off: nat, v: nat)
      requires off + PTR_SZ <= |idx| && v <= PTR_MAX
      modifies this`idx, this`idxpos
      ensures idx == Write(old(idx), off, Pad(PTR_SZ, v))
    {
      idx := Write(idx, off, Pad(PTR_SZ, v));
      idxpos := off + PTR_SZ;
    }

    // ---- records ----

    // off == 0 means: read from the current file offset; -1 at end of file
    method ReadIdx(off: nat) returns (ptr: int)
      requires var at := if off == 0 then idxpos else off;
               ReadRec(idx, at).Ok? || (off == 0 && ReadRec(idx, at) == Err(Eof))
      modifies this`idxpos, this`idxoff, this`ptrval, this`idxlen, this`idxbuf, this`datoff, this`datlen
      ensures var at := if off == 0 then old(idxpos) else off;
              match ReadRec(idx, at)
              case Err(_) => ptr == -1 && idxpos == old(idxpos)
              case Ok(p, k, o, n, len) =>
                && ptr == ptrval == p && idxbuf == k && datoff == o && datlen == n
                && idxoff == at && idxlen == len && idxpos == at + PTR_SZ + IDXLEN_SZ + len
      // if a record was written there, these are its fields, and the next read starts behind it
      ensures var at := if off == 0 then old(idxpos) else off;
              forall r | RecAt(idx, at, r) ::
                ptr == ptrval == r.ptr && idxbuf == r.key && datoff == r.datoff && datlen == r.datlen
                  && idxpos == at + RecLen(r)
    {
      hide ReadRec, RecAt, Body;
      ReadsWritten(idx, if off == 0 then idxpos else off);
      idxoff := if off == 0 then idxpos else off;
      match ReadRec(idx, idxoff)
      case Err(_) =>
        ptr := -1;
      case Ok(p, key, o, n, len) =>
        ptr, ptrval, idxlen, idxpos := p, p, len, idxoff + PTR_SZ + IDXLEN_SZ + len;
        idxbuf, datoff, datlen := key, o, n;
    }

    static lemma ReadsWritten(f: string, at: nat)
      ensures forall r | RecAt(f, at, r) :: ReadRec(f, at) == Ok(r.ptr, r.key, r.datoff, r.datlen, |Body(r)|)
    {
      hide ReadRec, Body, Enc, ValidRec;
      forall r | RecAt(f, at, r) ensures ReadRec(f, at) == Ok(r.ptr, r.key, r.datoff, r.datlen, |Body(r)|) {
        ReadWritten(f, at, r);
      }
    }

    method ReadDat() returns (data: string)
      requires 0 < datlen && datoff + datlen <= |dat|
      modifies this`datbuf
      ensures data == datbuf == dat[datoff..datoff + datlen - 1]
    {
      datbuf := dat[datoff..datoff + datlen];
      datbuf := datbuf[..datlen - 1];
      return datbuf;
    }

    // write data and a newline at an offset, or at the end of the file
    method WriteDat(data: string, off: nat, append: bool)
      requires append || off <= |dat|
      modifies this`dat, this`datoff, this`datlen
      ensures datoff == (if append then |old(dat)| else off) && datlen == |data| + 1
      ensures dat == Write(old(dat), datoff, data + ['\n'])
      // the file grows by what does not fit; a record of this region now reads the data, and one of
      // any other region reads what it read before
      ensures |dat| == if datoff + datlen <= |old(dat)| then |old(dat)| else datoff + datlen
      ensures forall r: Rec | r.datoff == datoff && r.datlen == datlen :: DatAt(dat, r, data)
      ensures forall r, t | DatAt(old(dat), r, t)
              && (r.datoff + r.datlen <= datoff || datoff + datlen <= r.datoff) :: DatAt(dat, r, t)
    {
      ghost var at := if append then |dat| else off;
      WritePuts(dat, at, data + ['\n']);
      forall r, t | DatAt(dat, r, t) && (r.datoff + r.datlen <= at || at + |data| + 1 <= r.datoff)
        ensures DatAt(Write(dat, at, data + ['\n']), r, t)
      {
        WriteKeeps(dat, at, data + ['\n'], r.datoff, r.datoff + r.datlen);
      }
      datoff := if append then |dat| else off;
      datlen := |data| + 1;
      dat := Write(dat, datoff, data + ['\n']);
    }

    // write the record (ptr, key, datoff, datlen) at an offset, or at the end of the file
    method WriteIdx(key: string, off: nat, append: bool, ptr: nat)
      requires append || off <= |idx|
      requires ptr <= PTR_MAX && IDXLEN_MIN <= |Body(Rec(ptr, key, datoff, datlen))| <= IDXLEN_MAX
      modifies this`idx, this`idxpos, this`idxoff, this`ptrval, this`idxbuf
      ensures idxoff == (if append then |old(idx)| else off)
      ensures idx == Write(old(idx), idxoff, Enc(Rec(ptr, key, datoff, datlen)))
    {
      ptrval := ptr;
      idxbuf := key + [SEP] + Dec(datoff) + [SEP] + Dec(datlen) + ['\n'];
      var asciiptrlen := Pad(PTR_SZ, ptr) + Pad(IDXLEN_SZ, |idxbuf|);
      idxoff := if append then |idx| else off;
      idx := Write(idx, idxoff, asciiptrlen + idxbuf);
      idxpos := idxoff + |asciiptrlen + idxbuf|;
    }

    // ---- searching ----

    // record i of list l is the one whose fields the handle holds
    ghost predicate Loaded(l: nat, i: nat)
      reads this
    {
      && l < |st.lists| && i < |st.lists[l]| && st.lists[l][i] == idxoff && idxoff in st.recs
      && st.recs[idxoff] == Rec(st.recs[idxoff].ptr, idxbuf, datoff, datlen)
      && ptrval == st.recs[idxoff].ptr
    }

    lemma AtLink(l: nat, i: nat)
      requires Valid() && l < NLISTS
      ensures |st.lists| == NLISTS
      ensures i <= |st.lists[l]| ==> LinkReads(idx, st, l, i)
    {
      if i <= |st.lists[l]| { Listed(idx, st, {}, l, i); }
    }

    // the search stopped at record i of the key's chain
    ghost predicate Found(key: string, i: nat)
      reads this
    {
      Loaded(Hash(key) + 1, i) && idxbuf == key && ptroff == LinkLoc(st, Hash(key) + 1, i)
    }

    method FindAndLock(key: string) returns (rc: int, ghost i: nat)
      requires Valid()
      modifies this`chainoff, this`ptroff, this`idxpos, this`idxoff, this`ptrval, this`idxlen, this`idxbuf,
               this`datoff, this`datlen
      ensures rc == 0 || rc == -1
      ensures chainoff == HeadAt(Hash(key) + 1)
      ensures rc == 0 ==> Found(key, i)
      ensures rc == -1 ==> NotOnChain(st, key)
    {
      hide Valid, ReadRec, Atol, Hash, Body, KeyFits;
      ghost var l := Hash(key) + 1;
      AtLink(l, 0);
      ghost var path := st.lists[l];
      chainoff := HeadAt(Hash(key)) + PTR_SZ;
      ptroff := chainoff;
      i := 0;
      var offset := ReadPtr(ptroff);
      while offset != 0
        invariant Valid() && chainoff == HeadAt(l)
        invariant l < |st.lists| && st.lists[l] == path && i <= |path|
        invariant offset == if i < |path| then path[i] else 0
        invariant i < |path| ==> offset > 0
        invariant ptroff == LinkLoc(st, l, i)
        invariant forall k | 0 <= k < i :: path[k] in st.recs && st.recs[path[k]].key != key
        decreases |path| - i
      {
        AtLink(l, i);
        AtLink(l, i + 1);
        var nextoffset := ReadIdx(offset);
        if idxbuf == key { break; }
        ptroff := offset;
        offset := nextoffset;
        i := i + 1;
      }
      rc := if offset == 0 then -1 else 0;
    }

    lemma PresentAt(key: string, i: nat)
      requires Valid() && Found(key, i)
      ensures KeyText(key) && key in m && OnChain(st, idxoff) && m[key] == st.text[idxoff]
      ensures 0 < datlen && datoff + datlen <= |dat| && m[key] == dat[datoff..datoff + datlen - 1]
    {
      hide Hash, ListsOk, IdxImage, DatImage, Represents, Tiles, LinkReads, ReadRec, Atol, Body, KeyText;
      AtLink(Hash(key) + 1, i);
      assert ListedAt(st, Hash(key) + 1, i) by { LinkListed(idx, st, Hash(key) + 1, i); }
      assert KeyFits(key, Hash(key) + 1);
      ChainListed(st, Hash(key) + 1, i);
      KeyPresent(st, m, idxoff);
      DatInside(dat, st.recs, st.text, idxoff);
    }

    lemma AbsentAt(key: string)
      requires Valid() && NotOnChain(st, key)
      ensures key !in m && Unused(st, key)
    {
      KeyAbsent(st, m, key);
    }

    method Fetch(key: string) returns (ptr: Option<string>)
      requires Valid()
      modifies this`chainoff, this`ptroff, this`idxpos, this`idxoff, this`ptrval, this`idxlen, this`idxbuf,
               this`datoff, this`datlen, this`datbuf
      ensures Valid()
      ensures ptr == if key in m then Some(m[key]) else None
    {
      hide Valid, Hash, Found, NotOnChain;
      var rc, i := FindAndLock(key);
      if rc < 0 {
        AbsentAt(key);
        ptr := None;
      } else {
        PresentAt(key, i);
        var data := ReadDat();
        ptr := Some(data);
      }
    }

    // ---- deleting ----

    // fill the data buffer and the key with blanks
    method BlankBuffers()
      requires datlen > 0
      modifies this`datbuf, this`idxbuf
      ensures datbuf == Spaces(datlen - 1) && idxbuf == Spaces(|old(idxbuf)|)
    {
      var blanks := "";
      while |blanks| < datlen - 1
        invariant |blanks| <= datlen - 1 && blanks == Spaces(|blanks|)
      {
        blanks := blanks + [' '];
      }
      var key, k := idxbuf, 0;
      while k < |key|
        invariant k <= |key| == |idxbuf|
        invariant forall j | 0 <= j < k :: key[j] == ' '
      {
        key := key[k := ' '];
        k := k + 1;
      }
      datbuf, idxbuf := blanks, key;
    }

    // blank the data and the key of the record found, put it on the free list, unlink it
    method DoDelete(ghost l: nat, ghost i: nat)
      requires Valid() && 0 < l < NLISTS && Loaded(l, i) && ptroff == LinkLoc(st, l, i)
      modifies this`idx, this`dat, this`idxpos, this`idxbuf, this`datbuf, this`idxoff, this`datoff, this`datlen,
               this`ptrval, this`st, this`m
      ensures Valid() && |idx| == |old(idx)| && |dat| == |old(dat)|
      ensures m == old(m) - {old(idxbuf)}
      ensures Unused(st, old(idxbuf))
    {
      hide ListsOk, IdxImage, DatImage, Represents, Tiles, Write, Enc, Pad, Atol, RecLen, ValidRec, Deleted, Body,
           KeyFits, ReadRec;
      ghost var o, r := st.lists[l][i], st.recs[st.lists[l][i]];
      AtLink(l, i);
      BeforeDelete(idx, st, l, i);
      DatInside(dat, st.recs, st.text, o);
      ghost var r' := Blanked(r, st.heads[0]);
      DeletedIdx(idx, st, l, i);
      DeletedDat(dat, st, l, i);
      DeletedTiles(st, |idx|, |dat|, l, i);
      DeletedOk(st, m, l, i);
      assert Body(r') == Body(Rec(st.heads[0], r'.key, r.datoff, r.datlen));

      BlankBuffers();
      assert idxbuf == Spaces(|r.key|);
      WriteDat(datbuf, datoff, false);
      var freeptr := ReadPtr(HeadAt(0));
      var saveptr := ptrval;
      assert Rec(freeptr, idxbuf, datoff, datlen) == r';
      WriteIdx(idxbuf, idxoff, false, freeptr);
      WritePtr(HeadAt(0), idxoff);
      WritePtr(ptroff, saveptr);
      m := m - {r.key};
      st := Deleted(st, l, i);
    }

    method Delete(key: string) returns (rc: int)
      requires Valid()
      modifies this
      ensures Valid()
      ensures rc == if key in old(m) then 0 else -1
      ensures m == old(m) - {key}
    {
      hide Valid, Hash, NotOnChain, Unused;
      var found, i := FindAndLock(key);
      if found == 0 {
        PresentAt(key, i);
        DoDelete(Hash(key) + 1, i);
        rc := 0;
      } else {
        AbsentAt(key);
        rc := -1;
      }
    }

    // ---- storing ----

    // record i of the free list is the first that fits, and was unlinked from it
    twostate predicate Taken(i: nat, keylen: nat, len: nat)
      reads this
    {
      && |old(st).lists| == |old(st).heads| == NLISTS && ListedAt(old(st), 0, i)
      && st == Unlink(old(st), 0, i) && idxoff == old(st).lists[0][i]
      && idxoff in st.recs && 0 < idxoff <= PTR_MAX && |st.recs[idxoff].key| == keylen
        && st.recs[idxoff].datlen == len == datlen
      && st.recs[idxoff].datoff == datoff
      && (forall k | 0 <= k < i :: !SizesFit(old(st).recs, old(st).lists[0][k], keylen, len))
      && SizesFit(old(st).recs, idxoff, keylen, len)
      && Image()
    }

    // first fit over the free list; only an exact fit of both lengths is taken
    method FindFree(keylen: nat, len: nat) returns (rc: int, ghost i: nat)
      requires Valid()
      modifies this`idx, this`idxpos, this`idxoff, this`ptrval, this`idxlen, this`idxbuf, this`datoff, this`datlen,
               this`st
      ensures rc == 0 || rc == -1
      ensures |idx| == |old(idx)|
      ensures rc == 0 ==> Taken(i, keylen, len)
      ensures rc == -1 ==> idx == old(idx) && st == old(st)
      ensures rc == 0 <==> SomeFree(old(st), keylen, len)
    {
      hide Valid, ReadRec, Atol, Hash, Body, KeyFits, Pad, Write, ListsOk, IdxImage, Tiles, DatImage;
      AtLink(0, 0);
      ghost var path := st.lists[0];
      var saveoffset := HeadAt(0);
      i := 0;
      var offset := ReadPtr(saveoffset);
      while offset != 0
        invariant Valid() && st == old(st) && idx == old(idx)
        invariant |st.lists| == NLISTS && st.lists[0] == path && i <= |path|
        invariant offset == if i < |path| then path[i] else 0
        invariant i < |path| ==> offset > 0
        invariant saveoffset == LinkLoc(st, 0, i)
        invariant forall k | 0 <= k < i :: !SizesFit(st.recs, path[k], keylen, len)
        decreases |path| - i
      {
        AtLink(0, i);
        AtLink(0, i + 1);
        var nextoffset := ReadIdx(offset);
        if |idxbuf| == keylen && datlen == len {
          assert SizesFit(st.recs, path[i], keylen, len);
          break;
        }
        saveoffset := offset;
        offset := nextoffset;
        i := i + 1;
      }
      if offset == 0 {
        rc := -1;
      } else {
        AtLink(0, i);
        TakeFree(saveoffset, i);
        rc := 0;
      }
    }

    // bypass record i of the free list, the one just read
    method TakeFree(saveoffset: nat, ghost i: nat)
      requires Valid() && Loaded(0, i) && saveoffset == LinkLoc(st, 0, i)
      requires forall k | 0 <= k < i :: !SizesFit(st.recs, st.lists[0][k], |idxbuf|, datlen)
      modifies this`idx, this`idxpos, this`st
      ensures |idx| == |old(idx)| && Taken(i, |idxbuf|, datlen)
    {
      hide Atol, Hash, Body, KeyFits, Pad, Write, ListsOk, IdxImage, Tiles, DatImage, ReadRec, Unlink;
      AtLink(0, i);
      Heads();
      UnlinkIdx(idx, st, 0, i);
      UnlinkDat(dat, st, |idx|, |dat|, 0, i);
      UnlinkKeeps(st, 0, i);
      RecPtrReads(idx, st.heads, st.recs, idxoff);
      WritePtr(saveoffset, ptrval);
      st := Unlink(st, 0, i);
    }

    lemma Heads()
      requires Valid()
      ensures |st.heads| == |st.lists| == NLISTS && ListsOk(st, {}) && Represents(st, m)
      ensures IdxImage(idx, st.heads, st.recs) && DatImage(dat, st.recs, st.text)
              && Tiles(st.offs, st.recs, |idx|, |dat|)
      ensures HEADER <= |idx|
      ensures forall l | 0 <= l < NLISTS :: st.heads[l] <= PTR_MAX
    {
    }

    // both files grew by the new record and its data, and the key's chain starts with the record
    twostate predicate Grown(key: string, data: string)
      reads this
    {
      && |idx| == |old(idx)| + RecLen(NewRec(|old(dat)|, key, data)) && |dat| == |old(dat)| + |data| + 1
      && dat[|old(dat)|..] == data + ['\n']
      && (exists ptr: nat :: HoldsRec(idx, |old(idx)|, ptr, key, |old(dat)|, data))
      && HeadAt(Hash(key) + 1) + 7 <= |idx|
      && idx[HeadAt(Hash(key) + 1)..HeadAt(Hash(key) + 1) + 7] == Pad(PTR_SZ, |old(idx)|)
    }

    // append data and record, then make the record the first of its chain
    method AppendFront(key: string, data: string, ptr: nat)
      requires Valid() && Unused(st, key) && KeyText(key)
      requires DATLEN_MIN <= |data| + 1 <= DATLEN_MAX && RoomFor(|idx|, |dat|, key, data)
      requires chainoff == HeadAt(Hash(key) + 1)
      requires Heads'(Hash(key) + 1) == ptr
      modifies this`idx, this`dat, this`idxpos, this`idxbuf, this`idxoff, this`datoff, this`datlen, this`ptrval,
               this`st, this`m
      ensures Valid() && m == old(m)[key := data] && Grown(key, data)
    {
      hide Valid, Hash, KeyFits, Pad, Write, ListsOk, IdxImage, Tiles, DatImage, Represents, Enc, Appended, KeyText,
           Unused;
      Heads();
      ghost var l, o, r := Hash(key) + 1, |idx|, Rec(ptr, key, |dat|, |data| + 1);
      ghost var recs', st' := st.recs[o := r], Appended(st, l, o, r, data);
      BodyNoPtr(NewRec(|dat|, key, data), ptr);
      assert ValidRec(r);
      AppendRec(idx, st.heads, st.recs, r);
      AppendDat(dat, st.recs, st.text, o, r, data);
      TilesAppend(st.offs, st.recs, |idx|, |dat|, r);
      AppendLists(st, o, r, data);
      AppendMap(st, m, l, o, r, data);
      AppendedParts(st, l, o, r, data);
      WriteDat(data, 0, true);
      assert Rec(ptr, key, datoff, datlen) == r;
      BodyNoPtr(r, ptr);
      WriteIdx(key, 0, true, ptr);
      WriteHead(idx, st.heads, recs', l, o);
      WritePtr(chainoff, idxoff);
      st, m := st', m[key := data];
      assert Valid() by { Assemble(); }
      AppendedBytes(idx, st.heads, st.recs, l, o);
      assert HoldsRec(idx, o, ptr, key, |old(dat)|, data);
    }

    static lemma AppendedBytes(f: string, heads: seq<nat>, recs: map<nat, Rec>, l: nat, o: nat)
      requires IdxImage(f, heads, recs) && o in recs && l < NLISTS && heads[l] == o
      ensures RecAt(f, o, recs[o]) && HeadAt(l) + 7 <= |f| && f[HeadAt(l)..HeadAt(l) + 7] == Pad(PTR_SZ, o)
    {
      hide RecAt, Pad;
    }

    lemma Assemble()
      requires IdxImage(idx, st.heads, st.recs) && DatImage(dat, st.recs, st.text)
               && Tiles(st.offs, st.recs, |idx|, |dat|)
      requires ListsOk(st, {}) && Represents(st, m)
      ensures Valid()
    {
    }

    ghost function Heads'(l: nat): nat
      reads this`st
    {
      if l < |st.heads| then st.heads[l] else 0
    }

    // fill the free record just taken and make it the first of its chain
    method ReuseFront(key: string, data: string, ptr: nat)
      requires Image() && ListsOk(st, {idxoff}) && Represents(st, m) && Unused(st, key) && KeyText(key)
      requires idxoff in st.recs && idxoff <= PTR_MAX && |st.recs[idxoff].key| == |key|
      requires st.recs[idxoff].datlen == |data| + 1 && st.recs[idxoff].datoff == datoff
      requires chainoff == HeadAt(Hash(key) + 1)
      requires Heads'(Hash(key) + 1) == ptr
      modifies this`idx, this`dat, this`idxpos, this`idxbuf, this`idxoff, this`datoff, this`datlen, this`ptrval,
               this`st, this`m
      ensures Valid() && m == old(m)[key := data] && |idx| == |old(idx)| && |dat| == |old(dat)|
    {
      hide Valid, Hash, KeyFits, Pad, Write, ListsOk, IdxImage, Tiles, DatImage, Represents, Enc, KeyText, Unused,
           RecLen, LinkFront, Dec;
      ghost var l, o, t, q := Hash(key) + 1, idxoff, data, st.recs[idxoff];
      ghost var r := Rec(ptr, key, datoff, |data| + 1);
      LooseFacts(o);
      assert ValidRec(r) && RecLen(r) == RecLen(q) by { RefitLength(q, r); }
      WriteDat'(o, data);
      WriteRec(idx, st.heads, st.recs, o, r);
      DatIgnoresPtrAndKey(Write(dat, datoff, data + ['\n']), st.recs, st.text[o := data], o, r);
      TilesKept(st.offs, st.recs, |idx|, |dat|, o, r);
      ReuseLists(st, o, r, data);
      LinkFrontMap(st, m, l, o, r, data);
      LinkFrontParts(st, l, o, r, data);
      ghost var recs', st' := st.recs[o := r], LinkFront(st, l, o, r, data);
      WriteDat(data, datoff, false);
      assert Rec(ptr, key, datoff, datlen) == r;
      WriteIdx(key, idxoff, false, ptr);
      WriteHead(idx, st.heads, recs', l, o);
      WritePtr(chainoff, idxoff);
      st, m := st', m[key := data];
      assert Valid() by { Assemble(); }
    }

    lemma LooseFacts(o: nat)
      requires Image() && ListsOk(st, {o}) && o in st.recs
      ensures |st.heads| == |st.lists| == NLISTS && forall l | 0 <= l < NLISTS :: st.heads[l] <= PTR_MAX
      ensures IdxImage(idx, st.heads, st.recs) && DatImage(dat, st.recs, st.text)
              && Tiles(st.offs, st.recs, |idx|, |dat|)
      ensures HEADER <= |idx| && ValidRec(st.recs[o]) && 0 < o && o + RecLen(st.recs[o]) <= |idx|
      ensures st.recs[o].datoff + st.recs[o].datlen <= |dat|
    {
      assert RecAt(idx, o, st.recs[o]);
      assert DatAt(dat, st.recs[o], st.text[o]);
    }

    lemma WriteDat'(o: nat, t: string)
      requires DatImage(dat, st.recs, st.text) && o in st.recs && |t| + 1 == st.recs[o].datlen
      ensures DatImage(Write(dat, st.recs[o].datoff, t + ['\n']), st.recs, st.text[o := t])
      ensures |Write(dat, st.recs[o].datoff, t + ['\n'])| == |dat|
    {
      DbLayout.WriteDat(dat, st.recs, st.text, o, t);
    }

    // the limits that end the program (err_dump) when they are broken: data length for every call with
    // a known flag, the size of the record when one is appended; a key put into a record is such a text
    method Store(key: string, data: string, flag: Flag) returns (rc: int)
      requires Valid() && (flag != DbOther ==> DATLEN_MIN <= |data| + 1 <= DATLEN_MAX)
      requires Puts(m, key, flag) ==> KeyText(key)
      requires Appends(st, m, key, data, flag) ==> RoomFor(|idx|, |dat|, key, data)
      modifies this
      ensures Valid()
      ensures rc == 0 || rc == 1 || rc == -1
      ensures rc == 1 <==> flag == DbInsert && key in old(m)
      ensures rc == -1 <==> flag == DbOther || (flag == DbReplace && key !in old(m))
      ensures m == if rc == 0 then old(m)[key := data] else old(m)
      ensures if Appends(old(st), old(m), key, data, flag) then Grown(key, data)
              else |idx| == |old(idx)| && |dat| == |old(dat)|
    {
      hide Valid, Hash, KeyText, Body, OnChain, Found, NotOnChain, Unused, RoomFor, SomeFree;
      if flag == DbOther {
        return -1;
      }
      var found, i := FindAndLock(key);
      if found < 0 {
        AbsentAt(key);
        if flag == DbReplace {
          return -1;
        }
        StoreNew(key, data);
      } else {
        PresentAt(key, i);
        if flag == DbInsert {
          return 1;
        }
        StoreOver(key, data, i);
      }
      rc := 0;
    }

    // the branch for a key that is not in the database: the first free record that fits, else append
    method StoreNew(key: string, data: string)
      requires Valid() && KeyText(key) && Unused(st, key) && chainoff == HeadAt(Hash(key) + 1)
      requires DATLEN_MIN <= |data| + 1 <= DATLEN_MAX
      requires !SomeFree(st, |key|, |data| + 1) ==> RoomFor(|idx|, |dat|, key, data)
      modifies this
      ensures Valid() && m == old(m)[key := data]
      ensures if SomeFree(old(st), |key|, |data| + 1) then |idx| == |old(idx)|
              && |dat| == |old(dat)| else Grown(key, data)
    {
      hide Valid, Hash, ListsOk, Represents, KeyText, Body, IdxImage, DatImage, Tiles, Unlink, Unused, Atol, RoomFor,
           SomeFree;
      Heads();
      HeadReads(idx, st.heads, st.recs, Hash(key) + 1);
      var ptr := ReadPtr(chainoff);
      ghost var st0 := st;
      var free, j := FindFree(|key|, |data| + 1);
      if free < 0 {
        AppendFront(key, data, ptr);
      } else {
        FreeTaken(st0, m, j, key);
        ReuseFront(key, data, ptr);
      }
    }

    // the branch for a key that is: same length in place, other lengths by delete and append
    method StoreOver(key: string, data: string, ghost i: nat)
      requires Valid() && KeyText(key) && Found(key, i) && OnChain(st, idxoff) && chainoff == HeadAt(Hash(key) + 1)
      requires DATLEN_MIN <= |data| + 1 <= DATLEN_MAX
      requires |data| + 1 != datlen ==> RoomFor(|idx|, |dat|, key, data)
      modifies this
      ensures Valid() && m == old(m)[key := data]
      ensures if |data| + 1 == old(datlen) then |idx| == |old(idx)| && |dat| == |old(dat)| else Grown(key, data)
    {
      hide Valid, Hash, ListsOk, Represents, KeyText, Body, IdxImage, DatImage, Tiles, Unused, Atol, OnChain, RoomFor;
      if |data| + 1 != datlen {
        DoDelete(Hash(key) + 1, i);
        Heads();
        HeadReads(idx, st.heads, st.recs, Hash(key) + 1);
        var ptr := ReadPtr(chainoff);
        AppendFront(key, data, ptr);
        assert m == (old(m) - {key})[key := data] == old(m)[key := data];
      } else {
        ReplaceDat(key, data);
      }
    }

    // same size data: only the data record is overwritten
    method ReplaceDat(key: string, data: string)
      requires Valid() && OnChain(st, idxoff) && st.recs[idxoff].key == key
      requires st.recs[idxoff].datoff == datoff && st.recs[idxoff].datlen == datlen == |data| + 1
      modifies this`dat, this`datoff, this`datlen, this`st, this`m
      ensures Valid() && m == old(m)[key := data] && |dat| == |old(dat)|
    {
      hide Valid, ListsOk, IdxImage, Tiles, DatImage, Represents, Write, RecLen;
      Heads();
      assert idxoff in st.recs && datoff <= |dat| by { DatInside(dat, st.recs, st.text, idxoff); }
      WriteDat'(idxoff, data);
      ReplaceMap(st, m, idxoff, data);
      WriteDat(data, datoff, false);
      st, m := st.(text := st.text[idxoff := data]), m[key := data];
      assert Valid() by { Assemble(); }
    }

    // ---- sequential scan ----

    // the file offset is at the start of record n, or at the end of the file
    ghost predicate AtRecord(n: nat)
      reads this`idx, this`idxpos, this`st
    {
      n <= |st.offs| && idxpos == IdxStart(st.offs, n, |idx|)
    }

    ghost predicate OffsKnown()
      reads this`st
    {
      forall i | 0 <= i < |st.offs| :: st.offs[i] in st.recs && st.offs[i] in st.text
    }

    method Rewind()
      requires Valid()
      modifies this`idxpos, this`idxoff
      ensures AtRecord(0) && OffsKnown()
    {
      idxoff := HeadAt(NHASH + 1) + 1;
      idxpos := idxoff;
    }

    // what the bytes at the file offset are
    lemma AtOffset(n: nat)
      requires Valid() && AtRecord(n)
      ensures OffsKnown()
      ensures n == |st.offs| ==> ReadRec(idx, idxpos) == Err(Eof)
      ensures n < |st.offs| ==> OffsetReads(idx, dat, st, n)
    {
      hide Valid, ListsOk, Represents, ReadRec, OffsetReads, IdxImage, DatImage, Tiles;
      Heads();
      OffsStored(st, |idx|, |dat|);
      if n < |st.offs| {
        OffsetRead(idx, dat, st, n);
      } else {
        AtEof(idx);
      }
    }

    // the next record whose key is not blank; None at the end of the file
    method NextRec(ghost n: nat) returns (next: Option<(string, string)>, ghost n': nat)
      requires Valid() && AtRecord(n) && OffsKnown()
      modifies this`idxpos, this`idxoff, this`ptrval, this`idxlen, this`idxbuf, this`datoff, this`datlen, this`datbuf
      ensures AtRecord(n') && n <= n' <= |st.offs|
      ensures next == None ==> n' == |st.offs| && LiveFrom(st, n) == []
      ensures next.Some? ==> n < n' && LiveFrom(st, n) == [next.value] + LiveFrom(st, n')
    {
      hide Valid, ReadRec, Body;
      n' := n;
      while true
        invariant Valid() && n <= n' && AtRecord(n') && LiveFrom(st, n) == LiveFrom(st, n')
        decreases |st.offs| - n'
      {
        AtOffset(n');
        var ptr := ReadIdx(0);
        if ptr < 0 {
          return None, n';
        }
        ghost var o := st.offs[n'];
        n' := n' + 1;
        var j := 0;
        while j < |idxbuf| && idxbuf[j] == ' '
          invariant j <= |idxbuf| && forall k | 0 <= k < j :: idxbuf[k] == ' '
        {
          j := j + 1;
        }
        if j < |idxbuf| {
          break;
        }
        assert Blank(st.recs[o].key);
      }
      var data := ReadDat();
      next := Some((idxbuf, data));
    }

    // rewind, then call NextRec until it returns nothing: every entry once, except that a key that
    // is empty or all blanks is taken for a free record and never returned
    method ScanAll() returns (found: seq<(string, string)>)
      requires Valid()
      modifies this`idxpos, this`idxoff, this`ptrval, this`idxlen, this`idxbuf, this`datoff, this`datlen, this`datbuf
      ensures Valid() && OffsKnown() && found == LiveFrom(st, 0)
      ensures DistinctKeys(found)
      ensures forall k, v :: (k, v) in found <==> k in m && m[k] == v && !Blank(k)
    {
      hide Valid, Blank, LiveFrom, AtRecord, DistinctKeys, Tiles, IdxImage, DatImage, Represents, ListsOk;
      Rewind();
      found := [];
      ghost var n := 0;
      var done := false;
      while !done
        invariant Valid() && OffsKnown() && AtRecord(n) && n <= |st.offs|
        invariant found + (if done then [] else LiveFrom(st, n)) == LiveFrom(st, 0)
        decreases !done, |st.offs| - n
      {
        var next;
        next, n := NextRec(n);
        match next {
          case None => done := true;
          case Some(r) => found := found + [r];
        }
      }
      Heads();
      LiveIsMap(st, |idx|, |dat|, m);
    }
  }

  // a blank key is stored and fetched like any other, but a scan does not return it
  method BlankKeyHidden() returns (data: Option<string>, found: seq<(string, string)>)
    ensures data == Some("x") && found == []
  {
    hide DB.Valid, LiveFrom, DistinctKeys;
    var db := new DB();
    DecLength(0, 1);
    DecLength(2, 1);
    DecDigits(0);
    DecDigits(2);
    assert Pow10(1) == 10 * Pow10(0) == 10;
    var rc := db.Store(" ", "x", DbStore);
    data := db.Fetch(" ");
    found := db.ScanAll();
    assert Blank(" ") && db.m == map[" " := "x"];
    if found != [] {
      SomethingIn(found);
      assert false;
    }
  }

  // the bytes on disk after the first store
  method FirstBytes() returns (db: DB)
    ensures db.dat == "ab\n" && |db.idx| == HEADER + 17
    ensures db.idx[HEADER + 7..] == "   6k:0:3\n" && db.idx[HeadAt(108)..HeadAt(108) + 7] == "    967"
  {
    hide DB.Valid, Pad, Hash, SomeFree;
    db := new DB();
    FirstText(0);
    NoFree(db.st, 1, 3);
    var rc := db.Store("k", "ab", DbStore);
    ghost var ptr: nat :| HoldsRec(db.idx, HEADER, ptr, "k", 0, "ab");
    FirstText(ptr);
    assert db.dat[0..] == db.dat;
    FirstTail(db.idx, Rec(ptr, "k", 0, 3));
  }

  lemma NoFree(st: Layout, keylen: nat, len: nat)
    requires st.lists != [] && st.lists[0] == []
    ensures !SomeFree(st, keylen, len)
  {
  }

  lemma FirstText(ptr: nat)
    requires ptr <= PTR_MAX
    ensures Body(Rec(ptr, "k", 0, 3)) == "k:0:3\n" && RecLen(Rec(ptr, "k", 0, 3)) == 17
    ensures Enc(Rec(ptr, "k", 0, 3))[7..] == "   6k:0:3\n" && Pad(PTR_SZ, 967) == "    967" && Hash("k") == 107
  {
    RecordText();
    FirstBody(ptr);
    var r := Rec(ptr, "k", 0, 3);
    assert HashFrom("k", 1, 107) == 107;
    hide Pad, Enc, Body, Dec, HashFrom;
    EncFields(r);
    assert Enc(r)[7..17] == Enc(r)[7..11] + Enc(r)[11..17];
    assert Enc(r)[7..17] == Enc(r)[7..];
  }

  lemma FirstBody(ptr: nat)
    ensures Body(Rec(ptr, "k", 0, 3)) == "k:0:3\n" && RecLen(Rec(ptr, "k", 0, 3)) == 17
  {
    assert Dec(0) == "0" && Dec(3) == "3";
  }

  lemma FirstTail(f: string, r: Rec)
    requires RecAt(f, HEADER, r) && |f| == HEADER + RecLen(r)
    ensures |Enc(r)| == RecLen(r) && f[HEADER + 7..] == Enc(r)[7..]
  {
    hide Enc, RecLen, ValidRec;
    assert f[HEADER..HEADER + RecLen(r)] == f[HEADER..];
    assert RecLen(r) >= 7 by { assert |f[HEADER..]| == RecLen(r); RecAtLeast(r); }
    assert f[HEADER..][7..] == f[HEADER + 7..];
  }

  lemma RecAtLeast(r: Rec)
    ensures RecLen(r) >= 7
  {
  }

  // storing twice under one key: the second data is what is there, whatever its length
  method StoreTwice(key: string, a: string, b: string) returns (db: DB, data: Option<string>)
    requires KeyText(key) && 1 <= |a| && 1 <= |b| && |a| + 1 <= DATLEN_MAX && |b| + 1 <= DATLEN_MAX
    requires 1 <= |key| <= 900
    ensures db.Valid() && data == Some(b)
  {
    hide DB.Valid, SomeFree, Hash;
    db := new DB();
    BodyShort(Rec(0, key, 0, |a| + 1));
    BodyShort(Rec(0, key, |a| + 1, |b| + 1));
    var rc := db.Store(key, a, DbStore);
    rc := db.Store(key, b, DbReplace);
    data := db.Fetch(key);
  }

  lemma BodyShort(r: Rec)
    requires 1 <= |r.key| <= 900 && r.datoff <= DATLEN_MAX && r.datlen <= DATLEN_MAX
    ensures IDXLEN_MIN <= |Body(r)| <= 911 && RecLen(r) <= 922
  {
    DecDigits(r.datoff);
    DecDigits(r.datlen);
    LenFieldFits(r.datoff);
    LenFieldFits(r.datlen);
  }

  lemma SomethingIn(s: seq<(string, string)>)
    requires s != []
    ensures exists k, v :: (k, v) in s
  {
    assert s[0] == (s[0].0, s[0].1);
  }
}
