/**
 The directory walk that keeps every path in one shared buffer and doubles it when a name might
 not fit.  The buffer holds C strings: characters up to a NUL.
 */
module Ftw8 {
  import opened Common

  const NAME_MAX := 255
  const PATH_ALLOC := 256
  const NUL := '\0'

  // what func is told: FTW_F, FTW_D, FTW_DNR, FTW_NS
  datatype Type = FtwF | FtwD | FtwDnr | FtwNs

  datatype Call = Call(path: string, kind: Type)

  // the answers of lstat: error, something other than a directory, or a directory
  datatype Stat = StatError | Other | Directory

  // lstat by path; opendir by path and, if it succeeds, the names readdir then returns
  datatype Fs = Fs(lstat: string -> Stat, opendir: string -> Option<seq<string>>)

  // the caller's function may look at all calls made before
  type Func = (seq<Call>, Call) -> int

  // ---- what a walk should do ----

  datatype Tree = NoStat | File | Dir(readable: bool, entries: seq<Entry>)

  datatype Entry = Entry(name: string, sub: Tree)

  predicate Dots(name: string) { name == "." || name == ".." }

  predicate NameOk(name: string) { 0 < |name| <= NAME_MAX && NUL !in name && '/' !in name }

  function Child(path: string, name: string): string { path + "/" + name }

  // the file system at path is the finite tree t
  ghost predicate Describes(fs: Fs, path: string, t: Tree)
    decreases t
  {
    match t
    case NoStat => fs.lstat(path) == StatError
    case File => fs.lstat(path) == Other
    case Dir(readable, entries) =>
      && fs.lstat(path) == Directory
      && fs.opendir(path + "/") == (if readable then Some(Names(entries)) else None)
      && forall i | 0 <= i < |entries| ::
           NameOk(entries[i].name) && (!Dots(entries[i].name)
             ==> Describes(fs, Child(path, entries[i].name), entries[i].sub))
  }

  function Names(entries: seq<Entry>): (r: seq<string>) {
    seq(|entries|, i requires 0 <= i < |entries| => entries[i].name)
  }

  // all calls in preorder; a directory that cannot be read is reported once more, with its slash
  function Preorder(path: string, t: Tree): seq<Call>
    decreases t, 0
  {
    match t
    case NoStat => [Call(path, FtwNs)]
    case File => [Call(path, FtwF)]
    case Dir(readable, entries) =>
      [Call(path, FtwD)] + (if readable then PreorderAll(path, entries) else [Call(path + "/", FtwDnr)])
  }

  function PreorderAll(path: string, entries: seq<Entry>): seq<Call>
    decreases entries, 0
  {
    if entries == [] then []
    else
      assert entries[0] in entries;
      (if Dots(entries[0].name) then [] else Preorder(Child(path, entries[0].name), entries[0].sub))
        + PreorderAll(path, entries[1..])
  }

  // making calls one after the other up to the first non-zero answer, which is the result
  function Made(func: Func, hist: seq<Call>, calls: seq<Call>): (int, seq<Call>)
    decreases |calls|
  {
    if calls == [] then (0, hist)
    else
      var ret := func(hist, calls[0]);
      if ret != 0 then (ret, hist + [calls[0]]) else Made(func, hist + [calls[0]], calls[1..])
  }

  // the calls made are those of the list up to the one that stopped it
  lemma {:induction false} MadeIsPrefix(func: Func, hist: seq<Call>, calls: seq<Call>) returns (k: nat)
    ensures k <= |calls| && Made(func, hist, calls).1 == hist + calls[..k]
    ensures Made(func, hist, calls).0 == 0 ==> k == |calls|
    ensures Made(func, hist, calls).0 != 0 ==>
              k > 0
              && Made(func, hist, calls).0 == func(hist + calls[..k - 1], calls[k - 1])
    ensures forall j | 0 <= j < k && (j < k - 1 || Made(func, hist, calls).0 == 0) ::
            func(hist + calls[..j], calls[j]) == 0
    decreases |calls|
  {
    if calls == [] {
      k := 0;
    } else if func(hist, calls[0]) != 0 {
      k := 1;
      assert hist + calls[..0] == hist && calls[..1] == [calls[0]];
    } else {
      var j := MadeIsPrefix(func, hist + [calls[0]], calls[1..]);
      k := j + 1;
      assert calls[..k] == [calls[0]] + calls[1..][..j];
      assert hist + [calls[0]] + calls[1..][..j] == hist + calls[..k];
      assert j > 0 ==> hist + [calls[0]] + calls[1..][..j - 1] == hist + calls[..k - 1];
      forall i | 0 <= i < k && (i < k - 1 || Made(func, hist, calls).0 == 0)
        ensures func(hist + calls[..i], calls[i]) == 0 {
        if i == 0 {
          assert hist + calls[..0] == hist;
        } else {
          assert hist + [calls[0]] + calls[1..][..i - 1] == hist + calls[..i];
          assert calls[1..][i - 1] == calls[i];
        }
      }
    }
  }

  lemma {:induction false} MadeAppend(func: Func, hist: seq<Call>, a: seq<Call>, b: seq<Call>)
    ensures var (ret, h) := Made(func, hist, a);
    Made(func, hist, a + b) == if ret != 0 then (ret, h) else Made(func, h, b)
    decreases |a|
  {
    if a == [] {
      assert a + b == b;
    } else {
      assert (a + b)[0] == a[0] && (a + b)[1..] == a[1..] + b;
      if func(hist, a[0]) == 0 { MadeAppend(func, hist + [a[0]], a[1..], b); }
    }
  }

  lemma {:induction false} PreorderAllAppend(path: string, a: seq<Entry>, b: seq<Entry>)
    ensures PreorderAll(path, a + b) == PreorderAll(path, a) + PreorderAll(path, b)
    decreases |a|
  {
    if a == [] {
      assert a + b == b;
    } else {
      assert (a + b)[0] == a[0] && (a + b)[1..] == a[1..] + b;
      PreorderAllAppend(path, a[1..], b);
    }
  }

  // ---- the preorder list against the file system ----

  // what is reported of a path is what the file system answers for it
  ghost predicate Matches(fs: Fs, c: Call) {
    match c.kind
    case FtwF => fs.lstat(c.path) == Other
    case FtwD => fs.lstat(c.path) == Directory
    case FtwNs => fs.lstat(c.path) == StatError
    case FtwDnr => |c.path| > 0 && fs.lstat(c.path[..|c.path| - 1]) == Directory && fs.opendir(c.path) == None
  }

  // a directory's call is followed up: unreadable and reported so, or each of its names is called
  ghost predicate FollowedUp(fs: Fs, c: Call, calls: seq<Call>) {
    c.kind == FtwD ==>
      match fs.opendir(c.path + "/")
      case None => Call(c.path + "/", FtwDnr) in calls
      case Some(names) => forall n | n in names && !Dots(n) :: exists d :: d in calls && d.path == Child(c.path, n)
  }

  lemma {:induction false} PreorderMatches(fs: Fs, path: string, t: Tree)
    requires Describes(fs, path, t)
    ensures Preorder(path, t) != [] && Preorder(path, t)[0].path == path
    ensures forall c | c in Preorder(path, t) :: Matches(fs, c) && FollowedUp(fs, c, Preorder(path, t))
    decreases t, 0
  {
    if t.Dir? {
      var all := Preorder(path, t);
      if t.readable {
        PreorderAllMatches(fs, path, t.entries);
        var below := PreorderAll(path, t.entries);
        assert forall c | c in below :: c in all;
        forall n | n in Names(t.entries) && !Dots(n) ensures exists d :: d in all && d.path == Child(path, n) {
          var d :| d in below && d.path == Child(path, n);
          assert d in all;
        }
        forall c | c in below ensures FollowedUp(fs, c, all) { FollowedMore(fs, c, below, all); }
      } else {
        assert (path + "/")[..|path + "/"| - 1] == path;
        assert all[1] == Call(path + "/", FtwDnr) && all[1] in all;
      }
    }
  }

  lemma {:induction false} PreorderAllMatches(fs: Fs, path: string, entries: seq<Entry>)
    requires forall i | 0 <= i < |entries| ::
               NameOk(entries[i].name) && (!Dots(entries[i].name)
                 ==> Describes(fs, Child(path, entries[i].name), entries[i].sub))
    ensures forall c | c in PreorderAll(path, entries) ::
              Matches(fs, c)
              && FollowedUp(fs, c, PreorderAll(path, entries))
    ensures forall n | n in Names(entries) && !Dots(n) ::
            exists d ::
              d in PreorderAll(path, entries)
              && d.path == Child(path, n)
    decreases entries, 0
  {
    if entries != [] {
      var e, rest, all := entries[0], PreorderAll(path, entries[1..]), PreorderAll(path, entries);
      assert e in entries;
      var first := if Dots(e.name) then [] else Preorder(Child(path, e.name), e.sub);
      assert all == first + rest;
      PreorderAllMatches(fs, path, entries[1..]);
      if !Dots(e.name) {
        PreorderMatches(fs, Child(path, e.name), e.sub);
        assert first[0] in all;
      }
      forall c | c in all ensures Matches(fs, c) && FollowedUp(fs, c, all) {
        if c in first { FollowedMore(fs, c, first, all); } else { FollowedMore(fs, c, rest, all); }
      }
      forall n | n in Names(entries) && !Dots(n) ensures exists d :: d in all && d.path == Child(path, n) {
        if n == e.name {
          assert first[0].path == Child(path, n);
        } else {
          var i :| 0 <= i < |entries| && entries[i].name == n;
          assert Names(entries[1..])[i - 1] == n;
          var d :| d in rest && d.path == Child(path, n);
          assert d in all;
        }
      }
    }
  }

  lemma FollowedMore(fs: Fs, c: Call, calls: seq<Call>, more: seq<Call>)
    requires FollowedUp(fs, c, calls) && forall d | d in calls :: d in more
    ensures FollowedUp(fs, c, more)
  {
    if c.kind == FtwD && fs.opendir(c.path + "/").Some? {
      forall n | n in fs.opendir(c.path + "/").value && !Dots(n)
        ensures exists d :: d in more && d.path == Child(c.path, n) {
        var d :| d in calls && d.path == Child(c.path, n);
        assert d in more;
      }
    }
  }

  // ---- every path once, each directory in front of what is below it, in the order of readdir ----

  // no directory that the walk reads has two entries of the same name
  ghost predicate NamesDiffer(t: Tree)
    decreases t, 1
  {
    t.Dir? && t.readable ==> EntriesDiffer(t.entries)
  }

  ghost predicate EntriesDiffer(entries: seq<Entry>)
    decreases entries, 0
  {
    && (forall i, j | 0 <= i < j < |entries| && !Dots(entries[i].name) :: entries[i].name != entries[j].name)
    && (forall e | e in entries && !Dots(e.name) :: NamesDiffer(e.sub))
  }

  ghost predicate AllDescribed(fs: Fs, path: string, entries: seq<Entry>) {
    forall e | e in entries :: NameOk(e.name) && (!Dots(e.name) ==> Describes(fs, Child(path, e.name), e.sub))
  }

  ghost predicate PathsDiffer(calls: seq<Call>) {
    forall i, j | 0 <= i < j < |calls| :: calls[i].path != calls[j].path
  }

  // p is dir or below it
  predicate Under(p: string, dir: string) {
    p == dir || (|p| > |dir| && p[..|dir| + 1] == dir + "/")
  }

  ghost predicate AllUnder(calls: seq<Call>, dir: string) {
    forall c | c in calls :: Under(c.path, dir)
  }

  ghost predicate NoneUnder(calls: seq<Call>, dir: string) {
    forall c | c in calls :: !Under(c.path, dir)
  }

  // what is below the directory of call i comes after it, and nothing else comes in between
  ghost predicate DepthFirst(calls: seq<Call>) {
    forall i, j | 0 <= i < |calls| && 0 <= j < |calls| && calls[i].kind == FtwD
                  && Under(calls[j].path, calls[i].path) ::
      i <= j && forall k | i <= k <= j :: Under(calls[k].path, calls[i].path)
  }

  // the names of a directory are called in the order in which they are read
  ghost predicate ReadOrder(fs: Fs, calls: seq<Call>) {
    forall c, names, a, b | c in calls && c.kind == FtwD && fs.opendir(c.path + "/") == Some(names)
                            && 0 <= a < b < |names| && !Dots(names[a]) && !Dots(names[b]) ::
      OneBefore(calls, Child(c.path, names[a]), Child(c.path, names[b]))
  }

  ghost predicate OneBefore(calls: seq<Call>, p: string, q: string) {
    forall i, j | 0 <= i < |calls| && 0 <= j < |calls| && calls[i].path == p && calls[j].path == q :: i < j
  }

  lemma UnderBoth(p: string, dir: string, m: string, n: string)
    requires Under(p, Child(dir, m)) && Under(p, Child(dir, n)) && NameOk(m) && NameOk(n)
    ensures m == n
  {
    var k := |dir| + 1;
    assert p[k..k + |m|] == m && p[k..k + |n|] == n by {
      assert Child(dir, m)[k..] == m && Child(dir, n)[k..] == n;
      assert p[..|Child(dir, m)|] == Child(dir, m) && p[..|Child(dir, n)|] == Child(dir, n);
    }
    assert |m| < |p| - k ==> p[k + |m|] == '/';
    assert |n| < |p| - k ==> p[k + |n|] == '/';
  }

  lemma UnderTrans(p: string, q: string, r: string)
    requires Under(p, q) && Under(q, r)
    ensures Under(p, r)
  {
    if p != q && q != r {
      assert p[..|q|] == q by { assert p[..|q| + 1][..|q|] == (q + "/")[..|q|]; }
      assert p[..|r| + 1] == p[..|q|][..|r| + 1];
    }
  }

  lemma {:induction false} PathsUnder(fs: Fs, path: string, t: Tree)
    requires Describes(fs, path, t)
    ensures AllUnder(Preorder(path, t), path)
    decreases t, 0
  {
    if t.Dir? && t.readable {
      EntriesUnder(fs, path, t.entries);
      forall c | c in PreorderAll(path, t.entries) ensures Under(c.path, path) {
        var e :| e in t.entries && Under(c.path, Child(path, e.name));
        assert Child(path, e.name)[..|path| + 1] == path + "/";
        UnderTrans(c.path, Child(path, e.name), path);
      }
    } else if t.Dir? {
      assert (path + "/")[..|path| + 1] == path + "/";
    }
  }

  lemma {:induction false} EntriesUnder(fs: Fs, path: string, entries: seq<Entry>)
    requires AllDescribed(fs, path, entries)
    ensures forall c | c in PreorderAll(path, entries) ::
              exists e :: e in entries && !Dots(e.name) && Under(c.path, Child(path, e.name))
    decreases entries, 0
  {
    if entries != [] {
      var e, rest := entries[0], entries[1..];
      assert e in entries;
      EntriesUnder(fs, path, rest);
      if !Dots(e.name) { PathsUnder(fs, Child(path, e.name), e.sub); }
      forall c | c in PreorderAll(path, entries)
        ensures exists e :: e in entries && !Dots(e.name) && Under(c.path, Child(path, e.name)) {
        if c in PreorderAll(path, rest) {
          var d :| d in rest && !Dots(d.name) && Under(c.path, Child(path, d.name));
          assert d in entries;
        }
      }
    }
  }

  // below different names there is no common path
  lemma Apart(fs: Fs, path: string, e: Entry, rest: seq<Entry>)
    requires AllDescribed(fs, path, [e] + rest) && !Dots(e.name) && forall d | d in rest :: d.name != e.name
    ensures AllUnder(Preorder(Child(path, e.name), e.sub), Child(path, e.name))
    ensures NoneUnder(PreorderAll(path, rest), Child(path, e.name))
    ensures forall c, d | c in PreorderAll(path, rest) && d in Preorder(Child(path, e.name), e.sub) ::
              !Under(c.path, d.path) && !Under(d.path, c.path)
  {
    assert e in [e] + rest && forall d | d in rest :: d in [e] + rest;
    PathsUnder(fs, Child(path, e.name), e.sub);
    EntriesUnder(fs, path, rest);
    forall c | c in PreorderAll(path, rest) ensures !Under(c.path, Child(path, e.name)) {
      var d :| d in rest && !Dots(d.name) && Under(c.path, Child(path, d.name));
      if Under(c.path, Child(path, e.name)) { UnderBoth(c.path, path, e.name, d.name); }
    }
    forall c, d | c in PreorderAll(path, rest) && d in Preorder(Child(path, e.name), e.sub)
      ensures !Under(c.path, d.path) && !Under(d.path, c.path) {
      if Under(c.path, d.path) { UnderTrans(c.path, d.path, Child(path, e.name)); }
      if Under(d.path, c.path) {
        var f :| f in rest && !Dots(f.name) && Under(c.path, Child(path, f.name));
        UnderTrans(d.path, c.path, Child(path, f.name));
        UnderBoth(d.path, path, e.name, f.name);
      }
    }
  }

  // each path is called once exactly if no directory has a name twice
  lemma {:induction false} PathsOnce(fs: Fs, path: string, t: Tree)
    requires Describes(fs, path, t)
    ensures PathsDiffer(Preorder(path, t)) <==> NamesDiffer(t)
    decreases t, 0
  {
    if t.Dir? && t.readable {
      var below := PreorderAll(path, t.entries);
      EntriesOnce(fs, path, t.entries);
      EntriesUnder(fs, path, t.entries);
      assert Preorder(path, t)[1..] == below;
      forall i | 1 <= i < |Preorder(path, t)| ensures Preorder(path, t)[i].path != path {
        var e :| e in t.entries && Under(below[i - 1].path, Child(path, e.name));
        assert |Child(path, e.name)| > |path|;
      }
      assert PathsDiffer(Preorder(path, t)) ==> PathsDiffer(below) by {
        if PathsDiffer(Preorder(path, t)) {
          forall i, j | 0 <= i < j < |below| ensures below[i].path != below[j].path {
            assert Preorder(path, t)[i + 1].path != Preorder(path, t)[j + 1].path;
          }
        }
      }
    }
  }

  lemma {:induction false} EntriesOnce(fs: Fs, path: string, entries: seq<Entry>)
    requires AllDescribed(fs, path, entries)
    ensures PathsDiffer(PreorderAll(path, entries)) <==> EntriesDiffer(entries)
    decreases entries, 0
  {
    if entries != [] {
      var e, rest := entries[0], entries[1..];
      assert e in entries && entries == [e] + rest;
      EntriesOnce(fs, path, rest);
      FirstDiffers(entries);
      if !Dots(e.name) {
        var first := Preorder(Child(path, e.name), e.sub);
        PathsOnce(fs, Child(path, e.name), e.sub);
        DifferAppend(first, PreorderAll(path, rest));
        if forall d | d in rest :: d.name != e.name {
          Apart(fs, path, e, rest);
        } else {
          var d :| d in rest && d.name == e.name;
          SamePath(fs, path, e, d, rest);
        }
      } else {
        assert [] + PreorderAll(path, rest) == PreorderAll(path, rest);
      }
    }
  }

  lemma FirstDiffers(entries: seq<Entry>)
    requires entries != []
    ensures EntriesDiffer(entries) <==>
              && EntriesDiffer(entries[1..])
              && (Dots(entries[0].name)
                  || (NamesDiffer(entries[0].sub) && forall d | d in entries[1..] :: d.name != entries[0].name))
  {
    var e, rest := entries[0], entries[1..];
    assert e in entries && forall d :: d in entries <==> d == e || d in rest;
    if EntriesDiffer(entries) {
      forall i, j | 0 <= i < j < |rest| && !Dots(rest[i].name) ensures rest[i].name != rest[j].name {
        assert entries[i + 1].name != entries[j + 1].name;
      }
      forall d | d in rest && !Dots(e.name) ensures d.name != e.name {
        var j :| 0 <= j < |rest| && rest[j] == d;
        assert entries[0].name != entries[j + 1].name;
      }
    }
    if EntriesDiffer(rest) && (Dots(e.name) || (NamesDiffer(e.sub) && forall d | d in rest :: d.name != e.name)) {
      forall i, j | 0 <= i < j < |entries| && !Dots(entries[i].name) ensures entries[i].name != entries[j].name {
        assert entries[j] == rest[j - 1];
        if i > 0 { assert rest[i - 1].name != rest[j - 1].name; }
      }
    }
  }

  lemma DifferAppend(a: seq<Call>, b: seq<Call>)
    ensures PathsDiffer(a + b) <==>
              PathsDiffer(a) && PathsDiffer(b) && forall c, d | c in a && d in b :: c.path != d.path
  {
    if PathsDiffer(a + b) {
      forall i, j | 0 <= i < j < |a| ensures a[i].path != a[j].path {
        assert (a + b)[i].path != (a + b)[j].path;
      }
      forall i, j | 0 <= i < j < |b| ensures b[i].path != b[j].path {
        assert (a + b)[|a| + i].path != (a + b)[|a| + j].path;
      }
      forall c, d | c in a && d in b ensures c.path != d.path {
        var i :| 0 <= i < |a| && a[i] == c;
        var j :| 0 <= j < |b| && b[j] == d;
        assert (a + b)[i].path != (a + b)[|a| + j].path;
      }
    }
  }

  // a name that is read twice is called twice
  lemma SamePath(fs: Fs, path: string, e: Entry, d: Entry, rest: seq<Entry>)
    requires AllDescribed(fs, path, [e] + rest) && !Dots(e.name) && d in rest && d.name == e.name
    ensures exists c, f :: c in Preorder(Child(path, e.name), e.sub) && f in PreorderAll(path, rest) && c.path == f.path
  {
    assert e in [e] + rest && forall x | x in rest :: x in [e] + rest;
    PreorderMatches(fs, Child(path, e.name), e.sub);
    assert forall i | 0 <= i < |rest| :: rest[i] in rest;
    PreorderAllMatches(fs, path, rest);
    var i :| 0 <= i < |rest| && rest[i] == d;
    assert Names(rest)[i] == e.name;
    var f :| f in PreorderAll(path, rest) && f.path == Child(path, e.name);
    assert Preorder(Child(path, e.name), e.sub)[0].path == f.path;
  }

  // the order of the calls of a walk in which no path repeats
  lemma {:induction false} WalkOrder(fs: Fs, path: string, t: Tree)
    requires Describes(fs, path, t) && NamesDiffer(t)
    ensures DepthFirst(Preorder(path, t)) && ReadOrder(fs, Preorder(path, t))
    decreases t, 0
  {
    hide Under, ReadOrder, DepthFirst, OneBefore, PreorderAll, EntriesDiffer;
    if t.Dir? && t.readable {
      var below := PreorderAll(path, t.entries);
      EntriesOrder(fs, path, t.entries);
      BelowRoot(fs, path, t.entries);
      RootDepth(path, below);
      RootReads(fs, path, t.entries, below);
    } else {
      LeafOrder(fs, path, t);
    }
  }

  lemma BelowRoot(fs: Fs, path: string, entries: seq<Entry>)
    requires AllDescribed(fs, path, entries)
    ensures AllUnder(PreorderAll(path, entries), path)
    ensures forall c | c in PreorderAll(path, entries) :: !Under(path, c.path)
  {
    var below := PreorderAll(path, entries);
    EntriesUnder(fs, path, entries);
    forall c | c in below ensures Under(c.path, path) && !Under(path, c.path) {
      var e :| e in entries && Under(c.path, Child(path, e.name));
      UnderItself(path, e.name);
      UnderTrans(c.path, Child(path, e.name), path);
      assert |Child(path, e.name)| > |path|;
    }
  }

  lemma LeafOrder(fs: Fs, path: string, t: Tree)
    requires Describes(fs, path, t) && !(t.Dir? && t.readable)
    ensures DepthFirst(Preorder(path, t)) && ReadOrder(fs, Preorder(path, t))
  {
    var all := Preorder(path, t);
    hide Under;
    if t.Dir? {
      assert all == [Call(path, FtwD), Call(path + "/", FtwDnr)];
      UnderItself(path, "");
      assert Child(path, "") == path + "/" && Under(path + "/", path);
      forall i, j | 0 <= i < |all| && 0 <= j < |all| && all[i].kind == FtwD && Under(all[j].path, all[i].path)
        ensures i <= j && forall k | i <= k <= j :: Under(all[k].path, all[i].path) {
        UnderSelf(path);
      }
      assert all[0].path != all[1].path;
    } else {
      assert |all| == 1 && all[0].kind != FtwD;
    }
  }

  // the order below one directory, and the order of its own names
  lemma {:induction false} EntriesOrder(fs: Fs, path: string, entries: seq<Entry>)
    requires AllDescribed(fs, path, entries) && EntriesDiffer(entries)
    ensures DepthFirst(PreorderAll(path, entries)) && ReadOrder(fs, PreorderAll(path, entries))
    ensures forall a, b | 0 <= a < b < |entries| && !Dots(entries[a].name) && !Dots(entries[b].name) ::
              OneBefore(PreorderAll(path, entries), Child(path, entries[a].name), Child(path, entries[b].name))
    decreases entries, 0
  {
    hide Under, DepthFirst, ReadOrder, OneBefore, Describes, NamesDiffer, Preorder;
    if entries == [] {
      NoOrder(fs);
    } else {
      var e, rest := entries[0], entries[1..];
      assert e in entries && entries == [e] + rest;
      FirstDiffers(entries);
      EntriesOrder(fs, path, rest);
      var first := if Dots(e.name) then [] else Preorder(Child(path, e.name), e.sub);
      if Dots(e.name) {
        assert PreorderAll(path, entries) == PreorderAll(path, rest);
      } else {
        WalkOrder(fs, Child(path, e.name), e.sub);
        Apart(fs, path, e, rest);
        DepthAppend(first, PreorderAll(path, rest));
        ReadAppend(fs, first, PreorderAll(path, rest));
      }
      forall a, b | 0 <= a < b < |entries| && !Dots(entries[a].name) && !Dots(entries[b].name)
        ensures OneBefore(PreorderAll(path, entries), Child(path, entries[a].name), Child(path, entries[b].name)) {
        NamesInOrder(fs, path, entries, a, b);
      }
    }
  }

  lemma NoOrder(fs: Fs)
    ensures DepthFirst([]) && ReadOrder(fs, [])
  {
  }

  lemma OneBeforeAppend(a: seq<Call>, b: seq<Call>, p: string, q: string)
    requires (forall c | c in a :: c.path != p && c.path != q) || OneBefore(a, p, q)
    requires (forall c | c in b :: c.path != p && c.path != q) || OneBefore(b, p, q)
    requires (forall c | c in a :: c.path != q) || (forall c | c in b :: c.path != p)
    ensures OneBefore(a + b, p, q)
  {
    forall i, j | 0 <= i < |a + b| && 0 <= j < |a + b| && (a + b)[i].path == p && (a + b)[j].path == q ensures i < j {
      if i < |a| { assert a[i] in a; } else { assert b[i - |a|] in b; }
      if j < |a| { assert a[j] in a; } else { assert b[j - |a|] in b; }
    }
  }

  lemma NamesInOrder(fs: Fs, path: string, entries: seq<Entry>, a: nat, b: nat)
    requires AllDescribed(fs, path, entries) && EntriesDiffer(entries)
    requires a < b < |entries| && !Dots(entries[a].name) && !Dots(entries[b].name)
    requires a > 0 ==>
               OneBefore(PreorderAll(path, entries[1..]), Child(path, entries[a].name), Child(path, entries[b].name))
    ensures OneBefore(PreorderAll(path, entries), Child(path, entries[a].name), Child(path, entries[b].name))
  {
    var e, rest := entries[0], entries[1..];
    assert e in entries && entries == [e] + rest;
    FirstDiffers(entries);
    var p, q, later := Child(path, entries[a].name), Child(path, entries[b].name), PreorderAll(path, rest);
    if Dots(e.name) {
      assert PreorderAll(path, entries) == later;
    } else {
      var first := Preorder(Child(path, e.name), e.sub);
      Apart(fs, path, e, rest);
      forall c | c in first ensures c.path != q && (a > 0 ==> c.path != p) {
        assert entries[b] == rest[b - 1] && entries[b] in rest && entries[a] in entries;
        if c.path == q { UnderBoth(q, path, e.name, entries[b].name); }
        if a > 0 && c.path == p {
          assert entries[a] == rest[a - 1] && entries[a] in rest;
          UnderBoth(p, path, e.name, entries[a].name);
        }
      }
      forall c | c in later ensures a == 0 ==> c.path != p { }
      OneBeforeAppend(first, later, p, q);
    }
  }

  ghost predicate Strangers(a: seq<Call>, b: seq<Call>) {
    forall c, d | c in a && d in b :: !Under(c.path, d.path) && !Under(d.path, c.path)
  }

  lemma StrangersAt(a: seq<Call>, b: seq<Call>, i: nat, j: nat)
    requires Strangers(a, b) && i < |a| && j < |b|
    ensures !Under(a[i].path, b[j].path) && !Under(b[j].path, a[i].path)
  {
  }

  lemma DepthAppend(a: seq<Call>, b: seq<Call>)
    requires DepthFirst(a) && DepthFirst(b) && Strangers(a, b)
    ensures DepthFirst(a + b)
  {
    var s := a + b;
    forall i, j | 0 <= i < |s| && 0 <= j < |s| && s[i].kind == FtwD && Under(s[j].path, s[i].path)
      ensures i <= j && forall k | i <= k <= j :: Under(s[k].path, s[i].path) {
      if i < |a| {
        assert j < |a| by { if j >= |a| { StrangersAt(a, b, i, j - |a|); } }
        assert i <= j;
        forall k | i <= k <= j ensures Under(s[k].path, s[i].path) { assert Under(a[k].path, a[i].path); }
      } else {
        assert j >= |a| by { if j < |a| { StrangersAt(a, b, j, i - |a|); } }
        assert i <= j;
        forall k | i <= k <= j ensures Under(s[k].path, s[i].path) {
          assert Under(b[k - |a|].path, b[i - |a|].path);
        }
      }
    }
  }

  lemma UnderItself(dir: string, name: string)
    ensures Under(Child(dir, name), dir)
  {
    assert Child(dir, name)[..|dir| + 1] == dir + "/";
  }

  lemma ReadAppend(fs: Fs, a: seq<Call>, b: seq<Call>)
    requires ReadOrder(fs, a) && ReadOrder(fs, b) && Strangers(a, b)
    ensures ReadOrder(fs, a + b)
  {
    forall c, names, i, j | c in a + b && c.kind == FtwD && fs.opendir(c.path + "/") == Some(names)
                            && 0 <= i < j < |names| && !Dots(names[i]) && !Dots(names[j])
      ensures OneBefore(a + b, Child(c.path, names[i]), Child(c.path, names[j])) {
      UnderItself(c.path, names[i]);
      UnderItself(c.path, names[j]);
      if c in a {
        assert OneBefore(a, Child(c.path, names[i]), Child(c.path, names[j]));
      } else {
        assert OneBefore(b, Child(c.path, names[i]), Child(c.path, names[j]));
      }
      OneBeforeAppend(a, b, Child(c.path, names[i]), Child(c.path, names[j]));
    }
  }

  lemma RootDepth(path: string, below: seq<Call>)
    requires DepthFirst(below) && AllUnder(below, path) && forall c | c in below :: !Under(path, c.path)
    ensures DepthFirst([Call(path, FtwD)] + below)
  {
    hide Under;
    var all := [Call(path, FtwD)] + below;
    UnderSelf(path);
    forall k | 0 <= k < |all| ensures Under(all[k].path, path) { assert k > 0 ==> all[k] in below; }
    forall i, j | 0 <= i < |all| && 0 <= j < |all| && all[i].kind == FtwD && Under(all[j].path, all[i].path)
      ensures i <= j && forall k | i <= k <= j :: Under(all[k].path, all[i].path) {
      if i > 0 {
        assert all[i] == below[i - 1] && all[i] in below;
        assert j > 0;
        assert all[j] == below[j - 1];
        forall k | i <= k <= j ensures Under(all[k].path, all[i].path) { assert all[k] == below[k - 1]; }
      }
    }
  }

  lemma UnderSelf(path: string)
    ensures Under(path, path)
  {
  }

  lemma RootReads(fs: Fs, path: string, entries: seq<Entry>, below: seq<Call>)
    requires fs.opendir(path + "/") == Some(Names(entries)) && ReadOrder(fs, below)
    requires forall c | c in below :: !Under(path, c.path)
    requires forall a, b | 0 <= a < b < |entries| && !Dots(entries[a].name) && !Dots(entries[b].name) ::
               OneBefore(below, Child(path, entries[a].name), Child(path, entries[b].name))
    ensures ReadOrder(fs, [Call(path, FtwD)] + below)
  {
    hide Under, OneBefore;
    var all := [Call(path, FtwD)] + below;
    forall c, names, i, j | c in all && c.kind == FtwD && fs.opendir(c.path + "/") == Some(names)
                            && 0 <= i < j < |names| && !Dots(names[i]) && !Dots(names[j])
      ensures OneBefore(all, Child(c.path, names[i]), Child(c.path, names[j])) {
      var p, q := Child(c.path, names[i]), Child(c.path, names[j]);
      if c in below {
        UnderItself(c.path, names[i]);
        UnderItself(c.path, names[j]);
        assert path != p && path != q;
      } else {
        assert names == Names(entries) && names[i] == entries[i].name && names[j] == entries[j].name;
        assert |p| > |path| && |q| > |path|;
      }
      BehindRoot(path, below, p, q);
    }
  }

  lemma BehindRoot(path: string, below: seq<Call>, p: string, q: string)
    requires OneBefore(below, p, q) && path != p && path != q
    ensures OneBefore([Call(path, FtwD)] + below, p, q)
  {
    OneBeforeAppend([Call(path, FtwD)], below, p, q);
  }

  // ---- how many calls: one for every node that is not dot or dot-dot ----

  // the nodes of the tree that the walk can reach, of one type
  function Nodes(t: Tree, kind: Type): (n: nat)
    decreases t, 0
  {
    match t
    case NoStat => if kind == FtwNs then 1 else 0
    case File => if kind == FtwF then 1 else 0
    case Dir(readable, entries) =>
      (if kind == FtwD || (kind == FtwDnr && !readable) then 1 else 0)
        + (if readable then EntryNodes(entries, kind) else 0)
  }

  function EntryNodes(entries: seq<Entry>, kind: Type): (n: nat)
    decreases entries, 0
  {
    if entries == [] then 0
    else
      assert entries[0] in entries;
      (if Dots(entries[0].name) then 0 else Nodes(entries[0].sub, kind)) + EntryNodes(entries[1..], kind)
  }

  ghost function OfKind(calls: seq<Call>, kind: Type): (ps: set<nat>) {
    set i: nat | i < |calls| && calls[i].kind == kind
  }

  lemma OfKindAppend(a: seq<Call>, b: seq<Call>, kind: Type)
    ensures |OfKind(a + b, kind)| == |OfKind(a, kind)| + |OfKind(b, kind)|
    decreases |b|
  {
    if b == [] {
      assert a + b == a;
    } else {
      var n := |b| - 1;
      OfKindAppend(a, b[..n], kind);
      OneMoreCall(a + b[..n], b[n], kind);
      OneMoreCall(b[..n], b[n], kind);
      assert a + b == (a + b[..n]) + [b[n]] && b == b[..n] + [b[n]];
    }
  }

  lemma OneMoreCall(a: seq<Call>, c: Call, kind: Type)
    ensures |OfKind(a + [c], kind)| == |OfKind(a, kind)| + if c.kind == kind then 1 else 0
  {
    assert OfKind(a + [c], kind) == OfKind(a, kind) + if c.kind == kind then {|a|} else {};
  }

  // a walk that is never stopped makes one call for every node
  lemma {:induction false} CallPerNode(path: string, t: Tree, kind: Type)
    ensures |OfKind(Preorder(path, t), kind)| == Nodes(t, kind)
    decreases t, 0
  {
    OneMoreCall([], Preorder(path, t)[0], kind);
    assert [] + [Preorder(path, t)[0]] == [Preorder(path, t)[0]];
    if t.Dir? {
      OfKindAppend([Call(path, FtwD)], Preorder(path, t)[1..], kind);
      assert Preorder(path, t) == [Call(path, FtwD)] + Preorder(path, t)[1..];
      if t.readable {
        CallPerEntry(path, t.entries, kind);
        assert Preorder(path, t)[1..] == PreorderAll(path, t.entries);
      } else {
        OneMoreCall([], Call(path + "/", FtwDnr), kind);
        assert Preorder(path, t)[1..] == [] + [Call(path + "/", FtwDnr)];
      }
    }
  }

  lemma {:induction false} CallPerEntry(path: string, entries: seq<Entry>, kind: Type)
    ensures |OfKind(PreorderAll(path, entries), kind)| == EntryNodes(entries, kind)
    decreases entries, 0
  {
    if entries != [] {
      var e := entries[0];
      assert e in entries;
      var first := if Dots(e.name) then [] else Preorder(Child(path, e.name), e.sub);
      CallPerEntry(path, entries[1..], kind);
      if !Dots(e.name) { CallPerNode(Child(path, e.name), e.sub, kind); }
      assert PreorderAll(path, entries) == first + PreorderAll(path, entries[1..]);
      OfKindAppend(first, PreorderAll(path, entries[1..]), kind);
    } else {
      assert OfKind([], kind) == {};
    }
  }

  // ---- the buffer ----

  // a doubled buffer always has room for a slash, a longest name and the NUL
  lemma OneDoublingSuffices(n: nat, pathlen: nat)
    requires n < pathlen && PATH_ALLOC <= pathlen
    ensures n + NAME_MAX + 2 <= 2 * pathlen
  {
  }

  class Walker {
    const fs: Fs
    const func: Func
    var fullpath: array<char>
    var pathlen: nat
    var hist: seq<Call>     // the calls made so far

    ghost predicate Valid()
      reads this
    {
      fullpath.Length == pathlen && pathlen >= PATH_ALLOC
    }

    // the buffer holds the C string s
    ghost predicate Holds(s: string)
      reads this, fullpath
    {
      |s| < fullpath.Length && NUL !in s && fullpath[|s|] == NUL && forall k | 0 <= k < |s| :: fullpath[k] == s[k]
    }

    // path_alloc
    constructor (fs: Fs, func: Func)
      ensures Valid() && fresh(fullpath) && hist == [] && this.fs == fs && this.func == func && pathlen == PATH_ALLOC
    {
      this.fs, this.func := fs, func;
      fullpath := new char[PATH_ALLOC];
      pathlen := PATH_ALLOC;
      hist := [];
    }

    method Strlen(ghost s: string) returns (n: nat)
      requires Holds(s)
      ensures n == |s|
    {
      assert forall k | 0 <= k < |s| :: s[k] != NUL;
      n := 0;
      while fullpath[n] != NUL
        invariant n <= |s|
        decreases |s| - n
      {
        n := n + 1;
      }
    }

    // the C string in the buffer, as a system call or func reads it
    method CString(ghost s: string) returns (r: string)
      requires Holds(s)
      ensures r == s
    {
      var n := Strlen(s);
      r := fullpath[..n];
    }

    // strcpy(&fullpath[n], name)
    method Strcpy(n: nat, name: string)
      requires n + |name| < fullpath.Length
      modifies fullpath
      ensures forall k | 0 <= k < n :: fullpath[k] == old(fullpath[k])
      ensures forall k | 0 <= k < |name| :: fullpath[n + k] == name[k]
      ensures fullpath[n + |name|] == NUL
    {
      var i := 0;
      while i < |name|
        invariant 0 <= i <= |name|
        invariant forall k | 0 <= k < n :: fullpath[k] == old(fullpath[k])
        invariant forall k | 0 <= k < i :: fullpath[n + k] == name[k]
      {
        fullpath[n + i] := name[i];
        i := i + 1;
      }
      fullpath[n + i] := NUL;
    }

    // realloc(fullpath, size)
    method Realloc(size: nat)
      requires fullpath.Length <= size
      modifies this`fullpath
      ensures fresh(fullpath) && fullpath.Length == size
      ensures forall k | 0 <= k < old(fullpath.Length) :: fullpath[k] == old(fullpath[k])
    {
      var p := new char[size];
      var i := 0;
      while i < fullpath.Length
        invariant 0 <= i <= fullpath.Length && fullpath == old(fullpath)
        invariant forall k | 0 <= k < i :: p[k] == fullpath[k]
        modifies p
      {
        p[i] := fullpath[i];
        i := i + 1;
      }
      fullpath := p;
    }

    method Report(path: string, kind: Type) returns (ret: int)
      modifies this`hist
      ensures hist == old(hist) + [Call(path, kind)] && ret == func(old(hist), Call(path, kind))
      ensures (ret, hist) == Made(func, old(hist), [Call(path, kind)])
    {
      ret := func(hist, Call(path, kind));
      hist := hist + [Call(path, kind)];
    }

    // appends "/", growing the buffer first if a longest name might not fit behind it
    method AppendSlash(n: nat, ghost path: string)
      requires Valid() && Holds(path) && n == |path|
      modifies this`fullpath, this`pathlen, fullpath
      ensures Valid() && Holds(path + "/") && pathlen >= old(pathlen) && n + NAME_MAX + 2 <= pathlen
      ensures fullpath == old(fullpath) || fresh(fullpath)
    {
      if n + NAME_MAX + 2 > pathlen {
        OneDoublingSuffices(n, pathlen);
        pathlen := pathlen * 2;
        Realloc(pathlen);
      }
      fullpath[n] := '/';
      fullpath[n + 1] := NUL;
    }

    // the caller's path stays in front; the calls are those of the preorder up to the first non-zero answer
    method DoPath(ghost path: string, ghost t: Tree) returns (ret: int)
      requires Valid() && Holds(path) && Describes(fs, path, t)
      modifies this, fullpath
      ensures Valid() && pathlen >= old(pathlen) && (fullpath == old(fullpath) || fresh(fullpath))
      ensures (ret, hist) == Made(func, old(hist), Preorder(path, t))
      ensures Holds(path) || Holds(path + "/")
      decreases t
    {
      hide Made, PreorderAll;
      var name := CString(path);
      var stat := fs.lstat(name);
      if stat.StatError? {
        ret := Report(name, FtwNs);
        return;
      }
      if stat.Other? {
        ret := Report(name, FtwF);
        return;
      }
      ret := Report(name, FtwD);
      MadeAppend(func, old(hist), [Call(path, FtwD)], if t.readable then PreorderAll(path, t.entries)
        else [Call(path + "/", FtwDnr)]);
      if ret != 0 {
        return;
      }
      var n := Strlen(path);
      AppendSlash(n, path);
      n := n + 1;
      name := CString(path + "/");
      var dp := fs.opendir(name);
      if dp == None {
        ret := Report(name, FtwDnr);
        return;
      }
      ret := ReadEntries(path, n, dp.value, t.entries);
      fullpath[n - 1] := NUL;
    }

    // the readdir loop
    method ReadEntries(ghost path: string, n: nat, names: seq<string>, ghost entries: seq<Entry>) returns (ret: int)
      requires Valid() && Holds(path + "/") && n == |path| + 1 && n + NAME_MAX + 1 <= pathlen && names == Names(entries)
      requires forall i | 0 <= i < |entries| ::
                 NameOk(entries[i].name) && (!Dots(entries[i].name)
                   ==> Describes(fs, Child(path, entries[i].name), entries[i].sub))
      modifies this, fullpath
      ensures Valid() && pathlen >= old(pathlen) && (fullpath == old(fullpath) || fresh(fullpath))
      ensures (ret, hist) == Made(func, old(hist), PreorderAll(path, entries))
      ensures forall k | 0 <= k < |path| :: fullpath[k] == path[k]
      decreases entries
    {
      hide Describes, Preorder, PreorderAll, Made;
      ghost var h0, dir := hist, path + "/";
      ret := 0;
      var i := 0;
      NoEntries(func, h0, path, entries);
      while i < |names|
        invariant 0 <= i <= |names| && Valid() && pathlen >= old(pathlen)
                  && (fullpath == old(fullpath) || fresh(fullpath))
        invariant ret == 0 && (ret, hist) == Made(func, h0, PreorderAll(path, entries[..i]))
        invariant forall k | 0 <= k < n :: fullpath[k] == dir[k]
      {
        assert entries[i] in entries && names[i] == entries[i].name;
        EntryStep(func, h0, path, entries, i);
        if !Dots(names[i]) {
          ghost var child := Child(path, names[i]);
          Strcpy(n, names[i]);
          assert Holds(child);
          ret := DoPath(child, entries[i].sub);
          assert forall k | 0 <= k < n :: fullpath[k] == child[k] == dir[k];
          if ret != 0 {
            return;
          }
        } else {
          NothingMade(func, hist);
        }
        i := i + 1;
      }
      assert entries[..i] == entries;
    }

    // where the walk starts: a copy of the caller's pathname, in a buffer that fits it
    method MyFtw(pathname: string, ghost t: Tree) returns (ret: int)
      requires Valid() && hist == [] && pathlen == PATH_ALLOC && NUL !in pathname && Describes(fs, pathname, t)
      modifies this, fullpath
      ensures (ret, hist) == Made(func, [], Preorder(pathname, t))
    {
      if pathlen <= |pathname| {
        pathlen := |pathname| * 2;
        Realloc(pathlen);
      }
      Strcpy(0, pathname);
      ret := DoPath(pathname, t);
    }
  }

  lemma NoEntries(func: Func, h: seq<Call>, path: string, entries: seq<Entry>)
    ensures Made(func, h, PreorderAll(path, entries[..0])) == (0, h)
  {
  }

  lemma NothingMade(func: Func, h: seq<Call>)
    ensures Made(func, h, []) == (0, h)
  {
  }

  lemma OneEntry(path: string, e: Entry)
    ensures PreorderAll(path, [e]) == if Dots(e.name) then [] else Preorder(Child(path, e.name), e.sub)
  {
    hide Preorder;
    assert [e][0] == e && [e][1..] == [];
    assert PreorderAll(path, []) == [];
  }

  // one more entry of a directory: nothing if it is dot or dot-dot, else the walk below it
  lemma EntryStep(func: Func, h0: seq<Call>, path: string, entries: seq<Entry>, i: nat)
    requires i < |entries| && Made(func, h0, PreorderAll(path, entries[..i])).0 == 0
    ensures var (r, h) := Made(func, h0, PreorderAll(path, entries[..i]));
            var below := if Dots(entries[i].name) then [] else Preorder(Child(path, entries[i].name), entries[i].sub);
            && Made(func, h0, PreorderAll(path, entries[..i + 1])) == Made(func, h, below)
            && (Made(func, h, below).0 != 0 ==> Made(func, h0, PreorderAll(path, entries)) == Made(func, h, below))
  {
    hide PreorderAll, Preorder, Made, Dots;
    var e := entries[i];
    var done, rest := PreorderAll(path, entries[..i]), PreorderAll(path, entries[i + 1..]);
    OneEntry(path, e);
    assert entries[..i + 1] == entries[..i] + [e];
    PreorderAllAppend(path, entries[..i], [e]);
    assert entries == entries[..i + 1] + entries[i + 1..];
    PreorderAllAppend(path, entries[..i + 1], entries[i + 1..]);
    MadeMiddle(func, h0, done, PreorderAll(path, [e]), rest);
  }

  lemma MadeMiddle(func: Func, h0: seq<Call>, a: seq<Call>, b: seq<Call>, c: seq<Call>)
    requires Made(func, h0, a).0 == 0
    ensures var m := Made(func, Made(func, h0, a).1, b);
            Made(func, h0, a + b) == m && (m.0 != 0 ==> Made(func, h0, a + b + c) == m)
  {
    hide Made;
    MadeAppend(func, h0, a, b);
    MadeAppend(func, h0, a + b, c);
  }
}
