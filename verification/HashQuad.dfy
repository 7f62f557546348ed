/**
 The open-addressing hash table with quadratic probing.  The hash function and the source of prime
 sizes are parameters, known only by what they promise.
 */
module HashQuad {

  datatype Info = Legitimate | Empty | Deleted

  datatype Cell = Cell(element: int, info: Info)

  // ---- a little number theory ----

  ghost predicate Prime(p: nat) { p >= 2 && forall d | 2 <= d < p :: p % d != 0 }

  lemma MulGrows(d: int, p: nat)
    requires d >= 1
    ensures d * p >= p
  {
    assert (d - 1) * p >= 0;
  }

  lemma DivModUnique(x: int, q: int, r: nat, p: nat)
    requires p > 0 && r < p && x == q * p + r
    ensures x % p == r
  {
    var d := x / p - q;
    assert d * p == r - x % p;
    assert (-d) * p == x % p - r;
    if d >= 1 { MulGrows(d, p); }
    if d <= -1 { MulGrows(-d, p); }
  }

  lemma ModOfMultiple(p: nat, q: int)
    requires p > 0
    ensures (q * p) % p == 0
  {
    DivModUnique(q * p, q, 0, p);
  }

  lemma Multiple(p: nat, x: int) returns (q: int)
    requires p > 0 && x % p == 0
    ensures x == q * p
  {
    q := x / p;
  }

  // a prime divides a product only if it divides a factor
  lemma {:induction false} NoZeroProduct(p: nat, a: nat, b: nat)
    requires Prime(p) && 0 < a < p && 0 < b < p
    ensures (a * b) % p != 0
    decreases a
  {
    if (a * b) % p == 0 {
      if a > 1 {
        var q, r := p / a, p % a;
        var m := Multiple(p, a * b);
        assert r * b == (b - q * m) * p by {
          assert p == q * a + r;
          assert p * b == (q * a + r) * b == q * (a * b) + r * b;
          assert q * (a * b) == q * (m * p) == (q * m) * p;
          assert (b - q * m) * p == b * p - (q * m) * p;
        }
        ModOfMultiple(p, b - q * m);
        NoZeroProduct(p, r, b);
      }
    }
  }

  // where probe number k of a key with hash value h looks
  function Probe(h: nat, k: nat, p: nat): (pos: nat)
    requires p > 0
    ensures pos < p
  {
    (h + k * k) % p
  }

  lemma SameMod(x: int, y: int, p: nat)
    requires p > 0 && x % p == y % p
    ensures (x - y) % p == 0
  {
    assert x == (x / p) * p + x % p && y == (y / p) * p + y % p;
    assert x - y == (x / p - y / p) * p;
    ModOfMultiple(p, x / p - y / p);
  }

  // the first (p+1)/2 probes all look at different cells
  lemma ProbesDistinct(h: nat, i: nat, j: nat, p: nat)
    requires Prime(p) && i < j <= (p - 1) / 2
    ensures Probe(h, i, p) != Probe(h, j, p)
  {
    if Probe(h, i, p) == Probe(h, j, p) {
      SameMod(h + j * j, h + i * i, p);
      assert (h + j * j) - (h + i * i) == (j - i) * (j + i);
      NoZeroProduct(p, j - i, j + i);
    }
  }

  // stepping by 2k-1 and subtracting the size at most once gets from one probe to the next
  lemma NextProbe(h: nat, k: nat, p: nat, pos: nat)
    requires p >= 2 && 0 < k <= (p - 1) / 2 && pos == Probe(h, k - 1, p)
    ensures var x := pos + 2 * k - 1; 0 <= x < 2 * p && Probe(h, k, p) == (if x >= p then x - p else x)
  {
    assert k * k == (k - 1) * (k - 1) + 2 * k - 1;
    var y := h + (k - 1) * (k - 1);
    AddMod(y, 2 * k - 1, p);
  }

  lemma AddMod(y: nat, d: nat, p: nat)
    requires p > 0 && d < p
    ensures (y + d) % p == (if y % p + d >= p then y % p + d - p else y % p + d)
  {
    assert y == (y / p) * p + y % p;
    var r := if y % p + d >= p then y % p + d - p else y % p + d;
    var q := if y % p + d >= p then y / p + 1 else y / p;
    assert y + d == q * p + r;
    DivModUnique(y + d, q, r, p);
  }

  // ---- tables ----

  predicate Full(c: Cell) { c.info != Empty }

  function FullCells(cells: seq<Cell>): (r: set<nat>) { set i: nat | i < |cells| && Full(cells[i]) }

  // the set the table stands for
  function Elements(cells: seq<Cell>): set<int> {
    set i | 0 <= i < |cells| && cells[i].info == Legitimate :: cells[i].element
  }

  // probes 0..k of key find occupied cells with other elements
  ghost predicate PassedBy(cells: seq<Cell>, h: nat, key: int, k: nat)
    requires |cells| > 0
  {
    forall i: nat | i < k :: Full(cells[Probe(h, i, |cells|)]) && cells[Probe(h, i, |cells|)].element != key
  }

  // the search for key ends at pos, after k collisions
  ghost predicate StopsAt(cells: seq<Cell>, h: nat, key: int, pos: nat, k: nat)
    requires |cells| > 0
  {
    && k <= (|cells| - 1) / 2 && pos == Probe(h, k, |cells|) && PassedBy(cells, h, key, k)
    && (cells[pos].info == Empty || cells[pos].element == key)
  }

  // the element in cell pos is where its own search ends
  ghost predicate Reachable(cells: seq<Cell>, hash: (int, nat) -> nat, pos: nat)
    requires pos < |cells|
  {
    exists k: nat :: StopsAt(cells, hash(cells[pos].element, |cells|), cells[pos].element, pos, k)
  }

  ghost predicate Placed(cells: seq<Cell>, hash: (int, nat) -> nat) {
    forall pos: nat | pos < |cells| && Full(cells[pos]) :: Reachable(cells, hash, pos)
  }

  ghost predicate HashOk(hash: (int, nat) -> nat) { forall key, n: nat | n > 0 :: hash(key, n) < n }

  // room for a search to end: at most (p-1)/2 cells in use
  ghost predicate Sparse(cells: seq<Cell>) { |FullCells(cells)| <= (|cells| - 1) / 2 }

  lemma CardSubset<T>(a: set<T>, b: set<T>)
    requires a <= b
    ensures |a| <= |b|
  {
    assert b == a + (b - a);
  }

  lemma PassedAt(cells: seq<Cell>, h: nat, key: int, k: nat, i: nat)
    requires |cells| > 0 && PassedBy(cells, h, key, k) && i < k
    ensures Full(cells[Probe(h, i, |cells|)]) && cells[Probe(h, i, |cells|)].element != key
  {
  }

  // two ends of one search are the same end
  lemma OneEnd(cells: seq<Cell>, h: nat, key: int, pos: nat, k: nat, pos': nat, k': nat)
    requires |cells| > 0 && StopsAt(cells, h, key, pos, k) && StopsAt(cells, h, key, pos', k')
    ensures k == k' && pos == pos'
  {
    if k < k' { PassedAt(cells, h, key, k', k); }
    if k' < k { PassedAt(cells, h, key, k, k'); }
  }

  // a search ends at the key's own cell exactly if some cell in use holds the key
  lemma EndMeans(cells: seq<Cell>, hash: (int, nat) -> nat, key: int, pos: nat, k: nat)
    requires |cells| > 0 && Placed(cells, hash) && StopsAt(cells, hash(key, |cells|), key, pos, k)
    ensures forall q: nat | q < |cells| && Full(cells[q]) && cells[q].element == key :: q == pos
    ensures key in Elements(cells) <==> cells[pos].info == Legitimate
  {
    forall q: nat | q < |cells| && Full(cells[q]) && cells[q].element == key ensures q == pos {
      assert Reachable(cells, hash, q);
      var j: nat :| StopsAt(cells, hash(key, |cells|), key, q, j);
      OneEnd(cells, hash(key, |cells|), key, pos, k, q, j);
    }
  }

  // storing the key where its search ended
  lemma StoreKeeps(cells: seq<Cell>, hash: (int, nat) -> nat, key: int, pos: nat, k: nat)
    requires |cells| > 0 && Placed(cells, hash) && StopsAt(cells, hash(key, |cells|), key, pos, k)
    ensures var cells' := cells[pos := Cell(key, Legitimate)];
            && Placed(cells', hash) && Elements(cells') == Elements(cells) + {key}
            && FullCells(cells') == FullCells(cells) + {pos}
  {
    var cells' := cells[pos := Cell(key, Legitimate)];
    var n := |cells|;
    forall q: nat | q < n && Full(cells'[q]) ensures Reachable(cells', hash, q) {
      if q == pos {
        assert StopsAt(cells', hash(key, n), key, pos, k);
      } else {
        assert Reachable(cells, hash, q);
        var x := cells[q].element;
        var j: nat :| StopsAt(cells, hash(x, n), x, q, j);
        EndMeans(cells, hash, key, pos, k);
        assert StopsAt(cells', hash(x, n), x, q, j);
      }
    }
    assert Elements(cells') == Elements(cells) + {key} by {
      EndMeans(cells, hash, key, pos, k);
      assert cells'[pos].info == Legitimate && cells'[pos].element == key;
      forall x | x in Elements(cells) ensures x in Elements(cells') {
        var q :| 0 <= q < n && cells[q].info == Legitimate && cells[q].element == x;
        assert q != pos ==> cells'[q] == cells[q];
      }
      forall x | x in Elements(cells') ensures x in Elements(cells) + {key} {
        var q :| 0 <= q < n && cells'[q].info == Legitimate && cells'[q].element == x;
        assert q != pos ==> cells'[q] == cells[q];
      }
    }
  }

  // the cells probes 0..k look at
  ghost function Seen(h: nat, k: nat, p: nat): set<nat>
    requires p > 0
  {
    set i: nat | i < k :: Probe(h, i, p)
  }

  lemma {:induction false} SeenCard(h: nat, k: nat, p: nat)
    requires Prime(p) && k <= (p - 1) / 2 + 1
    ensures |Seen(h, k, p)| == k
  {
    if k > 0 {
      SeenCard(h, k - 1, p);
      forall i: nat | i < k - 1 ensures Probe(h, i, p) != Probe(h, k - 1, p) { ProbesDistinct(h, i, k - 1, p); }
      assert Seen(h, k, p) == Seen(h, k - 1, p) + {Probe(h, k - 1, p)};
    }
  }

  // after k collisions that are all in use, and one more, a sparse table still has probes left
  lemma ProbesLeft(cells: seq<Cell>, h: nat, key: int, k: nat)
    requires Prime(|cells|) && Sparse(cells) && PassedBy(cells, h, key, k) && k <= (|cells| - 1) / 2
    requires Full(cells[Probe(h, k, |cells|)])
    ensures k + 1 <= (|cells| - 1) / 2
  {
    SeenCard(h, k + 1, |cells|);
    hide Prime;
    CardSubset(Seen(h, k + 1, |cells|), FullCells(cells));
  }

  lemma PassedOneMore(cells: seq<Cell>, h: nat, key: int, k: nat)
    requires |cells| > 0 && PassedBy(cells, h, key, k)
    requires Full(cells[Probe(h, k, |cells|)]) && cells[Probe(h, k, |cells|)].element != key
    ensures PassedBy(cells, h, key, k + 1)
  {
  }

  lemma Stops(cells: seq<Cell>, h: nat, key: int, pos: nat, k: nat)
    requires |cells| > 0 && k <= (|cells| - 1) / 2 && pos == Probe(h, k, |cells|) && PassedBy(cells, h, key, k)
    requires cells[pos].info == Empty || cells[pos].element == key
    ensures StopsAt(cells, h, key, pos, k)
  {
  }

  class HashTable {
    const tablesize: nat
    const thecells: array<Cell>
    const hash: (int, nat) -> nat

    ghost predicate Valid()
      reads this, thecells
    {
      && thecells.Length == tablesize && Prime(tablesize) && HashOk(hash) && Placed(thecells[..], hash)
    }

    constructor (size: nat, hash: (int, nat) -> nat)
      requires Prime(size) && HashOk(hash)
      ensures Valid() && fresh(thecells) && tablesize == size && this.hash == hash
      ensures Elements(thecells[..]) == {} && FullCells(thecells[..]) == {}
    {
      tablesize := size;
      thecells := new Cell[size](_ => Cell(0, Empty));
      this.hash := hash;
    }

    // ends at the key's cell, or at an empty one if the key is not in the table
    method Find(key: int) returns (pos: nat)
      requires Valid() && Sparse(thecells[..])
      ensures pos < tablesize
      ensures exists k: nat :: StopsAt(thecells[..], hash(key, tablesize), key, pos, k)
      ensures key in Elements(thecells[..]) <==> thecells[pos].info == Legitimate
      ensures thecells[pos].info == Empty || thecells[pos].element == key
    {
      assert tablesize > 0 && hash(key, tablesize) < tablesize;
      hide Prime, Probe, StopsAt, PassedBy, Sparse, FullCells, Elements, Placed;
      ghost var cells, h, p := thecells[..], hash(key, tablesize), tablesize;
      var collisionnum: nat := 0;
      pos := hash(key, tablesize);
      SmallMod(h, p);
      PassedNone(cells, h, key);
      while thecells[pos].info != Empty && thecells[pos].element != key
        invariant collisionnum <= (p - 1) / 2 && pos == Probe(h, collisionnum, p)
        invariant PassedBy(cells, h, key, collisionnum)
        decreases p - collisionnum
      {
        ProbesLeft(cells, h, key, collisionnum);
        collisionnum := collisionnum + 1;
        NextProbe(h, collisionnum, p, pos);
        PassedOneMore(cells, h, key, collisionnum - 1);
        pos := pos + 2 * collisionnum - 1;
        if pos >= tablesize {
          pos := pos - tablesize;
        }
      }
      Stops(cells, h, key, pos, collisionnum);
      EndMeans(cells, hash, key, pos, collisionnum);
      assert StopsAt(thecells[..], hash(key, tablesize), key, pos, collisionnum);
    }

    method Insert(key: int)
      requires Valid() && Sparse(thecells[..])
      modifies thecells
      ensures Valid() && Elements(thecells[..]) == old(Elements(thecells[..])) + {key}
      ensures |FullCells(thecells[..])| <= old(|FullCells(thecells[..])|) + 1
      ensures exists pos: nat :: pos < tablesize && thecells[..] == old(thecells[..])[pos := thecells[pos]]
    {
      var pos := Find(key);
      ghost var cells := thecells[..];
      ghost var k: nat :| StopsAt(cells, hash(key, tablesize), key, pos, k);
      StoreKeeps(cells, hash, key, pos, k);
      EndMeans(cells, hash, key, pos, k);
      if thecells[pos].info != Legitimate {
        thecells[pos] := Cell(key, Legitimate);
        assert thecells[..] == cells[pos := Cell(key, Legitimate)];
      } else {
        assert cells[pos := Cell(key, Legitimate)] == cells;
      }
    }
  }

  lemma PassedNone(cells: seq<Cell>, h: nat, key: int)
    requires |cells| > 0
    ensures PassedBy(cells, h, key, 0)
  {
  }

  lemma SmallMod(h: nat, p: nat)
    requires h < p
    ensures Probe(h, 0, p) == h
  {
  }

  // a table of at least twice the old size, holding exactly the old table's elements, whatever
  // state the old table is in; a size below the minimum makes the program insert into NULL unless
  // there is nothing to insert
  method Rehash(h: HashTable, mintablesize: nat, nextprime: nat -> nat) returns (r: HashTable?)
    requires h.tablesize == h.thecells.Length && HashOk(h.hash)
    requires forall n :: nextprime(n) >= n && Prime(nextprime(n))
    requires 2 * h.tablesize < mintablesize ==> Elements(h.thecells[..]) == {}
    ensures r == null <==> 2 * h.tablesize < mintablesize
    ensures r != null ==>
              fresh(r) && fresh(r.thecells) && r.Valid() && r.hash == h.hash
              && r.tablesize == nextprime(2 * h.tablesize)
    ensures r != null ==> Elements(r.thecells[..]) == Elements(h.thecells[..])
  {
    var oldsize := h.tablesize;
    if 2 * oldsize < mintablesize {
      return null;
    }
    var t := new HashTable(nextprime(2 * oldsize), h.hash);
    var i := 0;
    while i < oldsize
      invariant 0 <= i <= oldsize && fresh(t) && fresh(t.thecells) && t.Valid()
      invariant h.thecells[..] == old(h.thecells[..])
      invariant Elements(t.thecells[..]) == Elements(h.thecells[..][..i])
      invariant |FullCells(t.thecells[..])| <= i
    {
      ghost var was := h.thecells[..];
      TakeOne(was, i);
      if h.thecells[i].info == Legitimate {
        t.Insert(h.thecells[i].element);
      }
      i := i + 1;
    }
    assert h.thecells[..][..i] == h.thecells[..];
    r := t;
  }

  lemma TakeOne(cells: seq<Cell>, i: nat)
    requires i < |cells|
    ensures Elements(cells[..i + 1]) == Elements(cells[..i])
            + (if cells[i].info == Legitimate then {cells[i].element} else {})
  {
    var a, b := cells[..i], cells[..i + 1];
    forall x | x in Elements(a) ensures x in Elements(b) {
      var q :| 0 <= q < i && a[q].info == Legitimate && a[q].element == x;
      assert b[q] == a[q];
    }
    forall x | x in Elements(b) ensures x in Elements(a) || (cells[i].info == Legitimate && x == cells[i].element) {
      var q :| 0 <= q < i + 1 && b[q].info == Legitimate && b[q].element == x;
      if q < i { assert a[q] == b[q]; }
    }
    if cells[i].info == Legitimate { assert b[i] == cells[i]; }
  }
}
