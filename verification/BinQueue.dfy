/**
 The binomial queue: a forest with at most one heap-ordered binomial tree of each order.
 */
module BinQueue {
  import opened Common

  // The evident intent is modelled where the text slips: h2's trees are read from h2, the switch
  // looks at t1 and t2, and cases 5 and 6 clear slot i.  Trees as values, in first-child,
  // next-sibling form, say what the linked nodes spell.

  datatype Tree = Null | Node(element: int, leftchild: Tree, nextsibling: Tree)

  // ---- trees ----

  function Elems(t: Tree): multiset<int> {
    if t == Null then multiset{} else multiset{t.element} + Elems(t.leftchild) + Elems(t.nextsibling)
  }

  // c is a list of binomial trees of orders k-1, ..., 1, 0
  predicate Kids(c: Tree, k: nat) {
    if k == 0 then c == Null else c.Node? && Kids(c.leftchild, k - 1) && Kids(c.nextsibling, k - 1)
  }

  // in the list c and below it, no element is smaller than its parent; lo is the parent of c
  predicate Ordered(c: Tree, lo: int) {
    c.Node? ==> lo <= c.element && Ordered(c.leftchild, c.element) && Ordered(c.nextsibling, lo)
  }

  // a heap-ordered binomial tree of order k that is a root
  predicate IsTree(t: Tree, k: nat) {
    t.Node? && t.nextsibling == Null && Kids(t.leftchild, k) && Ordered(t.leftchild, t.element)
  }

  lemma NodeCard(c: Tree)
    ensures |Elems(c)| == if c.Node? then 1 + |Elems(c.leftchild)| + |Elems(c.nextsibling)| else 0
  {
  }

  lemma {:induction false} KidsSize(c: Tree, k: nat)
    requires Kids(c, k)
    ensures |Elems(c)| == Pow2(k) - 1
  {
    hide Elems;
    NodeCard(c);
    if k > 0 {
      KidsSize(c.leftchild, k - 1);
      KidsSize(c.nextsibling, k - 1);
    }
  }

  // exactly 2^k elements
  lemma TreeSize(t: Tree, k: nat)
    requires IsTree(t, k)
    ensures |Elems(t)| == Pow2(k)
  {
    KidsSize(t.leftchild, k);
  }

  lemma {:induction false} OrderedMin(c: Tree, lo: int)
    requires Ordered(c, lo)
    ensures forall x | x in Elems(c) :: lo <= x
  {
    if c.Node? {
      OrderedMin(c.leftchild, c.element);
      OrderedMin(c.nextsibling, lo);
    }
  }

  // the root of a tree is its minimum
  lemma RootMin(t: Tree, k: nat)
    requires IsTree(t, k)
    ensures t.element in Elems(t) && forall x | x in Elems(t) :: t.element <= x
  {
    OrderedMin(t.leftchild, t.element);
  }

  function CombineTrees(t1: Tree, t2: Tree): (r: Tree)
    requires t1.Node? && t2.Node?
    decreases if t1.element > t2.element then 1 else 0
  {
    if t1.element > t2.element then CombineTrees(t2, t1)
    else t1.(leftchild := t2.(nextsibling := t1.leftchild))
  }

  // two trees of order k make one of order k + 1 with the elements of both
  lemma Combines(t1: Tree, t2: Tree, k: nat)
    requires IsTree(t1, k) && IsTree(t2, k)
    ensures IsTree(CombineTrees(t1, t2), k + 1) && Elems(CombineTrees(t1, t2)) == Elems(t1) + Elems(t2)
    decreases if t1.element > t2.element then 1 else 0
  {
    if t1.element > t2.element {
      Combines(t2, t1, k);
    } else {
      var t2' := t2.(nextsibling := t1.leftchild);
      assert Kids(t2', k + 1);
      assert Elems(t2') == multiset{t2.element} + Elems(t2.leftchild) + Elems(t1.leftchild);
      assert Elems(t2) == multiset{t2.element} + Elems(t2.leftchild);
    }
  }

  // ---- forests ----

  predicate SlotOk(t: Tree, i: nat) { t == Null || IsTree(t, i) }

  ghost predicate SlotsOk(trees: seq<Tree>, from: nat) {
    forall i {:trigger trees[i]} | 0 <= i < |trees| :: SlotOk(trees[i], from + i)
  }

  function Contents(trees: seq<Tree>): multiset<int> {
    if trees == [] then multiset{} else Elems(trees[0]) + Contents(trees[1..])
  }

  // the occupied slots read as a binary number, slot 0 first
  function Number(trees: seq<Tree>): nat {
    if trees == [] then 0 else (if trees[0] == Null then 0 else 1) + 2 * Number(trees[1..])
  }

  function Bit(x: nat, i: nat): bool { if i == 0 then x % 2 == 1 else Bit(x / 2, i - 1) }

  lemma Halves(trees: seq<Tree>)
    requires |trees| > 0
    ensures Number(trees) / 2 == Number(trees[1..]) && (Number(trees) % 2 == 1 <==> trees[0] != Null)
  {
  }

  lemma {:induction false} NumberBits(trees: seq<Tree>, i: nat)
    requires i < |trees|
    ensures trees[i] != Null <==> Bit(Number(trees), i)
  {
    Halves(trees);
    hide Number;
    if i > 0 { NumberBits(trees[1..], i - 1); }
  }

  lemma Doubling(a: nat, b: nat, d: nat)
    requires d <= 1
    ensures (if d == 1 then a else 0) + (a * 2) * b == a * (d + 2 * b)
  {
    assert (a * 2) * b == a * (2 * b);
    assert a * (d + 2 * b) == a * d + a * (2 * b);
  }

  lemma {:induction false} SizeIsNumber(trees: seq<Tree>, from: nat)
    requires SlotsOk(trees, from)
    ensures |Contents(trees)| == Pow2(from) * Number(trees)
  {
    hide Elems, IsTree;
    if trees != [] {
      forall i | 0 <= i < |trees[1..]| ensures SlotOk(trees[1..][i], from + 1 + i) {
        assert trees[1..][i] == trees[i + 1] && SlotOk(trees[i + 1], from + (i + 1));
      }
      SizeIsNumber(trees[1..], from + 1);
      assert SlotOk(trees[0], from + 0);
      NoElems();
      if trees[0] != Null { TreeSize(trees[0], from); }
      Doubling(Pow2(from), Number(trees[1..]), if trees[0] == Null then 0 else 1);
      PowStep(from);
    }
  }

  // the size of a queue is the binary number its slots spell, and slot i is its bit i
  lemma SlotsAreBits(trees: seq<Tree>, i: nat)
    requires SlotsOk(trees, 0) && i < |trees|
    ensures trees[i] != Null <==> Bit(|Contents(trees)|, i)
  {
    hide SlotsOk, Number, Bit, Contents, Pow2;
    SizeIsNumber(trees, 0);
    NumberBits(trees, i);
    PowZero();
    assert 1 * Number(trees) == Number(trees);
  }

  lemma BesideSame(e: multiset<int>, r: multiset<int>, q: multiset<int>, x: multiset<int>, y: multiset<int>)
    requires r + x == q + y
    ensures e + r + x == e + q + y
  {
    assert e + r + x == e + (r + x);
    assert e + q + y == e + (q + y);
  }

  lemma {:induction false} ContentsUpdate(trees: seq<Tree>, i: nat, t: Tree)
    requires i < |trees|
    ensures Contents(trees[i := t]) + Elems(trees[i]) == Contents(trees) + Elems(t)
  {
    hide Elems;
    if i > 0 {
      ContentsUpdate(trees[1..], i - 1, t);
      assert trees[i := t][1..] == trees[1..][i - 1 := t];
      assert trees[1..][i - 1] == trees[i];
      BesideSame(Elems(trees[0]), Contents(trees[1..][i - 1 := t]), Contents(trees[1..]), Elems(trees[i]), Elems(t));
    } else {
      assert trees[0 := t][1..] == trees[1..];
    }
  }

  lemma {:induction false} SlotWithin(trees: seq<Tree>, i: nat)
    requires i < |trees|
    ensures Elems(trees[i]) <= Contents(trees)
  {
    if i > 0 { SlotWithin(trees[1..], i - 1); }
  }

  lemma {:induction false} AllNull(trees: seq<Tree>)
    requires forall i | 0 <= i < |trees| :: trees[i] == Null
    ensures Contents(trees) == multiset{}
  {
    if trees != [] { AllNull(trees[1..]); }
  }

  // an element is in some slot
  lemma {:induction false} InSomeSlot(trees: seq<Tree>, x: int) returns (i: nat)
    requires x in Contents(trees)
    ensures i < |trees| && x in Elems(trees[i])
  {
    if x in Elems(trees[0]) { i := 0; } else {
      i := InSomeSlot(trees[1..], x);
      i := i + 1;
    }
  }

  lemma NoElems()
    ensures Elems(Null) == multiset{} && forall i :: SlotOk(Null, i)
  {
  }

  // ---- one column of the addition ----

  // what the switch does with the two slots and the carry: what stays in h1, what stays in h2, the next carry
  function Column(t1: Tree, t2: Tree, carry: Tree): (Tree, Tree, Tree) {
    if t1 == Null && t2 == Null && carry == Null then (t1, t2, carry)
    else if t2 == Null && carry == Null then (t1, t2, carry)
    else if t1 == Null && carry == Null then (t2, Null, carry)
    else if t1 == Null && t2 == Null then (carry, t2, Null)
    else if carry == Null then (Null, Null, CombineTrees(t1, t2))
    else if t2 == Null then (Null, t2, CombineTrees(t1, carry))
    else if t1 == Null then (t1, Null, CombineTrees(t2, carry))
    else (carry, Null, CombineTrees(t1, t2))
  }

  // sum and carry bits are right, and no element is lost or made
  lemma ColumnAdds(t1: Tree, t2: Tree, carry: Tree, i: nat)
    requires SlotOk(t1, i) && SlotOk(t2, i) && SlotOk(carry, i)
    ensures var (s, z, c) := Column(t1, t2, carry);
            && SlotOk(s, i) && z == Null && SlotOk(c, i + 1)
            && Elems(s) + Elems(c) == Elems(t1) + Elems(t2) + Elems(carry)
  {
    hide IsTree, Elems, CombineTrees;
    NoElems();
    if t1 != Null && t2 != Null { Combines(t1, t2, i); }
    else if t1 != Null && carry != Null { Combines(t1, carry, i); }
    else if t2 != Null && carry != Null { Combines(t2, carry, i); }
  }

  // ---- the nodes ----

  class BinNode {
    var element: int
    var leftchild: BinNode?
    var nextsibling: BinNode?
    ghost var repr: set<BinNode>    // this node and all below and behind it
  }

  ghost function Owned(n: BinNode?): set<BinNode>
    reads n
  {
    if n == null then {} else n.repr
  }

  // the nodes from n on spell the tree t and share nothing
  ghost predicate Shows(n: BinNode?, t: Tree)
    reads n, Owned(n)
    decreases t
  {
    match t
    case Null => n == null
    case Node(element, leftchild, nextsibling) =>
      && n != null && n in n.repr && n.element == element
      && (n.leftchild != null ==> n.leftchild in n.repr && n.leftchild.repr <= n.repr && n !in n.leftchild.repr)
      && (n.nextsibling != null ==> n.nextsibling in n.repr && n.nextsibling.repr <= n.repr && n !in n.nextsibling.repr)
      && (n.leftchild != null && n.nextsibling != null ==> n.leftchild.repr !! n.nextsibling.repr)
      && Shows(n.leftchild, leftchild) && Shows(n.nextsibling, nextsibling)
  }

  lemma OwnsItself(n: BinNode?, t: Tree)
    requires Shows(n, t)
    ensures (n == null <==> t == Null) && (n != null ==> n in n.repr && n.element == t.element)
  {
  }

  lemma Opens(n: BinNode, t: Tree)
    requires Shows(n, t)
    ensures t.Node? && n in n.repr && n.element == t.element
    ensures Shows(n.leftchild, t.leftchild) && Shows(n.nextsibling, t.nextsibling)
    ensures Owned(n.leftchild) <= n.repr - {n} && Owned(n.nextsibling) <= n.repr - {n}
            && Owned(n.leftchild) !! Owned(n.nextsibling)
  {
    OwnsItself(n.leftchild, t.leftchild);
    OwnsItself(n.nextsibling, t.nextsibling);
  }

  lemma Closes(n: BinNode, t: Tree)
    requires t.Node? && n in n.repr && n.element == t.element
    requires Shows(n.leftchild, t.leftchild) && Shows(n.nextsibling, t.nextsibling)
    requires Owned(n.leftchild) <= n.repr - {n} && Owned(n.nextsibling) <= n.repr - {n}
             && Owned(n.leftchild) !! Owned(n.nextsibling)
    ensures Shows(n, t)
  {
    OwnsItself(n.leftchild, t.leftchild);
    OwnsItself(n.nextsibling, t.nextsibling);
  }

  // only the two roots are written
  method CombineNodes(n1: BinNode, n2: BinNode, ghost t1: Tree, ghost t2: Tree) returns (r: BinNode)
    requires Shows(n1, t1) && Shows(n2, t2) && n1.repr !! n2.repr
    modifies n1, n2
    ensures t1.Node? && t2.Node? && Shows(r, CombineTrees(t1, t2)) && r.repr == old(n1.repr + n2.repr)
    decreases if n1.element > n2.element then 1 else 0
  {
    hide Shows;
    Opens(n1, t1);
    Opens(n2, t2);
    if n1.element > n2.element {
      r := CombineNodes(n2, n1, t2, t1);
    } else {
      var child := n1.leftchild;
      ghost var both := n1.repr + n2.repr;
      assert Shows(child, t1.leftchild) && n2 !in Owned(child) && n1 !in Owned(child);
      assert Shows(n2.leftchild, t2.leftchild) && n2 !in Owned(n2.leftchild) && n1 !in Owned(n2.leftchild);
      assert Shows(n1.nextsibling, t1.nextsibling) && n2 !in Owned(n1.nextsibling) && n1 !in Owned(n1.nextsibling);
      n2.nextsibling := child;
      n2.repr := n2.repr + Owned(child);
      assert Shows(child, t1.leftchild) && Shows(n2.leftchild, t2.leftchild) && Shows(n1.nextsibling, t1.nextsibling);
      Closes(n2, t2.(nextsibling := t1.leftchild));
      assert Shows(n2, t2.(nextsibling := t1.leftchild)) && n1 !in Owned(n2);
      n1.leftchild := n2;
      n1.repr := both;
      assert Shows(n2, t2.(nextsibling := t1.leftchild)) && Shows(n1.nextsibling, t1.nextsibling);
      Closes(n1, t1.(leftchild := t2.(nextsibling := t1.leftchild)));
      r := n1;
    }
  }

  class BinomialQueue {
    var currentsize: nat
    const thetrees: array<BinNode?>
    ghost var trees: seq<Tree>        // what the nodes in each slot spell
    ghost var Repr: set<BinNode>      // all nodes of the queue

    // every slot spells its tree, and no node is shared
    ghost predicate Spelled()
      reads this`trees, this`Repr, thetrees, Repr
    {
      && |trees| == thetrees.Length
      && (forall i | 0 <= i < thetrees.Length :: thetrees[i] != null ==> thetrees[i] in Repr)
      && (forall i | 0 <= i < thetrees.Length :: Owned(thetrees[i]) <= Repr)
      && (forall i | 0 <= i < thetrees.Length :: Shows(thetrees[i], trees[i]))
      && (forall i, j | 0 <= i < j < thetrees.Length :: Owned(thetrees[i]) !! Owned(thetrees[j]))
    }

    // slot i holds nothing or a heap-ordered tree of exactly 2^i elements
    ghost predicate Valid()
      reads this, thetrees, Repr
    {
      Spelled() && SlotsOk(trees, 0) && currentsize == |Bag()|
    }

    ghost function Bag(): multiset<int>
      reads this`trees
    {
      Contents(trees)
    }

    constructor (maxtrees: nat)
      ensures Valid() && fresh(thetrees) && thetrees.Length == maxtrees && Bag() == multiset{} && Repr == {}
      ensures forall i | 0 <= i < maxtrees :: thetrees[i] == null && trees[i] == Null
    {
      currentsize := 0;
      thetrees := new BinNode?[maxtrees](_ => null);
      trees := seq(maxtrees, _ => Null);
      Repr := {};
      new;
      AllNull(trees);
    }

    // empties slot i
    method Take(i: nat) returns (n: BinNode?, ghost t: Tree)
      requires Spelled() && i < thetrees.Length
      modifies this`trees, this`Repr, thetrees
      ensures Spelled() && n == old(thetrees[i]) && t == old(trees[i]) && trees == old(trees)[i := Null]
      ensures Shows(n, t) && Owned(n) !! Repr && Repr + Owned(n) == old(Repr)
      ensures thetrees[i] == null
    {
      hide Shows;
      n, t := thetrees[i], trees[i];
      forall k | 0 <= k < thetrees.Length ensures thetrees[k] != null ==> thetrees[k] in Owned(thetrees[k]) {
        OwnsItself(thetrees[k], trees[k]);
      }
      thetrees[i] := null;
      trees := trees[i := Null];
      Repr := Repr - Owned(n);
      OwnsNothing();
    }

    // fills the empty slot i
    method Put(i: nat, n: BinNode?, ghost t: Tree)
      requires Spelled() && i < thetrees.Length && thetrees[i] == null && Shows(n, t) && Owned(n) !! Repr
      modifies this`trees, this`Repr, thetrees
      ensures Spelled() && trees == old(trees)[i := t] && Repr == old(Repr) + Owned(n)
      ensures forall k | 0 <= k < thetrees.Length && k != i :: thetrees[k] == old(thetrees[k])
    {
      hide Shows;
      OwnsItself(n, t);
      thetrees[i] := n;
      trees := trees[i := t];
      Repr := Repr + Owned(n);
    }

    // empties slot i of both queues and combines what was there
    method TakeBoth(h2: BinomialQueue, i: nat) returns (r: BinNode, ghost t: Tree)
      requires this != h2 && thetrees != h2.thetrees && i < thetrees.Length == h2.thetrees.Length
      requires Spelled() && h2.Spelled() && Repr !! h2.Repr && thetrees[i] != null && h2.thetrees[i] != null
      modifies this`trees, this`Repr, thetrees, Repr, h2`trees, h2`Repr, h2.thetrees, h2.Repr
      ensures Spelled() && h2.Spelled() && thetrees[i] == null && h2.thetrees[i] == null
      ensures trees == old(trees)[i := Null] && h2.trees == old(h2.trees)[i := Null]
      ensures old(trees[i]).Node? && old(h2.trees[i]).Node? && t == CombineTrees(old(trees[i]), old(h2.trees[i]))
              && Shows(r, t)
      ensures Repr <= old(Repr) && h2.Repr <= old(h2.Repr) && Owned(r) !! Repr && Owned(r) !! h2.Repr
      ensures Repr + h2.Repr + Owned(r) == old(Repr + h2.Repr)
    {
      hide CombineTrees, Shows;
      var t1, g1 := Take(i);
      var t2, g2 := h2.Take(i);
      OwnsItself(t1, g1);
      OwnsItself(t2, g2);
      r := CombineNodes(t1, t2, g1, g2);
      t := CombineTrees(g1, g2);
    }

    // the switch for column i: returns the next carry
    method AddColumn(h2: BinomialQueue, i: nat, carry: BinNode?, ghost tc: Tree) returns (next: BinNode?,
        ghost tn: Tree)
      requires this != h2 && thetrees != h2.thetrees && i < thetrees.Length == h2.thetrees.Length
      requires Spelled() && h2.Spelled() && Shows(carry, tc)
      requires Repr !! h2.Repr && Owned(carry) !! Repr && Owned(carry) !! h2.Repr
      modifies this`trees, this`Repr, thetrees, Repr, h2`trees, h2`Repr, h2.thetrees, h2.Repr, Owned(carry)
      ensures Spelled() && h2.Spelled() && Shows(next, tn)
      ensures Repr !! h2.Repr && Owned(next) !! Repr && Owned(next) !! h2.Repr
      ensures Repr + h2.Repr + Owned(next) == old(Repr + h2.Repr + Owned(carry))
      ensures var (s, z, c) := Column(old(trees[i]), old(h2.trees[i]), tc);
              tn == c && trees == old(trees)[i := s] && h2.trees == old(h2.trees)[i := z]
    {
      hide Column, CombineTrees, Shows, Spelled;
      SlotAt(i);
      h2.SlotAt(i);
      ColumnStep(trees[i], h2.trees[i], tc);
      OwnsItself(carry, tc);
      next, tn := carry, tc;
      if thetrees[i] != null && h2.thetrees[i] != null && carry != null {
        next, tn := TakeBoth(h2, i);
        Put(i, carry, tc);
      } else if h2.thetrees[i] != null && carry != null {
        var t2, g2 := h2.Take(i);
        next := CombineNodes(t2, carry, g2, tc);
        tn := CombineTrees(g2, tc);
      } else if thetrees[i] != null && carry != null {
        var t1, g1 := Take(i);
        next := CombineNodes(t1, carry, g1, tc);
        tn := CombineTrees(g1, tc);
      } else if thetrees[i] != null && h2.thetrees[i] != null {
        next, tn := TakeBoth(h2, i);
      } else if carry != null {
        Put(i, carry, tc);
        next, tn := null, Null;
        OwnsNothing();
      } else if h2.thetrees[i] != null {
        var t2, g2 := h2.Take(i);
        Put(i, t2, g2);
        OwnsNothing();
      }
    }

    // the loop of merge: column by column until 2^i exceeds the size, or a slot past the end of the
    // array is asked for
    method AddColumns(h2: BinomialQueue) returns (ok: bool, i: nat, carry: BinNode?, ghost tc: Tree)
      requires this != h2 && thetrees != h2.thetrees && thetrees.Length == h2.thetrees.Length
      requires Spelled() && h2.Spelled() && SlotsOk(trees, 0) && SlotsOk(h2.trees, 0) && Repr !! h2.Repr
      requires currentsize == |Bag() + h2.Bag()|
      modifies this`trees, this`Repr, thetrees, Repr, h2`trees, h2`Repr, h2.thetrees, h2.Repr
      ensures ok <==> currentsize <= Pow2(thetrees.Length) - 1
      ensures ok ==> i <= thetrees.Length && currentsize < Pow2(i)
      ensures Spelled() && h2.Spelled() && Shows(carry, tc) && Repr + h2.Repr + Owned(carry) == old(Repr + h2.Repr)
      ensures SlotsOk(trees, 0) && SlotsOk(h2.trees, 0) && SlotOk(tc, i)
      ensures forall k | 0 <= k < i && k < |h2.trees| :: h2.trees[k] == Null
      ensures Bag() + h2.Bag() + Elems(tc) == old(Bag() + h2.Bag())
    {
      hide SlotOk, Pow2, Contents, Elems, Column, Shows, Spelled, SlotsOk;
      ghost var n, total, all := thetrees.Length, Bag() + h2.Bag(), Repr + h2.Repr;
      carry, tc := null, Null;
      i := 0;
      var j := 1;
      PowZero();
      NoElems();
      OwnsNothing();
      SlotCount();
      h2.SlotCount();
      while j <= currentsize
        invariant i <= n && j == Pow2(i)
        invariant Spelled() && h2.Spelled() && Shows(carry, tc) && |trees| == |h2.trees| == n
        invariant Repr !! h2.Repr && Owned(carry) !! Repr && Owned(carry) !! h2.Repr
        invariant Repr + h2.Repr + Owned(carry) == all
        invariant SlotsOk(trees, 0) && SlotsOk(h2.trees, 0) && SlotOk(tc, i)
        invariant forall k | 0 <= k < i :: h2.trees[k] == Null
        invariant Bag() + h2.Bag() + Elems(tc) == total
        decreases n - i
      {
        if i == thetrees.Length {
          return false, i, carry, tc;
        }
        ghost var was1, was2, wasCarry := trees, h2.trees, tc;
        carry, tc := AddColumn(h2, i, carry, tc);
        ColumnKeeps(was1, was2, wasCarry, i);
        PowStep(i);
        i, j := i + 1, j * 2;
      }
      Pow2Monotone(i, n);
      ok := true;
    }

    // moves everything in h2 into this queue; beyond the capacity of 2^maxtrees - 1 the loop goes on
    // to a slot past the end of the array, where the model stops with ok false
    method Merge(h2: BinomialQueue) returns (ok: bool)
      requires Valid() && h2.Valid() && this != h2
      requires thetrees != h2.thetrees && thetrees.Length == h2.thetrees.Length && Repr !! h2.Repr
      modifies this`currentsize, this`trees, this`Repr, thetrees, Repr, h2`trees, h2`Repr, h2.thetrees, h2.Repr
      ensures ok <==> old(currentsize) + old(h2.currentsize) <= Pow2(thetrees.Length) - 1
      ensures currentsize == old(currentsize) + old(h2.currentsize)
      ensures ok ==> Valid() && Bag() == old(Bag()) + old(h2.Bag()) && Repr + h2.Repr == old(Repr + h2.Repr)
      ensures ok ==> forall i | 0 <= i < h2.thetrees.Length :: h2.thetrees[i] == null
    {
      hide SlotOk, Pow2, Contents, Elems, Shows, Spelled, SlotsOk;
      ghost var total := Bag() + h2.Bag();
      currentsize := currentsize + h2.currentsize;
      var i, carry;
      ghost var tc;
      ok, i, carry, tc := AddColumns(h2);
      if ok {
        NothingLeft(tc, i, total);
        OwnsItself(carry, tc);
        NoElems();
        NothingBehind(h2.trees, i, total);
        h2.Empties();
      }
    }

    lemma SlotAt(i: nat)
      requires Spelled() && i < thetrees.Length
      ensures |trees| == thetrees.Length && (thetrees[i] == null <==> trees[i] == Null)
      ensures Owned(thetrees[i]) <= Repr && (thetrees[i] != null ==> thetrees[i] in Owned(thetrees[i]))
    {
      OwnsItself(thetrees[i], trees[i]);
    }

    lemma SlotCount()
      requires Spelled()
      ensures |trees| == thetrees.Length
    {
    }

    // slots that spell nothing are NULL
    lemma Empties()
      requires Spelled() && forall k | 0 <= k < |trees| :: trees[k] == Null
      ensures forall k | 0 <= k < thetrees.Length :: thetrees[k] == null
    {
      hide Shows;
      forall k | 0 <= k < thetrees.Length ensures thetrees[k] == null { OwnsItself(thetrees[k], trees[k]); }
    }

    // the root with the smallest element
    method FindMinTree(infinity: int) returns (minitem: int, mintree: nat)
      requires Valid() && exists x :: x in Bag() && x < infinity
      ensures mintree < thetrees.Length && thetrees[mintree] != null && trees[mintree].Node?
      ensures minitem == thetrees[mintree].element == trees[mintree].element
      ensures minitem in Bag() && forall x | x in Bag() :: minitem <= x
    {
      hide Contents, Elems, IsTree, Shows;
      forall k | 0 <= k < thetrees.Length
        ensures thetrees[k] == null <==> trees[k] == Null
        ensures trees[k].Node? ==> trees[k].element == thetrees[k].element
      {
        OwnsItself(thetrees[k], trees[k]);
      }
      minitem, mintree := infinity, 0;
      var i := 0;
      while i < thetrees.Length
        invariant 0 <= i <= thetrees.Length && minitem <= infinity
        invariant forall k | 0 <= k < i && trees[k].Node? :: minitem <= trees[k].element
        invariant minitem < infinity ==> mintree < i && trees[mintree].Node? && minitem == trees[mintree].element
      {
        if thetrees[i] != null && thetrees[i].element < minitem {
          minitem := thetrees[i].element;
          mintree := i;
        }
        i := i + 1;
      }
      forall x | x in Bag() ensures minitem <= x {
        var k := InSomeSlot(trees, x);
        assert SlotOk(trees[k], 0 + k);
        NullIsEmpty(trees[k], x);
        RootMin(trees[k], k);
      }
      assert minitem < infinity;
      assert SlotOk(trees[mintree], 0 + mintree);
      RootMin(trees[mintree], mintree);
      SlotWithin(trees, mintree);
    }

    // takes the tree of slot i apart: its root is gone, its children are a queue of their own
    method TakeApart(i: nat) returns (kids: BinomialQueue)
      requires Spelled() && SlotsOk(trees, 0) && i < thetrees.Length && thetrees[i] != null
      modifies this`trees, this`Repr, thetrees, Repr
      ensures Spelled() && SlotsOk(trees, 0)
      ensures fresh(kids) && fresh(kids.thetrees) && kids.Valid() && kids.thetrees.Length == thetrees.Length
      ensures kids.Repr !! Repr && kids.Repr + Repr <= old(Repr)
      ensures old(trees[i]).Node? && Bag() + kids.Bag() + multiset{old(trees[i]).element} == old(Bag())
    {
      hide Contents, Elems, IsTree, Shows;
      ghost var was := trees;
      OwnsItself(thetrees[i], trees[i]);
      assert IsTree(was[i], 0 + i) by { assert SlotOk(was[i], 0 + i); }
      RootOff(was[i], i, was[i].element);
      ContentsUpdate(was, i, Null);
      SlotCleared(was, i);
      NoElems();
      var root, t := Take(i);
      Opens(root, t);
      kids := Detach(root.leftchild, t.leftchild, i, t.element, thetrees.Length);
      BagParted(Contents(was), Bag(), kids.Bag(), Elems(was[i]), t.element);
    }

    // removes one minimal element and returns it; -infinity if there is none
    method DeleteMin(infinity: int) returns (minitem: int)
      requires Valid() && (currentsize > 0 ==> exists x :: x in Bag() && x < infinity)
      modifies this`currentsize, this`trees, this`Repr, thetrees, Repr
      ensures Valid() && Repr <= old(Repr)
      ensures old(currentsize) == 0 ==> minitem == -infinity && Bag() == old(Bag())
      ensures old(currentsize) > 0 ==>
                && minitem in old(Bag()) && (forall x | x in old(Bag()) :: minitem <= x)
                && Bag() == old(Bag()) - multiset{minitem} && currentsize == old(currentsize) - 1
    {
      hide Pow2, Contents, Elems, IsTree, Shows, SlotsOk;
      if currentsize == 0 {
        return -infinity;
      }
      ghost var bag := Bag();
      FitsSlots(trees);
      var mintree;
      minitem, mintree := FindMinTree(infinity);
      var kids := TakeApart(mintree);
      BagSplit(bag, Bag(), kids.Bag(), minitem);
      currentsize := currentsize - (kids.currentsize + 1);
      var ok := Merge(kids);
    }
  }

  lemma OwnsNothing()
    ensures Shows(null, Null)
  {
  }

  lemma DetachKeeps(trees: seq<Tree>, j: nat, c: Tree)
    requires j < |trees| && trees[j] == Null && SlotsOk(trees, 0) && Kids(c, j + 1) && c.Node?
             && Ordered(c.leftchild, c.element)
    ensures var t := c.(nextsibling := Null);
            SlotsOk(trees[j := t], 0) && Contents(trees[j := t]) + Elems(c.nextsibling) == Contents(trees) + Elems(c)
  {
    var t := c.(nextsibling := Null);
    assert SlotOk(t, 0 + j);
    ContentsUpdate(trees, j, t);
    FirstAndRest(c);
    hide Contents, Elems, Kids, Ordered;
    var a, b := Contents(trees), Contents(trees[j := t]);
    assert b == a + Elems(t);
    assert b + Elems(c.nextsibling) == a + (Elems(t) + Elems(c.nextsibling));
  }

  // parts the first tree of a list from the rest
  method CutSibling(c: BinNode, ghost tc: Tree) returns (next: BinNode?)
    requires Shows(c, tc)
    modifies c
    ensures tc.Node? && Shows(c, tc.(nextsibling := Null)) && Shows(next, tc.nextsibling)
    ensures Owned(c) !! Owned(next) && Owned(c) + Owned(next) == old(Owned(c)) && next == old(c.nextsibling)
  {
    hide Shows;
    Opens(c, tc);
    next := c.nextsibling;
    assert Shows(next, tc.nextsibling) && c !in Owned(next);
    assert Shows(c.leftchild, tc.leftchild) && c !in Owned(c.leftchild);
    c.nextsibling := null;
    c.repr := c.repr - Owned(next);
    OwnsNothing();
    Closes(c, tc.(nextsibling := Null));
  }

  // the children of a removed root, one in each slot below k, as a queue of their own
  method Detach(deletedtree: BinNode?, ghost td: Tree, k: nat, ghost lo: int, maxtrees: nat) returns (q: BinomialQueue)
    requires Shows(deletedtree, td) && Kids(td, k) && Ordered(td, lo) && k <= maxtrees
    modifies Owned(deletedtree)
    ensures fresh(q) && fresh(q.thetrees) && q.Valid() && q.thetrees.Length == maxtrees
    ensures q.Bag() == Elems(td) && q.currentsize == Pow2(k) - 1 && q.Repr <= old(Owned(deletedtree))
  {
    hide Contents, Pow2, Elems, SlotsOk, Shows;
    ghost var all := Owned(deletedtree);
    NoElems();
    OwnsNothing();
    q := new BinomialQueue(maxtrees);
    q.currentsize := Pow2(k) - 1;
    var j: nat, c := k, deletedtree;
    ghost var tc := td;
    OwnsItself(c, tc);
    while j > 0
      invariant j <= k && Shows(c, tc) && Kids(tc, j) && Ordered(tc, lo)
      invariant c == null <==> tc == Null
      invariant fresh(q) && fresh(q.thetrees) && q.thetrees.Length == maxtrees && q.Spelled() && SlotsOk(q.trees, 0)
      invariant Owned(c) !! q.Repr && q.Repr + Owned(c) <= all
      invariant forall i | 0 <= i < j :: q.trees[i] == Null && q.thetrees[i] == null
      invariant q.Bag() + Elems(tc) == Elems(td)
      invariant q.currentsize == Pow2(k) - 1
    {
      j := j - 1;
      ghost var was, t := q.trees, tc.(nextsibling := Null);
      OwnsItself(c, tc);
      assert q.Spelled() && c !in q.Repr;
      var next := CutSibling(c, tc);
      assert q.Spelled();
      q.Put(j, c, t);
      DetachKeeps(was, j, tc);
      c, tc := next, tc.nextsibling;
      OwnsItself(c, tc);
    }
    assert tc == Null && q.Bag() == Elems(td);
    KidsSize(td, k);
  }

  lemma {:induction false} NumberBound(trees: seq<Tree>)
    ensures Number(trees) < Pow2(|trees|)
  {
    if trees != [] { NumberBound(trees[1..]); }
  }

  // a queue never has more elements than its slots can hold
  lemma FitsSlots(trees: seq<Tree>)
    requires SlotsOk(trees, 0)
    ensures |Contents(trees)| <= Pow2(|trees|) - 1
  {
    hide SlotsOk, Number, Contents, Pow2;
    SizeIsNumber(trees, 0);
    NumberBound(trees);
    PowZero();
    assert 1 * Number(trees) == Number(trees);
  }

  lemma FirstAndRest(c: Tree)
    requires c.Node?
    ensures Elems(c) == Elems(c.(nextsibling := Null)) + Elems(c.nextsibling)
    ensures Elems(Null) == multiset{}
  {
    assert Elems(c.(nextsibling := Null)) == multiset{c.element} + Elems(c.leftchild);
  }

  lemma PowZero()
    ensures Pow2(0) == 1
  {
  }

  lemma PowStep(i: nat)
    ensures Pow2(i + 1) == Pow2(i) * 2
  {
  }

  lemma NullIsEmpty(t: Tree, x: int)
    requires x in Elems(t)
    ensures t.Node?
  {
  }

  // the switch of merge written as tests on the three trees
  lemma ColumnStep(t1: Tree, t2: Tree, carry: Tree)
    ensures Column(t1, t2, carry) ==
            if t1 != Null && t2 != Null && carry != Null then (carry, Null, CombineTrees(t1, t2))
            else if t2 != Null && carry != Null then (t1, Null, CombineTrees(t2, carry))
            else if t1 != Null && carry != Null then (Null, t2, CombineTrees(t1, carry))
            else if t1 != Null && t2 != Null then (Null, Null, CombineTrees(t1, t2))
            else if carry != Null then (carry, t2, Null)
            else if t2 != Null then (t2, Null, carry)
            else (t1, t2, carry)
  {
    hide CombineTrees;
  }

  lemma ColumnKeeps(trees1: seq<Tree>, trees2: seq<Tree>, carry: Tree, i: nat)
    requires SlotsOk(trees1, 0) && SlotsOk(trees2, 0) && i < |trees1| == |trees2| && SlotOk(carry, i)
    ensures var (s, z, c) := Column(trees1[i], trees2[i], carry);
            && z == Null && SlotOk(c, i + 1) && SlotsOk(trees1[i := s], 0) && SlotsOk(trees2[i := z], 0)
            && Contents(trees1[i := s]) + Contents(trees2[i := z]) + Elems(c) == Contents(trees1) + Contents(trees2)
              + Elems(carry)
  {
    hide Column, Elems, Contents, SlotOk;
    assert SlotOk(trees1[i], 0 + i) && SlotOk(trees2[i], 0 + i);
    var (s, z, c) := Column(trees1[i], trees2[i], carry);
    ColumnAdds(trees1[i], trees2[i], carry, i);
    SlotStep(trees1, trees2, i, s);
    ContentsUpdate(trees1, i, s);
    ContentsUpdate(trees2, i, Null);
    NoElems();
    Conserved(Contents(trees1), Contents(trees2), Elems(trees1[i]), Elems(trees2[i]), Elems(carry), Elems(s), Elems(c),
              Contents(trees1[i := s]), Contents(trees2[i := z]));
  }

  lemma SlotStep(trees1: seq<Tree>, trees2: seq<Tree>, i: nat, t: Tree)
    requires SlotsOk(trees1, 0) && SlotsOk(trees2, 0) && i < |trees1| == |trees2| && SlotOk(t, i)
    ensures SlotsOk(trees1[i := t], 0) && SlotsOk(trees2[i := Null], 0)
  {
    hide IsTree;
  }

  lemma SlotCleared(trees: seq<Tree>, i: nat)
    requires SlotsOk(trees, 0) && i < |trees|
    ensures SlotsOk(trees[i := Null], 0)
  {
    hide IsTree;
  }

  lemma Conserved(a: multiset<int>, b: multiset<int>, e1: multiset<int>, e2: multiset<int>, c: multiset<int>,
                  s: multiset<int>, c': multiset<int>, a': multiset<int>, b': multiset<int>)
    requires a' + e1 == a + s && b' + e2 == b + Elems(Null) && s + c' == e1 + e2 + c
    ensures a' + b' + c' == a + b + c
  {
    assert Elems(Null) == multiset{};
    forall x ensures (a' + b' + c')[x] == (a + b + c)[x] {
      assert (a' + e1)[x] == (a + s)[x] && (b' + e2)[x] == b[x] && (s + c')[x] == (e1 + e2 + c)[x];
    }
  }

  // a tree too big for the total is not there
  lemma NothingLeft(t: Tree, k: nat, total: multiset<int>)
    requires SlotOk(t, k) && Elems(t) <= total && |total| < Pow2(k)
    ensures t == Null
  {
    var rest := total - Elems(t);
    assert total == Elems(t) + rest;
    if t != Null { TreeSize(t, k); }
  }

  // when the total is below 2^i no slot from i on can be in use
  lemma NothingBehind(trees: seq<Tree>, i: nat, total: multiset<int>)
    requires SlotsOk(trees, 0) && Contents(trees) <= total && |total| < Pow2(i)
    requires forall k | 0 <= k < i && k < |trees| :: trees[k] == Null
    ensures Contents(trees) == multiset{} && forall k | 0 <= k < |trees| :: trees[k] == Null
  {
    hide Contents, Pow2, IsTree, Elems;
    forall k | 0 <= k < |trees| ensures trees[k] == Null {
      if i <= k {
        assert SlotOk(trees[k], 0 + k);
        SlotWithin(trees, k);
        Pow2Monotone(i, k);
        NothingLeft(trees[k], k, total);
      }
    }
    AllNull(trees);
  }

  lemma RootOff(t: Tree, k: nat, minitem: int)
    requires IsTree(t, k) && t.element == minitem
    ensures Elems(t) == multiset{minitem} + Elems(t.leftchild) && Kids(t.leftchild, k) && Ordered(t.leftchild, minitem)
    ensures |Elems(t)| == Pow2(k)
  {
    TreeSize(t, k);
  }

  lemma BagParted(bag: multiset<int>, rest: multiset<int>, kids: multiset<int>, t: multiset<int>, x: int)
    requires rest + t == bag + multiset{} && t == multiset{x} + kids
    ensures rest + kids + multiset{x} == bag
  {
    assert rest + (multiset{x} + kids) == bag;
  }

  lemma BagSplit(bag: multiset<int>, rest: multiset<int>, kids: multiset<int>, x: int)
    requires rest + kids + multiset{x} == bag
    ensures rest + kids == bag - multiset{x} && |rest| + |kids| + 1 == |bag|
  {
  }
}
