/**
 AVL insertion.  Trees as values give the meaning of the rotations and of insert_node; the nodes
 below do it in place, reassigning left, right and height.
 */
module Avl {

  datatype Tree = Null | Node(element: int, left: Tree, right: Tree, height: int)

  // height(p): the stored height, 0 for NULL
  function Height(t: Tree): int { if t.Null? then 0 else t.height }

  function Max(a: int, b: int): int { if a > b then a else b }

  function Keys(t: Tree): set<int> { if t.Null? then {} else {t.element} + Keys(t.left) + Keys(t.right) }

  function Size(t: Tree): nat { if t.Null? then 0 else 1 + Size(t.left) + Size(t.right) }

  // ---- what insert_node computes ----

  function WithHeight(e: int, l: Tree, r: Tree): Tree { Node(e, l, r, Max(Height(l), Height(r)) + 1) }

  function LeftLeftRotate(k2: Tree): Tree
    requires k2.Node? && k2.left.Node?
  {
    var k1 := k2.left;
    WithHeight(k1.element, k1.left, WithHeight(k2.element, k1.right, k2.right))
  }

  function RightRightRotate(k2: Tree): Tree
    requires k2.Node? && k2.right.Node?
  {
    var k1 := k2.right;
    WithHeight(k1.element, WithHeight(k2.element, k2.left, k1.left), k1.right)
  }

  function LeftRightRotate(k3: Tree): Tree
    requires k3.Node? && k3.left.Node? && k3.left.right.Node?
  {
    LeftLeftRotate(k3.(left := RightRightRotate(k3.left)))
  }

  function RightLeftRotate(k3: Tree): Tree
    requires k3.Node? && k3.right.Node? && k3.right.left.Node?
  {
    RightRightRotate(k3.(right := LeftLeftRotate(k3.right)))
  }

  // the rebalancing after an insertion of x below t on the left, and on the right; a rotation that
  // would follow a missing child is a state that insertion never reaches
  function FixLeft(t: Tree, x: int): Tree
    requires t.Node?
  {
    if Height(t.left) - Height(t.right) == 2 && t.left.Node? then
      if x < t.left.element then LeftLeftRotate(t)
      else if t.left.right.Node? then LeftRightRotate(t) else t
    else t
  }

  function FixRight(t: Tree, x: int): Tree
    requires t.Node?
  {
    if Height(t.right) - Height(t.left) == 2 && t.right.Node? then
      if x > t.right.element then RightRightRotate(t)
      else if t.right.left.Node? then RightLeftRotate(t) else t
    else t
  }

  function Insert(t: Tree, x: int): Tree {
    var u := if t.Null? then Node(x, Null, Null, 0)
             else if x < t.element then FixLeft(t.(left := Insert(t.left, x)), x)
             else if x > t.element then FixRight(t.(right := Insert(t.right, x)), x)
             else t;
    if u.Null? then u else u.(height := Max(Height(u.left), Height(u.right)) + 1)
  }

  // ---- AVL trees ----

  ghost predicate Below(t: Tree, x: int) { forall k | k in Keys(t) :: k < x }

  ghost predicate Above(t: Tree, x: int) { forall k | k in Keys(t) :: k > x }

  // search order, correct heights, and balance within 1
  ghost predicate Valid(t: Tree) {
    t.Node? ==>
      && Valid(t.left) && Valid(t.right)
      && Below(t.left, t.element) && Above(t.right, t.element)
      && t.height == Max(Height(t.left), Height(t.right)) + 1
      && -1 <= Height(t.left) - Height(t.right) <= 1
  }

  lemma {:induction false} HeightPositive(t: Tree)
    requires Valid(t)
    ensures Height(t) >= 0 && (t.Node? <==> Height(t) >= 1)
  {
    if t.Node? { HeightPositive(t.left); HeightPositive(t.right); }
  }

  // the tree grew: then its root is still the old one, and the side x went to is now the higher one
  ghost predicate Grew(t: Tree, u: Tree, x: int) {
    && u.Node?
    && (t.Node? ==> u.element == t.element && x != t.element
                    && (x < t.element ==> Height(u.left) == Height(u.right) + 1)
                    && (x > t.element ==> Height(u.right) == Height(u.left) + 1))
    && (t.Null? ==> u == Node(x, Null, Null, 1))
  }

  ghost predicate Inserted(t: Tree, u: Tree, x: int) {
    && Valid(u) && u.Node? && Keys(u) == Keys(t) + {x}
    && (Height(u) == Height(t) || (Height(u) == Height(t) + 1 && Grew(t, u, x)))
  }

  lemma {:induction false} InsertKeeps(t: Tree, x: int)
    requires Valid(t)
    ensures Inserted(t, Insert(t, x), x)
    decreases t
  {
    HeightPositive(t);
    if t.Null? {
      assert Insert(t, x) == Node(x, Null, Null, 1);
    } else if x < t.element {
      InsertKeeps(t.left, x);
      LeftKeeps(t, Insert(t.left, x), x);
    } else if x > t.element {
      InsertKeeps(t.right, x);
      RightKeeps(t, Insert(t.right, x), x);
    } else {
      assert Insert(t, x) == t;
      assert Keys(t) == Keys(t) + {x};
    }
  }

  function Redone(u: Tree): Tree { if u.Null? then u else u.(height := Max(Height(u.left), Height(u.right)) + 1) }

  lemma LeftKeeps(t: Tree, l: Tree, x: int)
    requires Valid(t) && t.Node? && x < t.element && Inserted(t.left, l, x)
    ensures Inserted(t, Redone(FixLeft(t.(left := l), x)), x)
  {
    var s := t.(left := l);
    HeightPositive(t.left);
    HeightPositive(t.right);
    assert Keys(s) == Keys(t) + {x} && Below(l, t.element);
    if Height(l) - Height(t.right) == 2 {
      assert Grew(t.left, l, x) && t.left.Node?;
      HeightPositive(l.left);
      HeightPositive(l.right);
      if x < l.element { LeftLeftKeeps(s); } else { LeftRightKeeps(s); }
    }
  }

  lemma RightKeeps(t: Tree, r: Tree, x: int)
    requires Valid(t) && t.Node? && x > t.element && Inserted(t.right, r, x)
    ensures Inserted(t, Redone(FixRight(t.(right := r), x)), x)
  {
    var s := t.(right := r);
    HeightPositive(t.left);
    HeightPositive(t.right);
    assert Keys(s) == Keys(t) + {x} && Above(r, t.element);
    if Height(r) - Height(t.left) == 2 {
      assert Grew(t.right, r, x) && t.right.Node?;
      HeightPositive(r.left);
      HeightPositive(r.right);
      if x > r.element { RightRightKeeps(s); } else { RightLeftKeeps(s); }
    }
  }

  // t is an AVL tree except that its left side is two higher
  ghost predicate LeftHeavy(t: Tree) {
    && t.Node? && t.left.Node? && Valid(t.left) && Valid(t.right) && Below(t.left, t.element)
      && Above(t.right, t.element)
    && Height(t.left) == Height(t.right) + 2
  }

  ghost predicate RightHeavy(t: Tree) {
    && t.Node? && t.right.Node? && Valid(t.left) && Valid(t.right) && Below(t.left, t.element)
      && Above(t.right, t.element)
    && Height(t.right) == Height(t.left) + 2
  }

  // a rotation restores the balance and the height the tree had before
  ghost predicate Rebalanced(t: Tree, u: Tree, h: int) {
    Valid(u) && u.Node? && Keys(u) == Keys(t) && Height(u) == h && Redone(u) == u
  }

  lemma MakeValid(e: int, l: Tree, r: Tree)
    requires Valid(l) && Valid(r) && Below(l, e) && Above(r, e) && -1 <= Height(l) - Height(r) <= 1
    ensures Valid(WithHeight(e, l, r)) && Keys(WithHeight(e, l, r)) == {e} + Keys(l) + Keys(r)
  {
  }

  // the keys of a node's children are on their sides of it, and of whatever the node is on a side of
  lemma Sides(t: Tree, lo: int, hi: int)
    requires Valid(t) && t.Node? && Above(t, lo) && Below(t, hi)
    ensures lo < t.element < hi
    ensures Above(t.left, lo) && Below(t.left, t.element) && Above(t.right, t.element) && Below(t.right, hi)
  {
    assert t.element in Keys(t);
    assert Keys(t.left) <= Keys(t) && Keys(t.right) <= Keys(t);
  }

  lemma LeftLeftKeeps(t: Tree)
    requires LeftHeavy(t) && Height(t.left.left) == Height(t.left.right) + 1
    ensures Rebalanced(t, LeftLeftRotate(t), Height(t.left))
  {
    var lo := Low(t);
    Sides(t.left, lo, t.element);
    WiderAbove(t.right, t.element, t.left.element);
    var k := WithHeight(t.element, t.left.right, t.right);
    MakeValid(t.element, t.left.right, t.right);
    MakeValid(t.left.element, t.left.left, k);
    assert Keys(LeftLeftRotate(t)) == Keys(t);
  }

  lemma RightRightKeeps(t: Tree)
    requires RightHeavy(t) && Height(t.right.right) == Height(t.right.left) + 1
    ensures Rebalanced(t, RightRightRotate(t), Height(t.right))
  {
    var hi := High(t);
    Sides(t.right, t.element, hi);
    WiderBelow(t.left, t.element, t.right.element);
    var k := WithHeight(t.element, t.left, t.right.left);
    MakeValid(t.element, t.left, t.right.left);
    MakeValid(t.right.element, k, t.right.right);
    assert Keys(RightRightRotate(t)) == Keys(t);
  }

  lemma LeftRightKeeps(t: Tree)
    requires LeftHeavy(t) && Height(t.left.right) == Height(t.left.left) + 1
    ensures t.left.right.Node? && Rebalanced(t, LeftRightRotate(t), Height(t.left))
  {
    HeightPositive(t.left.left);
    HeightPositive(t.left.right);
    var k1, k2, lo := t.left, t.left.right, Low(t);
    HeightPositive(k2.left);
    HeightPositive(k2.right);
    Sides(k1, lo, t.element);
    Sides(k2, k1.element, t.element);
    WiderBelow(k1.left, k1.element, k2.element);
    WiderAbove(t.right, t.element, k2.element);
    var a, b := WithHeight(k1.element, k1.left, k2.left), WithHeight(t.element, k2.right, t.right);
    MakeValid(k1.element, k1.left, k2.left);
    MakeValid(t.element, k2.right, t.right);
    MakeValid(k2.element, a, b);
    DoubleRotations(t);
    DoubleKeys(t);
  }

  lemma RightLeftKeeps(t: Tree)
    requires RightHeavy(t) && Height(t.right.left) == Height(t.right.right) + 1
    ensures t.right.left.Node? && Rebalanced(t, RightLeftRotate(t), Height(t.right))
  {
    HeightPositive(t.right.left);
    HeightPositive(t.right.right);
    var k1, k2, hi := t.right, t.right.left, High(t);
    HeightPositive(k2.left);
    HeightPositive(k2.right);
    Sides(k1, t.element, hi);
    Sides(k2, t.element, k1.element);
    WiderBelow(t.left, t.element, k2.element);
    WiderAbove(k1.right, k1.element, k2.element);
    var a, b := WithHeight(t.element, t.left, k2.left), WithHeight(k1.element, k2.right, k1.right);
    MakeValid(t.element, t.left, k2.left);
    MakeValid(k1.element, k2.right, k1.right);
    MakeValid(k2.element, a, b);
    DoubleRotations(t);
    DoubleKeys(t);
  }

  // the middle node ends up at the root, its children one on each side
  lemma DoubleRotations(t: Tree)
    requires t.Node?
    ensures t.left.Node? && t.left.right.Node? ==>
              var k1, k2 := t.left, t.left.right;
              LeftRightRotate(t) == WithHeight(k2.element, WithHeight(k1.element, k1.left, k2.left),
                WithHeight(t.element, k2.right, t.right))
    ensures t.right.Node? && t.right.left.Node? ==>
              var k1, k2 := t.right, t.right.left;
              RightLeftRotate(t) == WithHeight(k2.element, WithHeight(t.element, t.left, k2.left),
                WithHeight(k1.element, k2.right, k1.right))
  {
  }

  lemma DoubleKeys(t: Tree)
    requires t.Node?
    ensures t.left.Node? && t.left.right.Node? ==> Keys(LeftRightRotate(t)) == Keys(t)
    ensures t.right.Node? && t.right.left.Node? ==> Keys(RightLeftRotate(t)) == Keys(t)
  {
    DoubleRotations(t);
    if t.left.Node? && t.left.right.Node? {
      var k1, k2 := t.left, t.left.right;
      assert Keys(t) == {t.element} + ({k1.element} + Keys(k1.left) + ({k2.element} + Keys(k2.left) + Keys(k2.right)))
        + Keys(t.right);
    }
    if t.right.Node? && t.right.left.Node? {
      var k1, k2 := t.right, t.right.left;
      assert Keys(t) == {t.element} + Keys(t.left)
        + ({k1.element} + ({k2.element} + Keys(k2.left) + Keys(k2.right)) + Keys(k1.right));
    }
  }

  // numbers below and above every key
  ghost function Low(t: Tree): (lo: int)
    ensures Above(t, lo)
  {
    if t.Null? then 0
    else var m := Max(-Low(t.left), Max(-Low(t.right), 1 - t.element)); -m
  }

  ghost function High(t: Tree): (hi: int)
    ensures Below(t, hi)
  {
    if t.Null? then 0
    else Max(High(t.left), Max(High(t.right), t.element + 1))
  }

  lemma WiderAbove(t: Tree, x: int, y: int)
    requires Above(t, x) && y <= x
    ensures Above(t, y)
  {
  }

  lemma WiderBelow(t: Tree, x: int, y: int)
    requires Below(t, x) && x <= y
    ensures Below(t, y)
  {
  }

  // ---- how flat the trees are ----

  function Fib(n: nat): nat { if n < 2 then n else Fib(n - 1) + Fib(n - 2) }

  lemma {:induction false} FibMonotone(i: nat, k: nat)
    requires i <= k
    ensures Fib(i) <= Fib(k)
    decreases k
  {
    if i < k { FibMonotone(i, k - 1); }
  }

  // a tree of height h has at least Fib(h + 2) - 1 nodes
  lemma {:induction false} FibonacciMany(t: Tree)
    requires Valid(t)
    ensures Height(t) >= 0 && Size(t) + 1 >= Fib(Height(t) + 2)
  {
    HeightPositive(t);
    if t.Node? {
      HeightPositive(t.left);
      HeightPositive(t.right);
      FibonacciMany(t.left);
      FibonacciMany(t.right);
      var h := Height(t);
      FibMonotone(h, Height(t.left) + 2);
      FibMonotone(h, Height(t.right) + 2);
      assert Fib(h + 2) == Fib(h + 1) + Fib(h);
    }
  }

  // every tree built by insertions holds the keys inserted, is an AVL tree, and is that flat
  function Built(xs: seq<int>): Tree { if xs == [] then Null else Insert(Built(xs[..|xs| - 1]), xs[|xs| - 1]) }

  lemma {:induction false} BuiltKeeps(xs: seq<int>)
    ensures Valid(Built(xs)) && Keys(Built(xs)) == (set x | x in xs)
    ensures Height(Built(xs)) >= 0 && Size(Built(xs)) + 1 >= Fib(Height(Built(xs)) + 2)
  {
    if xs != [] {
      var n := |xs| - 1;
      BuiltKeeps(xs[..n]);
      InsertKeeps(Built(xs[..n]), xs[n]);
      assert xs == xs[..n] + [xs[n]];
    }
    FibonacciMany(Built(xs));
  }

  // ---- the nodes ----

  class AvlNode {
    var element: int
    var left: AvlNode?
    var right: AvlNode?
    var height: int
    ghost var repr: set<AvlNode>    // this node and all below it

    constructor (element: int)
      ensures Shows(this, Node(element, Null, Null, 0)) && repr == {this}
    {
      this.element := element;
      left, right, height := null, null, 0;
      repr := {this};
    }
  }

  ghost function Owned(n: AvlNode?): set<AvlNode>
    reads n
  {
    if n == null then {} else n.repr
  }

  // the nodes from n down spell the tree t and share nothing
  ghost predicate Shows(n: AvlNode?, t: Tree)
    reads n, Owned(n)
    decreases t
  {
    match t
    case Null => n == null
    case Node(element, left, right, height) =>
      && n != null && n in n.repr && n.element == element && n.height == height
      && (n.left != null ==> n.left in n.repr && n.left.repr <= n.repr && n !in n.left.repr)
      && (n.right != null ==> n.right in n.repr && n.right.repr <= n.repr && n !in n.right.repr)
      && (n.left != null && n.right != null ==> n.left.repr !! n.right.repr)
      && Shows(n.left, left) && Shows(n.right, right)
  }

  lemma OwnsItself(n: AvlNode?, t: Tree)
    requires Shows(n, t)
    ensures (n == null <==> t == Null) && (n != null ==> n in n.repr && n.height == t.height && n.element == t.element)
  {
  }

  lemma Opens(n: AvlNode, t: Tree)
    requires Shows(n, t)
    ensures t.Node? && n in n.repr && n.element == t.element && n.height == t.height
    ensures Shows(n.left, t.left) && Shows(n.right, t.right)
    ensures Owned(n.left) <= n.repr - {n} && Owned(n.right) <= n.repr - {n} && Owned(n.left) !! Owned(n.right)
  {
    OwnsItself(n.left, t.left);
    OwnsItself(n.right, t.right);
  }

  lemma Closes(n: AvlNode, t: Tree)
    requires t.Node? && n in n.repr && n.element == t.element && n.height == t.height
    requires Shows(n.left, t.left) && Shows(n.right, t.right)
    requires Owned(n.left) <= n.repr - {n} && Owned(n.right) <= n.repr - {n} && Owned(n.left) !! Owned(n.right)
    ensures Shows(n, t)
  {
    OwnsItself(n.left, t.left);
    OwnsItself(n.right, t.right);
  }

  function HeightOf(p: AvlNode?): int
    reads p
  {
    if p == null then 0 else p.height
  }

  lemma HeightShown(p: AvlNode?, t: Tree)
    requires Shows(p, t)
    ensures HeightOf(p) == Height(t)
  {
  }

  // t->height = max(height(t->left), height(t->right)) + 1
  method SetHeight(n: AvlNode, ghost l: Tree, ghost r: Tree)
    requires n in n.repr && Shows(n.left, l) && Shows(n.right, r)
    requires Owned(n.left) <= n.repr - {n} && Owned(n.right) <= n.repr - {n} && Owned(n.left) !! Owned(n.right)
    modifies n`height
    ensures Shows(n, WithHeight(n.element, l, r))
  {
    hide Shows;
    HeightShown(n.left, l);
    HeightShown(n.right, r);
    n.height := Max(HeightOf(n.left), HeightOf(n.right)) + 1;
    Closes(n, WithHeight(n.element, l, r));
  }

  method LeftLeftRotateNodes(k2: AvlNode, ghost t: Tree) returns (k1: AvlNode)
    requires Shows(k2, t) && t.left.Node?
    modifies k2.repr
    ensures Shows(k1, LeftLeftRotate(t)) && k1.repr == old(k2.repr)
  {
    hide Shows;
    ghost var all := k2.repr;
    Opens(k2, t);
    OwnsItself(k2.left, t.left);
    k1 := k2.left;
    Opens(k1, t.left);
    assert Shows(k2.right, t.right) && Shows(k1.right, t.left.right) && Shows(k1.left, t.left.left);
    k2.left := k1.right;
    k1.right := k2;
    k2.repr := {k2} + Owned(k2.left) + Owned(k2.right);
    SetHeight(k2, t.left.right, t.right);
    assert Shows(k2, WithHeight(t.element, t.left.right, t.right)) && k1 !in Owned(k2);
    k1.repr := all;
    SetHeight(k1, t.left.left, WithHeight(t.element, t.left.right, t.right));
  }

  method RightRightRotateNodes(k2: AvlNode, ghost t: Tree) returns (k1: AvlNode)
    requires Shows(k2, t) && t.right.Node?
    modifies k2.repr
    ensures Shows(k1, RightRightRotate(t)) && k1.repr == old(k2.repr)
  {
    hide Shows;
    ghost var all := k2.repr;
    Opens(k2, t);
    OwnsItself(k2.right, t.right);
    k1 := k2.right;
    Opens(k1, t.right);
    assert Shows(k2.left, t.left) && Shows(k1.left, t.right.left) && Shows(k1.right, t.right.right);
    k2.right := k1.left;
    k1.left := k2;
    k2.repr := {k2} + Owned(k2.left) + Owned(k2.right);
    SetHeight(k2, t.left, t.right.left);
    assert Shows(k2, WithHeight(t.element, t.left, t.right.left)) && k1 !in Owned(k2);
    k1.repr := all;
    SetHeight(k1, WithHeight(t.element, t.left, t.right.left), t.right.right);
  }

  method LeftRightRotateNodes(k3: AvlNode, ghost t: Tree) returns (k1: AvlNode)
    requires Shows(k3, t) && t.left.Node? && t.left.right.Node?
    modifies k3.repr
    ensures Shows(k1, LeftRightRotate(t)) && k1.repr == old(k3.repr)
  {
    hide Shows, RightRightRotate, LeftLeftRotate;
    Opens(k3, t);
    OwnsItself(k3.left, t.left);
    assert Shows(k3.right, t.right);
    var l := RightRightRotateNodes(k3.left, t.left);
    assert Shows(l, RightRightRotate(t.left)) && k3 !in Owned(l) && k3 !in Owned(k3.right);
    k3.left := l;
    Rotated(t);
    Closes(k3, t.(left := RightRightRotate(t.left)));
    k1 := LeftLeftRotateNodes(k3, t.(left := RightRightRotate(t.left)));
  }

  method RightLeftRotateNodes(k3: AvlNode, ghost t: Tree) returns (k1: AvlNode)
    requires Shows(k3, t) && t.right.Node? && t.right.left.Node?
    modifies k3.repr
    ensures Shows(k1, RightLeftRotate(t)) && k1.repr == old(k3.repr)
  {
    hide Shows, RightRightRotate, LeftLeftRotate;
    Opens(k3, t);
    OwnsItself(k3.right, t.right);
    assert Shows(k3.left, t.left);
    var r := LeftLeftRotateNodes(k3.right, t.right);
    assert Shows(r, LeftLeftRotate(t.right)) && k3 !in Owned(r) && k3 !in Owned(k3.left);
    k3.right := r;
    Rotated(t);
    Closes(k3, t.(right := LeftLeftRotate(t.right)));
    k1 := RightRightRotateNodes(k3, t.(right := LeftLeftRotate(t.right)));
  }

  lemma Rotated(t: Tree)
    requires t.Node?
    ensures t.left.Node? && t.left.right.Node? ==> RightRightRotate(t.left).Node?
    ensures t.right.Node? && t.right.left.Node? ==> LeftLeftRotate(t.right).Node?
  {
  }

  // insert_node, on a tree that is an AVL tree
  method InsertNode(n: AvlNode?, x: int, ghost t: Tree) returns (r: AvlNode)
    requires Shows(n, t) && Valid(t)
    modifies Owned(n)
    ensures Shows(r, Insert(t, x)) && fresh(r.repr - old(Owned(n)))
    decreases t, 1
  {
    hide Shows, Valid, Inserted;
    OwnsItself(n, t);
    if n == null {
      r := new AvlNode(x);
      Opens(r, Node(x, Null, Null, 0));
      SetHeight(r, Null, Null);
    } else if x < n.element {
      r := InsertLeft(n, x, t);
    } else if x > n.element {
      r := InsertRight(n, x, t);
    } else {
      r := n;
      Opens(n, t);
      SetHeight(r, t.left, t.right);
    }
  }

  method InsertLeft(n: AvlNode, x: int, ghost t: Tree) returns (r: AvlNode)
    requires Shows(n, t) && Valid(t) && x < t.element
    modifies n.repr
    ensures Shows(r, Insert(t, x)) && fresh(r.repr - old(n.repr))
    decreases t, 0
  {
    hide Shows, Valid, Inserted;
    Opens(n, t);
    ValidParts(t);
    assert Shows(n.right, t.right);
    var l := InsertNode(n.left, x, t.left);
    OwnsItself(l, Insert(t.left, x));
    assert Shows(l, Insert(t.left, x)) && n !in Owned(l) && n !in Owned(n.right);
    n.left := l;
    n.repr := {n} + Owned(n.left) + Owned(n.right);
    ghost var s := t.(left := Insert(t.left, x));
    Closes(n, s);
    InsertKeeps(t.left, x);
    r := FixLeftNodes(n, s, t, x);
  }

  method InsertRight(n: AvlNode, x: int, ghost t: Tree) returns (r: AvlNode)
    requires Shows(n, t) && Valid(t) && x > t.element
    modifies n.repr
    ensures Shows(r, Insert(t, x)) && fresh(r.repr - old(n.repr))
    decreases t, 0
  {
    hide Shows, Valid, Inserted;
    Opens(n, t);
    ValidParts(t);
    assert Shows(n.left, t.left);
    var right := InsertNode(n.right, x, t.right);
    OwnsItself(right, Insert(t.right, x));
    assert Shows(right, Insert(t.right, x)) && n !in Owned(right) && n !in Owned(n.left);
    n.right := right;
    n.repr := {n} + Owned(n.left) + Owned(n.right);
    ghost var s := t.(right := Insert(t.right, x));
    Closes(n, s);
    InsertKeeps(t.right, x);
    r := FixRightNodes(n, s, t, x);
  }

  lemma ValidParts(t: Tree)
    requires Valid(t) && t.Node?
    ensures Valid(t.left) && Valid(t.right)
  {
  }

  method FixLeftNodes(n: AvlNode, ghost s: Tree, ghost t: Tree, x: int) returns (r: AvlNode)
    requires Shows(n, s) && Valid(t) && t.Node? && s == t.(left := Insert(t.left, x)) && Inserted(t.left, s.left, x)
    modifies n.repr
    ensures Shows(r, Redone(FixLeft(s, x))) && r.repr == old(n.repr)
  {
    hide Shows, LeftLeftRotate, LeftRightRotate;
    Opens(n, s);
    OwnsItself(n.left, s.left);
    HeightShown(n.left, s.left);
    HeightShown(n.right, s.right);
    r := n;
    if HeightOf(n.left) - HeightOf(n.right) == 2 {
      NoMissingChild(t, s, x);
      if x < n.left.element {
        r := LeftLeftRotateNodes(n, s);
      } else {
        r := LeftRightRotateNodes(n, s);
      }
    }
    ghost var u := FixLeft(s, x);
    Opens(r, u);
    SetHeight(r, u.left, u.right);
  }

  method FixRightNodes(n: AvlNode, ghost s: Tree, ghost t: Tree, x: int) returns (r: AvlNode)
    requires Shows(n, s) && Valid(t) && t.Node? && s == t.(right := Insert(t.right, x)) && Inserted(t.right, s.right, x)
    modifies n.repr
    ensures Shows(r, Redone(FixRight(s, x))) && r.repr == old(n.repr)
  {
    hide Shows, RightRightRotate, RightLeftRotate;
    Opens(n, s);
    OwnsItself(n.right, s.right);
    HeightShown(n.left, s.left);
    HeightShown(n.right, s.right);
    r := n;
    if HeightOf(n.right) - HeightOf(n.left) == 2 {
      NoMissingChild(t, s, x);
      if x > n.right.element {
        r := RightRightRotateNodes(n, s);
      } else {
        r := RightLeftRotateNodes(n, s);
      }
    }
    ghost var u := FixRight(s, x);
    Opens(r, u);
    SetHeight(r, u.left, u.right);
  }

  // a rotation never meets a missing child
  lemma NoMissingChild(t: Tree, s: Tree, x: int)
    requires Valid(t) && t.Node? && s.Node?
    ensures s.right == t.right && Inserted(t.left, s.left, x) && Height(s.left) - Height(s.right) == 2 ==>
              s.left.Node? && (x >= s.left.element ==> s.left.right.Node?)
    ensures s.left == t.left && Inserted(t.right, s.right, x) && Height(s.right) - Height(s.left) == 2 ==>
              s.right.Node? && (x <= s.right.element ==> s.right.left.Node?)
  {
    HeightPositive(t.left);
    HeightPositive(t.right);
    if s.right == t.right && Inserted(t.left, s.left, x) && Height(s.left) - Height(s.right) == 2 {
      HeightPositive(s.left.left);
      HeightPositive(s.left.right);
    }
    if s.left == t.left && Inserted(t.right, s.right, x) && Height(s.right) - Height(s.left) == 2 {
      HeightPositive(s.right.left);
      HeightPositive(s.right.right);
    }
  }

  // ---- searching ----

  method Find(n: AvlNode?, x: int, ghost t: Tree) returns (r: AvlNode?)
    requires Shows(n, t) && Valid(t)
    ensures r != null <==> x in Keys(t)
    ensures r != null ==> r.element == x && r in Owned(n)
    decreases t
  {
    OwnsItself(n, t);
    if n == null {
      return null;
    }
    Opens(n, t);
    if x < n.element {
      r := Find(n.left, x, t.left);
    } else if x > n.element {
      r := Find(n.right, x, t.right);
    } else {
      r := n;
    }
  }

  method FindMin(n: AvlNode?, ghost t: Tree) returns (r: AvlNode?)
    requires Shows(n, t) && Valid(t)
    ensures r == null <==> t == Null
    ensures r != null ==> r.element in Keys(t) && forall k | k in Keys(t) :: r.element <= k
    decreases t
  {
    OwnsItself(n, t);
    if n == null {
      return null;
    }
    Opens(n, t);
    OwnsItself(n.left, t.left);
    if n.left == null {
      return n;
    }
    r := FindMin(n.left, t.left);
  }

  method FindMax(tree: AvlNode?, ghost t: Tree) returns (r: AvlNode?)
    requires Shows(tree, t) && Valid(t)
    ensures r == null <==> t == Null
    ensures r != null ==> r.element in Keys(t) && forall k | k in Keys(t) :: k <= r.element
  {
    OwnsItself(tree, t);
    r := tree;
    if r != null {
      ghost var u := t;
      Opens(r, u);
      OwnsItself(r.right, u.right);
      while r.right != null
        invariant Shows(r, u) && Valid(u) && u.Node? && Shows(r.right, u.right) && r.element == u.element
        invariant Keys(u) <= Keys(t) && forall k | k in Keys(t) :: k in Keys(u) || k <= u.element
        invariant r.right == null <==> u.right == Null
        decreases u
      {
        r, u := r.right, u.right;
        Opens(r, u);
        OwnsItself(r.right, u.right);
      }
    }
  }
}
