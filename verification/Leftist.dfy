/**
 The leftist heap.  Trees as values give the meaning of merge; the nodes below do it in place,
 rewriting the left, right and npl fields of existing nodes.
 */
module Leftist {
  import opened Common

  datatype Tree = Null | Node(element: int, left: Tree, right: Tree, npl: int)

  function Size(t: Tree): nat { if t.Null? then 0 else 1 + Size(t.left) + Size(t.right) }

  function Elems(t: Tree): multiset<int> {
    if t.Null? then multiset{} else multiset{t.element} + Elems(t.left) + Elems(t.right)
  }

  // null path length: the nodes on the shortest way down to a missing child, less one
  function Npl(t: Tree): int {
    if t.Null? then -1 else 1 + (if Npl(t.left) < Npl(t.right) then Npl(t.left) else Npl(t.right))
  }

  function RightSpine(t: Tree): nat { if t.Null? then 0 else 1 + RightSpine(t.right) }

  predicate AllAtLeast(t: Tree, x: int) { forall y | y in Elems(t) :: x <= y }

  // heap order, the leftist rule, and the stored npl is the real one
  predicate Valid(t: Tree) {
    t.Node? ==>
      && Valid(t.left) && Valid(t.right)
      && AllAtLeast(t.left, t.element) && AllAtLeast(t.right, t.element)
      && Npl(t.left) >= Npl(t.right) && t.npl == Npl(t)
  }

  // ---- merge ----

  function Merge(h1: Tree, h2: Tree): Tree
    decreases Size(h1) + Size(h2), 1
  {
    if h1.Null? then h2
    else if h2.Null? then h1
    else if h1.element < h2.element then Merge1(h1, h2)
    else Merge1(h2, h1)
  }

  // each round drops the root of h1, so the two sizes together get smaller
  function Merge1(h1: Tree, h2: Tree): Tree
    requires h1.Node? && h2.Node?
    decreases Size(h1) + Size(h2), 0
  {
    if h1.left.Null? then h1.(left := h2)
    else Rejoin(h1, Merge(h1.right, h2))
  }

  // h1 with r as a child beside its old left one, the one with the longer null path on the left
  function Rejoin(h1: Tree, r: Tree): Tree
    requires h1.Node? && h1.left.Node?
  {
    if r.Node? && h1.left.npl < r.npl then Node(h1.element, r, h1.left, h1.left.npl + 1)
    else Node(h1.element, h1.left, r, (if r.Node? then r.npl else -1) + 1)
  }

  lemma {:induction false} MergeKeeps(h1: Tree, h2: Tree)
    requires Valid(h1) && Valid(h2)
    ensures Valid(Merge(h1, h2)) && Elems(Merge(h1, h2)) == Elems(h1) + Elems(h2)
    decreases Size(h1) + Size(h2), 1
  {
    if h1.Node? && h2.Node? {
      RootIsMin(h1);
      RootIsMin(h2);
      if h1.element < h2.element { Merge1Keeps(h1, h2); } else { Merge1Keeps(h2, h1); }
    }
  }

  lemma {:induction false} Merge1Keeps(h1: Tree, h2: Tree)
    requires Valid(h1) && Valid(h2) && h1.Node? && h2.Node? && AllAtLeast(h2, h1.element)
    ensures Valid(Merge1(h1, h2)) && Elems(Merge1(h1, h2)) == Elems(h1) + Elems(h2)
    decreases Size(h1) + Size(h2), 0
  {
    NplPositive(h2);
    NplPositive(h1.left);
    NplPositive(h1.right);
    if h1.left.Null? {
      assert h1.right.Null?;
      assert Elems(h1.(left := h2)) == multiset{h1.element} + Elems(h2);
    } else {
      MergeKeeps(h1.right, h2);
      RejoinElems(h1, Merge(h1.right, h2), h2);
      RejoinKeeps(h1, Merge(h1.right, h2));
    }
  }

  lemma RejoinKeeps(h1: Tree, r: Tree)
    requires h1.Node? && h1.left.Node? && Valid(h1.left) && Valid(r) && AllAtLeast(h1.left, h1.element)
             && AllAtLeast(r, h1.element)
    ensures Valid(Rejoin(h1, r))
  {
    hide AllAtLeast, Valid, Npl;
    NplStored(h1.left);
    NplStored(r);
    if r.Node? && h1.left.npl < r.npl {
      MakeValid(h1.element, r, h1.left);
    } else {
      MakeValid(h1.element, h1.left, r);
    }
  }

  lemma NplStored(t: Tree)
    requires Valid(t)
    ensures Npl(t) == (if t.Node? then t.npl else -1) && (t.Node? ==> Npl(t) >= 0)
  {
    NplPositive(t);
  }

  lemma MakeValid(e: int, l: Tree, r: Tree)
    requires Valid(l) && Valid(r) && AllAtLeast(l, e) && AllAtLeast(r, e) && Npl(l) >= Npl(r)
    ensures Valid(Node(e, l, r, Npl(r) + 1))
  {
  }

  lemma RejoinElems(h1: Tree, r: Tree, h2: Tree)
    requires h1.Node? && h1.left.Node? && Elems(r) == Elems(h1.right) + Elems(h2)
    requires AllAtLeast(h1.right, h1.element) && AllAtLeast(h2, h1.element)
    ensures Elems(Rejoin(h1, r)) == Elems(h1) + Elems(h2) && AllAtLeast(r, h1.element)
  {
    hide Npl, Valid;
    Rearrange(multiset{h1.element}, Elems(h1.left), Elems(h1.right), Elems(h2));
  }

  lemma Rearrange(a: multiset<int>, b: multiset<int>, c: multiset<int>, d: multiset<int>)
    ensures a + b + (c + d) == a + b + c + d && a + (c + d) + b == a + b + c + d
  {
  }

  lemma NplPositive(t: Tree)
    ensures Npl(t) >= -1 && (t.Node? ==> Npl(t) >= 0)
  {
  }

  lemma RootIsMin(t: Tree)
    requires Valid(t) && t.Node?
    ensures t.element in Elems(t) && AllAtLeast(t, t.element)
  {
  }

  lemma {:induction false} SizeIsCard(t: Tree)
    ensures |Elems(t)| == Size(t)
  {
    if t.Node? {
      SizeIsCard(t.left);
      SizeIsCard(t.right);
    }
  }

  // ---- the right spine is short ----

  lemma {:induction false} SpineIsNpl(t: Tree)
    requires Valid(t)
    ensures RightSpine(t) == Npl(t) + 1
  {
    if t.Node? { SpineIsNpl(t.right); }
  }

  lemma {:induction false} SizeAtLeast(t: Tree)
    requires Valid(t)
    ensures Npl(t) >= -1 && Size(t) + 1 >= Pow2(Npl(t) + 1)
  {
    if t.Node? {
      SizeAtLeast(t.left);
      SizeAtLeast(t.right);
      Pow2Monotone(Npl(t.right) + 1, Npl(t.left) + 1);
      assert Npl(t) == Npl(t.right) + 1;
    }
  }

  // with npl k at the root there are at least 2^(k+1) - 1 elements: the right spine of a heap of n
  // is at most log2(n + 1) long
  lemma ManyNodes(t: Tree)
    requires Valid(t)
    ensures Npl(t) >= -1 && |Elems(t)| + 1 >= Pow2(Npl(t) + 1) && |Elems(t)| + 1 >= Pow2(RightSpine(t))
  {
    hide Elems, Size;
    SizeIsCard(t);
    SizeAtLeast(t);
    SpineIsNpl(t);
  }

  // ---- the nodes ----

  class TreeNode {
    var element: int
    var left: TreeNode?
    var right: TreeNode?
    var npl: int
    ghost var repr: set<TreeNode>    // this node and all below it

    constructor (element: int)
      ensures Shows(this, Node(element, Null, Null, 0)) && repr == {this}
    {
      this.element := element;
      npl, left, right := 0, null, null;
      repr := {this};
    }
  }

  ghost function Owned(n: TreeNode?): set<TreeNode>
    reads n
  {
    if n == null then {} else n.repr
  }

  // the nodes from n down spell the tree t and share nothing
  ghost predicate Shows(n: TreeNode?, t: Tree)
    reads n, Owned(n)
    decreases t
  {
    match t
    case Null => n == null
    case Node(element, left, right, npl) =>
      && n != null && n in n.repr && n.element == element && n.npl == npl
      && (n.left != null ==> n.left in n.repr && n.left.repr <= n.repr && n !in n.left.repr)
      && (n.right != null ==> n.right in n.repr && n.right.repr <= n.repr && n !in n.right.repr)
      && (n.left != null && n.right != null ==> n.left.repr !! n.right.repr)
      && Shows(n.left, left) && Shows(n.right, right)
  }

  lemma OwnsItself(n: TreeNode?, t: Tree)
    requires Shows(n, t)
    ensures (n == null <==> t == Null) && (n != null ==> n in n.repr)
  {
  }

  lemma Opens(n: TreeNode, t: Tree)
    requires Shows(n, t)
    ensures t.Node? && n in n.repr && n.element == t.element && n.npl == t.npl
    ensures Shows(n.left, t.left) && Shows(n.right, t.right)
    ensures Owned(n.left) <= n.repr - {n} && Owned(n.right) <= n.repr - {n} && Owned(n.left) !! Owned(n.right)
  {
    OwnsItself(n.left, t.left);
    OwnsItself(n.right, t.right);
  }

  lemma Closes(n: TreeNode, t: Tree)
    requires t.Node? && n in n.repr && n.element == t.element && n.npl == t.npl
    requires Shows(n.left, t.left) && Shows(n.right, t.right)
    requires Owned(n.left) <= n.repr - {n} && Owned(n.right) <= n.repr - {n} && Owned(n.left) !! Owned(n.right)
    ensures Shows(n, t)
  {
    OwnsItself(n.left, t.left);
    OwnsItself(n.right, t.right);
  }

  method MergeNodes(h1: TreeNode?, h2: TreeNode?, ghost t1: Tree, ghost t2: Tree) returns (r: TreeNode?)
    requires Shows(h1, t1) && Shows(h2, t2) && Owned(h1) !! Owned(h2)
    modifies Owned(h1), Owned(h2)
    ensures Shows(r, Merge(t1, t2)) && Owned(r) == old(Owned(h1) + Owned(h2))
    decreases Size(t1) + Size(t2), 1
  {
    if h1 == null {
      return h2;
    }
    if h2 == null {
      return h1;
    }
    if h1.element < h2.element {
      r := Merge1Nodes(h1, h2, t1, t2);
    } else {
      r := Merge1Nodes(h2, h1, t2, t1);
    }
  }

  method Merge1Nodes(h1: TreeNode, h2: TreeNode, ghost t1: Tree, ghost t2: Tree) returns (r: TreeNode)
    requires Shows(h1, t1) && Shows(h2, t2) && h1.repr !! h2.repr
    modifies h1.repr, h2.repr
    ensures Shows(r, Merge1(t1, t2)) && r.repr == old(h1.repr + h2.repr)
    decreases Size(t1) + Size(t2), 0
  {
    hide Shows;
    ghost var all := h1.repr + h2.repr;
    Opens(h1, t1);
    OwnsItself(h1.left, t1.left);
    OwnsItself(h2, t2);
    if h1.left == null {
      assert Shows(h2, t2) && h1 !in Owned(h2);
      h1.left := h2;
      assert Shows(h2, t2);
    } else {
      var left := h1.left;
      var merged := MergeNodes(h1.right, h2, t1.right, t2);
      assert Shows(left, t1.left);
      OwnsItself(merged, Merge(t1.right, t2));
      NplShown(left, t1.left);
      NplShown(merged, Merge(t1.right, t2));
      h1.right := merged;
      if h1.left.npl < h1.right.npl {
        h1.left, h1.right := h1.right, h1.left;
      }
      h1.npl := h1.right.npl + 1;
    }
    h1.repr := all;
    Closes(h1, Merge1(t1, t2));
    r := h1;
  }

  lemma NplShown(n: TreeNode, t: Tree)
    requires Shows(n, t)
    ensures t.Node? && n.npl == t.npl
  {
  }

  // insert1
  method Insert(h: TreeNode?, x: int, ghost t: Tree) returns (r: TreeNode)
    requires Shows(h, t)
    modifies Owned(h)
    ensures Shows(r, Merge(Node(x, Null, Null, 0), t)) && fresh(r.repr - old(Owned(h)))
  {
    var singlenode := new TreeNode(x);
    var m := MergeNodes(singlenode, h, Node(x, Null, Null, 0), t);
    r := m;
  }

  // deletemin1: an empty heap is handed back as it is
  method DeleteMin(h: TreeNode?, ghost t: Tree) returns (r: TreeNode?)
    requires Shows(h, t)
    modifies Owned(h)
    ensures Shows(r, DeleteMinOf(t)) && (h != null ==> Owned(r) == old(Owned(h.left) + Owned(h.right)))
  {
    if h == null {
      return h;
    }
    r := MergeNodes(h.left, h.right, t.left, t.right);
  }

  function DeleteMinOf(t: Tree): Tree { if t.Null? then t else Merge(t.left, t.right) }

  lemma InsertKeeps(x: int, t: Tree)
    requires Valid(t)
    ensures Valid(Merge(Node(x, Null, Null, 0), t)) && Elems(Merge(Node(x, Null, Null, 0), t)) == Elems(t) + multiset{x}
  {
    MergeKeeps(Node(x, Null, Null, 0), t);
  }

  // removes exactly the minimum
  lemma DeleteMinKeeps(t: Tree)
    requires Valid(t) && t.Node?
    ensures Valid(DeleteMinOf(t)) && Elems(DeleteMinOf(t)) == Elems(t) - multiset{t.element}
    ensures t.element in Elems(t) && AllAtLeast(t, t.element)
  {
    RootIsMin(t);
    MergeKeeps(t.left, t.right);
    assert Elems(t) == multiset{t.element} + (Elems(t.left) + Elems(t.right));
  }
}
