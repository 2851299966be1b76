/** The address-ordered AVL index that every undo checkpoint keeps over its blocks.

    The index lives in the same growing vector as the blocks: each block names its two
    children by vector position. `Tree` is the shape such links spell out, and it is ghost:
    the methods work on the vector alone, as the program does. */
module BlockIndex {

  const NO_BLOCK: nat := 0xFFFF_FFFF
  const MAX_ANCESTORS: nat := 64

  datatype Block = Block(address: nat, offset: nat, size: nat, left: nat, right: nat, height: nat)
  {
    function End(): nat { address + size }
    predicate Contains(a: int) { address <= a < address + size }
    predicate Is(start: nat, length: nat) { address == start && size == length }
    predicate Apart(start: nat, length: nat) { End() <= start || start + length <= address }
    predicate Encloses(start: nat, length: nat) { address <= start && start + length <= End() }
  }

  function Max(a: nat, b: nat): nat { if a < b then b else a }

  // ---------------------------------------------------------------- shapes

  datatype Tree = Leaf | Node(left: Tree, id: nat, right: Tree)

  ghost function Ht(t: Tree): nat {
    match t case Leaf => 0 case Node(l, _, r) => 1 + Max(Ht(l), Ht(r))
  }

  /** In-order block positions: a rotation keeps this sequence. */
  ghost function Order(t: Tree): seq<nat> {
    match t case Leaf => [] case Node(l, i, r) => Order(l) + [i] + Order(r)
  }

  ghost predicate Near(a: nat, b: nat) { a <= b + 1 && b <= a + 1 }

  ghost predicate Avl(t: Tree) {
    match t case Leaf => true case Node(l, _, r) => Avl(l) && Avl(r) && Near(Ht(l), Ht(r))
  }

  /** `link` is the root of shape `t` in the vector, and every stored height is exact. */
  ghost predicate Linked(b: seq<Block>, t: Tree, link: nat) {
    match t
    case Leaf => link == NO_BLOCK
    case Node(l, i, r) =>
      link == i && i < |b| && b[i].height == Ht(t) && Linked(b, l, b[i].left) && Linked(b, r, b[i].right)
  }

  ghost predicate Distinct(s: seq<nat>) { forall i, j :: 0 <= i < j < |s| ==> s[i] != s[j] }

  /** The listed blocks are in address order and pairwise disjoint. */
  ghost predicate Ordered(b: seq<Block>, s: seq<nat>) {
    && (forall i :: 0 <= i < |s| ==> s[i] < |b| && b[s[i]].size > 0)
    && (forall i, j :: 0 <= i < j < |s| ==> b[s[i]].End() <= b[s[j]].address)
  }

  /** The same, one neighbour at a time. */
  ghost predicate Sorted(b: seq<Block>, s: seq<nat>) {
    s == [] ||
      var n := |s| - 1;
      && s[n] < |b| && b[s[n]].size > 0 && Sorted(b, s[..n])
      && (n > 0 && s[n - 1] < |b| ==> b[s[n - 1]].End() <= b[s[n]].address)
  }

  lemma {:induction false} SortedIsOrdered(b: seq<Block>, s: seq<nat>)
    ensures Sorted(b, s) <==> Ordered(b, s)
  {
    if s != [] {
      var n := |s| - 1;
      SortedIsOrdered(b, s[..n]);
      assert forall i :: 0 <= i < n ==> s[..n][i] == s[i];
      if Sorted(b, s) && n > 0 { assert s[..n][n - 1] == s[n - 1]; }
    }
  }

  ghost predicate SameRanges(b: seq<Block>, b': seq<Block>) {
    |b| <= |b'| && forall k :: 0 <= k < |b| ==>
      b'[k].address == b[k].address && b'[k].size == b[k].size && b'[k].offset == b[k].offset
  }

  /** What every accepted touch keeps: the links form a balanced tree holding each block of the
      vector exactly once, in address order. */
  ghost predicate IndexedBy(b: seq<Block>, root: nat, t: Tree) {
    && |b| < NO_BLOCK
    && Linked(b, t, root) && Avl(t)
    && Sorted(b, Order(t))
    && |Order(t)| == |b| && forall k :: 0 <= k < |b| ==> k in Order(t)
  }

  ghost predicate Indexed(b: seq<Block>, root: nat) { exists t :: IndexedBy(b, root, t) }

  /** The range meets no block. */
  ghost predicate AllApart(b: seq<Block>, start: nat, size: nat) {
    forall k :: 0 <= k < |b| ==> b[k].Apart(start, size)
  }

  /** The range is exactly a block. */
  ghost predicate Listed(b: seq<Block>, start: nat, size: nat) {
    exists k :: 0 <= k < |b| && b[k].Is(start, size)
  }

  lemma EmptyIsIndexed(b: seq<Block>)
    requires b == []
    ensures Indexed(b, NO_BLOCK)
  {
    assert IndexedBy(b, NO_BLOCK, Leaf);
  }

  lemma OrderedIsDistinct(b: seq<Block>, s: seq<nat>)
    requires Ordered(b, s)
    ensures Distinct(s)
  {}

  /** Blocks of one index are pairwise disjoint. */
  lemma IndexedIsDisjoint(b: seq<Block>, root: nat, j: nat, k: nat)
    requires Indexed(b, root) && j < |b| && k < |b| && j != k
    ensures b[j].Apart(b[k].address, b[k].size)
  {
    var t :| IndexedBy(b, root, t);
    SortedIsOrdered(b, Order(t));
    assert j in Order(t) && k in Order(t);
    var x :| 0 <= x < |Order(t)| && Order(t)[x] == j;
    var y :| 0 <= y < |Order(t)| && Order(t)[y] == k;
    assert x < y || y < x;
  }

  // ---------------------------------------------------------------- paths

  /** The search path above a subtree: each ancestor with its other child. */
  datatype Path = Top | Under(up: Path, id: nat, other: Tree, wentLeft: bool)

  ghost function Join(p: Path, t: Tree): Tree
    requires p.Under?
  {
    if p.wentLeft then Node(t, p.id, p.other) else Node(p.other, p.id, t)
  }

  ghost function Plug(p: Path, t: Tree): Tree
    decreases p
  {
    if p.Top? then t else Plug(p.up, Join(p, t))
  }

  ghost function IdSet(t: Tree): set<nat> {
    match t case Leaf => {} case Node(l, i, r) => IdSet(l) + {i} + IdSet(r)
  }

  ghost function PathSet(p: Path): set<nat> {
    if p.Top? then {} else PathSet(p.up) + {p.id} + IdSet(p.other)
  }

  ghost function Ids(p: Path): seq<nat> { if p.Top? then [] else Ids(p.up) + [p.id] }

  ghost function Before(p: Path): seq<nat> {
    if p.Top? then [] else if p.wentLeft then Before(p.up) else Before(p.up) + (Order(p.other) + [p.id])
  }

  ghost function After(p: Path): seq<nat> {
    if p.Top? then [] else if p.wentLeft then ([p.id] + Order(p.other)) + After(p.up) else After(p.up)
  }

  ghost function Above(p: Path, h: nat): nat
    requires p.Under?
  {
    1 + Max(h, Ht(p.other))
  }

  /** The vector above a hole: the hole's parent points at `link`, and the ancestors store the
      heights of a tree whose hole holds a subtree of height `h`. */
  ghost predicate Hanging(b: seq<Block>, root: nat, p: Path, link: nat, h: nat)
    decreases p
  {
    if p.Top? then root == link else
      && p.id < |b|
      && (if p.wentLeft then b[p.id].left == link && Linked(b, p.other, b[p.id].right)
          else b[p.id].right == link && Linked(b, p.other, b[p.id].left))
      && b[p.id].height == Above(p, h)
      && Hanging(b, root, p.up, p.id, Above(p, h))
  }

  ghost predicate AvlPath(p: Path, h: nat)
    decreases p
  {
    p.Under? ==> Avl(p.other) && Near(h, Ht(p.other)) && AvlPath(p.up, Above(p, h))
  }

  lemma Assoc(a: seq<nat>, b: seq<nat>, c: seq<nat>)
    ensures (a + b) + c == a + (b + c)
  {}

  lemma {:induction false} PlugOrder(p: Path, t: Tree)
    ensures Order(Plug(p, t)) == Before(p) + Order(t) + After(p)
    decreases p
  {
    if p.Under? {
      PlugOrder(p.up, Join(p, t));
      var before, own, other, after := Before(p.up), Order(t), Order(p.other), After(p.up);
      if p.wentLeft {
        Assoc(own, [p.id], other);
        Assoc(before, own, [p.id] + other);
        Assoc(before + own, [p.id] + other, after);
      } else {
        Assoc(before, other + [p.id], own);
      }
    }
  }

  lemma {:induction false} PlugLinked(b: seq<Block>, root: nat, p: Path, t: Tree, link: nat)
    requires Linked(b, t, link) && Hanging(b, root, p, link, Ht(t)) && Avl(t) && AvlPath(p, Ht(t))
    ensures Linked(b, Plug(p, t), root) && Avl(Plug(p, t))
    decreases p
  {
    if p.Under? { PlugLinked(b, root, p.up, Join(p, t), p.id); }
  }

  lemma {:induction false} PathWithinHeight(p: Path, t: Tree)
    ensures |Ids(p)| + Ht(t) <= Ht(Plug(p, t))
    decreases p
  {
    if p.Under? { PathWithinHeight(p.up, Join(p, t)); }
  }

  ghost predicate Agree(b: seq<Block>, b': seq<Block>, ids: set<nat>) {
    |b| <= |b'| && forall k :: k in ids && k < |b| ==> b'[k] == b[k]
  }

  lemma {:induction false} LinkedFrame(b: seq<Block>, b': seq<Block>, t: Tree, link: nat)
    requires Linked(b, t, link) && Agree(b, b', IdSet(t))
    ensures Linked(b', t, link)
  {
    if t.Node? {
      LinkedFrame(b, b', t.left, b[t.id].left);
      LinkedFrame(b, b', t.right, b[t.id].right);
    }
  }

  lemma {:induction false} HangingFrame(b: seq<Block>, b': seq<Block>, root: nat, p: Path, link: nat, h: nat)
    requires Hanging(b, root, p, link, h) && Agree(b, b', PathSet(p))
    ensures Hanging(b', root, p, link, h)
    decreases p
  {
    if p.Under? {
      LinkedFrame(b, b', p.other, if p.wentLeft then b[p.id].right else b[p.id].left);
      HangingFrame(b, b', root, p.up, p.id, Above(p, h));
    }
  }

  // ---------------------------------------------------------------- depth

  /** The fewest blocks an AVL tree of a given height can hold. */
  function MinNodes(h: nat): nat {
    if h < 2 then h else 1 + MinNodes(h - 1) + MinNodes(h - 2)
  }

  lemma {:induction false} MinNodesMonotone(a: nat, b: nat)
    requires a <= b
    ensures MinNodes(a) <= MinNodes(b)
    decreases b
  {
    if a < b { MinNodesMonotone(a, b - 1); }
  }

  lemma {:induction false} AvlHoldsMinNodes(t: Tree)
    requires Avl(t)
    ensures MinNodes(Ht(t)) <= |Order(t)|
  {
    if t.Node? {
      AvlHoldsMinNodes(t.left);
      AvlHoldsMinNodes(t.right);
      var h := Max(Ht(t.left), Ht(t.right));
      if h > 0 {
        MinNodesMonotone(h - 1, Ht(t.left));
        MinNodesMonotone(h - 1, Ht(t.right));
      }
    }
  }

  /** Two heights more at least double the tree. */
  lemma {:induction false} MinNodesDouble(h: nat)
    ensures 2 * MinNodes(h) + 1 <= MinNodes(h + 2)
  {
    assert MinNodes(h + 2) == 1 + MinNodes(h + 1) + MinNodes(h);
    MinNodesMonotone(h, h + 1);
  }

  lemma MinNodesGrow(h: nat)
    ensures 256 * (MinNodes(h) + 1) <= MinNodes(h + 16) + 1
  {
    MinNodesDouble(h);
    MinNodesDouble(h + 2);
    MinNodesDouble(h + 4);
    MinNodesDouble(h + 6);
    MinNodesDouble(h + 8);
    MinNodesDouble(h + 10);
    MinNodesDouble(h + 12);
    MinNodesDouble(h + 14);
  }

  lemma MinNodesFrom64(h: nat)
    requires 64 <= h
    ensures NO_BLOCK <= MinNodes(h)
  {
    var a, b, c, d := MinNodes(h - 64), MinNodes(h - 48), MinNodes(h - 32), MinNodes(h - 16);
    assert a + 1 >= 1;
    assert b + 1 >= 256 by { MinNodesGrow(h - 64); }
    assert c + 1 >= 65536 by { MinNodesGrow(h - 48); }
    assert d + 1 >= 16777216 by { MinNodesGrow(h - 32); }
    MinNodesGrow(h - 16);
  }

  lemma AvlHeightBound(t: Tree)
    requires Avl(t) && |Order(t)| < NO_BLOCK
    ensures Ht(t) < MAX_ANCESTORS
  {
    AvlHoldsMinNodes(t);
    if 64 <= Ht(t) { MinNodesFrom64(Ht(t)); }
  }

  /** With fewer than 2^32 - 1 blocks no search path reaches 64 ancestors. */
  lemma DepthBound(t: Tree, p: Path, s: Tree)
    requires Avl(t) && |Order(t)| < NO_BLOCK && t == Plug(p, s)
    ensures |Ids(p)| + Ht(s) < MAX_ANCESTORS
  {
    AvlHeightBound(t);
    PathWithinHeight(p, s);
  }

  // ---------------------------------------------------------------- rebalancing

  ghost function TurnedLeft(t: Tree): Tree
    requires t.Node? && t.right.Node?
  {
    Node(Node(t.left, t.id, t.right.left), t.right.id, t.right.right)
  }

  ghost function TurnedRight(t: Tree): Tree
    requires t.Node? && t.left.Node?
  {
    Node(t.left.left, t.left.id, Node(t.left.right, t.id, t.right))
  }

  /** The four rotation cases of an AVL node whose children differ in height by at most two. */
  ghost function Rebalanced(t: Tree): Tree
    requires t.Node?
  {
    if Ht(t.left) > Ht(t.right) + 1 then
      if Ht(t.left.left) < Ht(t.left.right) then TurnedRight(Node(TurnedLeft(t.left), t.id, t.right))
      else TurnedRight(t)
    else if Ht(t.right) > Ht(t.left) + 1 then
      if Ht(t.right.right) < Ht(t.right.left) then TurnedLeft(Node(t.left, t.id, TurnedRight(t.right)))
      else TurnedLeft(t)
    else t
  }

  ghost predicate NearlyAvl(t: Tree) {
    t.Node? && Avl(t.left) && Avl(t.right) && Ht(t.left) <= Ht(t.right) + 2 && Ht(t.right) <= Ht(t.left) + 2
  }

  lemma TurnedLeftOrder(t: Tree)
    requires t.Node? && t.right.Node?
    ensures Order(TurnedLeft(t)) == Order(t) && IdSet(TurnedLeft(t)) == IdSet(t)
  {
    var l, r := Order(t.left) + [t.id], Order(t.right.right);
    Assoc(l, Order(t.right.left), [t.right.id]);
    Assoc(l, Order(t.right.left) + [t.right.id], r);
  }

  lemma TurnedRightOrder(t: Tree)
    requires t.Node? && t.left.Node?
    ensures Order(TurnedRight(t)) == Order(t) && IdSet(TurnedRight(t)) == IdSet(t)
  {
    TurnedLeftOrder(TurnedRight(t));
  }

  /** `s` is a balanced shape that may replace the unbalanced `t`, at most one level lower. */
  ghost predicate Settles(s: Tree, t: Tree) { Avl(s) && Ht(s) <= Ht(t) <= Ht(s) + 1 }

  lemma SingleTurns(t: Tree)
    requires NearlyAvl(t)
    ensures Ht(t.left) == Ht(t.right) + 2 && Ht(t.left.left) >= Ht(t.left.right) ==> Settles(TurnedRight(t), t)
    ensures Ht(t.right) == Ht(t.left) + 2 && Ht(t.right.right) >= Ht(t.right.left) ==> Settles(TurnedLeft(t), t)
  {}

  lemma DoubleTurnRight(t: Tree)
    requires NearlyAvl(t) && Ht(t.left) == Ht(t.right) + 2 && Ht(t.left.left) < Ht(t.left.right)
    ensures Settles(TurnedRight(Node(TurnedLeft(t.left), t.id, t.right)), t)
  {
    var x := t.left.right;
    assert Avl(x) && Near(Ht(x.left), Ht(x.right));
    assert Avl(Node(t.left.left, t.left.id, x.left)) && Avl(Node(x.right, t.id, t.right));
  }

  lemma DoubleTurnLeft(t: Tree)
    requires NearlyAvl(t) && Ht(t.right) == Ht(t.left) + 2 && Ht(t.right.right) < Ht(t.right.left)
    ensures Settles(TurnedLeft(Node(t.left, t.id, TurnedRight(t.right))), t)
  {
    var x := t.right.left;
    assert Avl(x) && Near(Ht(x.left), Ht(x.right));
    assert Avl(Node(t.left, t.id, x.left)) && Avl(Node(x.right, t.right.id, t.right.right));
  }

  /** Rebalancing restores the balance and leaves a subtree at most one level lower. */
  lemma RebalancedIsAvl(t: Tree)
    requires NearlyAvl(t)
    ensures Settles(Rebalanced(t), t)
  {
    SingleTurns(t);
    if Ht(t.left) > Ht(t.right) + 1 && Ht(t.left.left) < Ht(t.left.right) {
      DoubleTurnRight(t);
    } else if Ht(t.right) > Ht(t.left) + 1 && Ht(t.right.right) < Ht(t.right.left) {
      DoubleTurnLeft(t);
    }
  }

  lemma RebalancedOrder(t: Tree)
    requires NearlyAvl(t)
    ensures Order(Rebalanced(t)) == Order(t) && IdSet(Rebalanced(t)) == IdSet(t)
  {
    if Ht(t.left) > Ht(t.right) + 1 {
      if Ht(t.left.left) < Ht(t.left.right) {
        TurnedLeftOrder(t.left);
        TurnedRightOrder(Node(TurnedLeft(t.left), t.id, t.right));
      } else {
        TurnedRightOrder(t);
      }
    } else if Ht(t.right) > Ht(t.left) + 1 {
      if Ht(t.right.right) < Ht(t.right.left) {
        TurnedRightOrder(t.right);
        TurnedLeftOrder(Node(t.left, t.id, TurnedRight(t.right)));
      } else {
        TurnedLeftOrder(t);
      }
    }
  }

  /** No block occurs twice in a shape. */
  ghost predicate Once(t: Tree) {
    t.Node? ==>
      Once(t.left) && Once(t.right) && t.id !in IdSet(t.left) && t.id !in IdSet(t.right)
      && IdSet(t.left) !! IdSet(t.right)
  }

  /** The root of a shape and its stored height may be stale; both subtrees are exact. */
  ghost predicate Jointed(b: seq<Block>, t: Tree) {
    && t.Node? && t.id < |b|
    && Linked(b, t.left, b[t.id].left) && Linked(b, t.right, b[t.id].right)
  }

  function HeightOf(b: seq<Block>, link: nat): nat
    requires link == NO_BLOCK || link < |b|
  {
    if link == NO_BLOCK then 0 else b[link].height
  }

  lemma TurnedLeftOnce(t: Tree)
    requires Once(t) && t.Node? && t.right.Node?
    ensures Once(TurnedLeft(t)) && IdSet(TurnedLeft(t)) == IdSet(t)
  {
    TurnedLeftOrder(t);
  }

  lemma TurnedRightOnce(t: Tree)
    requires Once(t) && t.Node? && t.left.Node?
    ensures Once(TurnedRight(t)) && IdSet(TurnedRight(t)) == IdSet(t)
  {
    TurnedRightOrder(t);
  }

  method UpdateHeight(b: seq<Block>, root: nat, ghost t: Tree) returns (b': seq<Block>)
    requires |b| < NO_BLOCK && Jointed(b, t) && Once(t) && t.id == root
    ensures b' == b[root := b[root].(height := Ht(t))]
    ensures Linked(b', t, root)
  {
    b' := b[root := b[root].(height := 1 + Max(HeightOf(b, b[root].left), HeightOf(b, b[root].right)))];
    LinkedFrame(b, b', t.left, b[root].left);
    LinkedFrame(b, b', t.right, b[root].right);
  }

  method RotateLeft(b: seq<Block>, root: nat, ghost t: Tree) returns (b': seq<Block>, pivot: nat)
    requires |b| < NO_BLOCK && Jointed(b, t) && Once(t) && t.id == root && t.right.Node?
    ensures Linked(b', TurnedLeft(t), pivot) && pivot == b[root].right
    ensures SameRanges(b, b') && |b'| == |b| && forall k :: 0 <= k < |b| && k != root && k != pivot ==> b'[k] == b[k]
  {
    pivot := b[root].right;
    b' := b[root := b[root].(right := b[pivot].left)];
    b' := b'[pivot := b'[pivot].(left := root)];
    ghost var lower := Node(t.left, root, t.right.left);
    LinkedFrame(b, b', t.left, b[root].left);
    LinkedFrame(b, b', t.right.left, b[pivot].left);
    LinkedFrame(b, b', t.right.right, b[pivot].right);
    ghost var b1 := b';
    b' := UpdateHeight(b', root, lower);
    LinkedFrame(b1, b', t.right.right, b[pivot].right);
    TurnedLeftOnce(t);
    b' := UpdateHeight(b', pivot, TurnedLeft(t));
  }

  method RotateRight(b: seq<Block>, root: nat, ghost t: Tree) returns (b': seq<Block>, pivot: nat)
    requires |b| < NO_BLOCK && Jointed(b, t) && Once(t) && t.id == root && t.left.Node?
    ensures Linked(b', TurnedRight(t), pivot) && pivot == b[root].left
    ensures SameRanges(b, b') && |b'| == |b| && forall k :: 0 <= k < |b| && k != root && k != pivot ==> b'[k] == b[k]
  {
    pivot := b[root].left;
    b' := b[root := b[root].(left := b[pivot].right)];
    b' := b'[pivot := b'[pivot].(right := root)];
    ghost var lower := Node(t.left.right, root, t.right);
    LinkedFrame(b, b', t.right, b[root].right);
    LinkedFrame(b, b', t.left.right, b[pivot].right);
    LinkedFrame(b, b', t.left.left, b[pivot].left);
    ghost var b1 := b';
    b' := UpdateHeight(b', root, lower);
    LinkedFrame(b1, b', t.left.left, b[pivot].left);
    TurnedRightOnce(t);
    b' := UpdateHeight(b', pivot, TurnedRight(t));
  }

  lemma LinkedHeight(b: seq<Block>, t: Tree, link: nat)
    requires Linked(b, t, link)
    ensures link == NO_BLOCK || link < |b|
    ensures |b| < NO_BLOCK ==> HeightOf(b, link) == Ht(t)
  {}

  method RebalanceBlock(b: seq<Block>, root: nat, ghost t: Tree) returns (b': seq<Block>, top: nat)
    requires |b| < NO_BLOCK && Jointed(b, t) && Once(t) && t.id == root && NearlyAvl(t)
    ensures Linked(b', Rebalanced(t), top)
    ensures SameRanges(b, b') && |b'| == |b| && forall k :: 0 <= k < |b| && k !in IdSet(t) ==> b'[k] == b[k]
  {
    b' := UpdateHeight(b, root, t);
    top := root;
    var left, right := b'[root].left, b'[root].right;
    assert Linked(b', t.left, left) && Linked(b', t.right, right);
    if HeightOf(b', left) > HeightOf(b', right) + 1 {
      LinkedHeight(b', t.left.left, b'[left].left);
      LinkedHeight(b', t.left.right, b'[left].right);
      ghost var t1 := t;
      if HeightOf(b', b'[left].left) < HeightOf(b', b'[left].right) {
        t1 := Node(TurnedLeft(t.left), t.id, t.right);
        b' := TurnChild(b', root, t, true);
        TurnedLeftOnce(t.left);
      }
      b', top := RotateRight(b', root, t1);
    } else if HeightOf(b', right) > HeightOf(b', left) + 1 {
      LinkedHeight(b', t.right.left, b'[right].left);
      LinkedHeight(b', t.right.right, b'[right].right);
      ghost var t1 := t;
      if HeightOf(b', b'[right].right) < HeightOf(b', b'[right].left) {
        t1 := Node(t.left, t.id, TurnedRight(t.right));
        b' := TurnChild(b', root, t, false);
        TurnedRightOnce(t.right);
      }
      b', top := RotateLeft(b', root, t1);
    }
  }

  /** The first half of a double rotation: the taller child turns away from the root. */
  method TurnChild(b: seq<Block>, root: nat, ghost t: Tree, leftChild: bool) returns (b': seq<Block>)
    requires |b| < NO_BLOCK && Jointed(b, t) && Once(t) && t.id == root
    requires if leftChild then t.left.Node? && t.left.right.Node? else t.right.Node? && t.right.left.Node?
    ensures leftChild ==> Jointed(b', Node(TurnedLeft(t.left), t.id, t.right))
    ensures !leftChild ==> Jointed(b', Node(t.left, t.id, TurnedRight(t.right)))
    ensures SameRanges(b, b') && |b'| == |b| && forall k :: 0 <= k < |b| && k !in IdSet(t) ==> b'[k] == b[k]
  {
    var left, right := b[root].left, b[root].right;
    var turned: nat;
    if leftChild {
      b', turned := RotateLeft(b, left, t.left);
      LinkedFrame(b, b', t.right, right);
      TurnedLeftOrder(t.left);
      ghost var b1 := b';
      b' := b'[root := b'[root].(left := turned)];
      LinkedFrame(b1, b', TurnedLeft(t.left), turned);
      LinkedFrame(b1, b', t.right, right);
    } else {
      b', turned := RotateRight(b, right, t.right);
      LinkedFrame(b, b', t.left, left);
      TurnedRightOrder(t.right);
      ghost var b1 := b';
      b' := b'[root := b'[root].(right := turned)];
      LinkedFrame(b1, b', TurnedRight(t.right), turned);
      LinkedFrame(b1, b', t.left, left);
    }
  }

  // ---------------------------------------------------------------- search and insertion

  lemma {:induction false} OrderIds(t: Tree)
    ensures forall k :: k in Order(t) <==> k in IdSet(t)
  {
    if t.Node? { OrderIds(t.left); OrderIds(t.right); }
  }

  lemma {:induction false} DistinctIsOnce(t: Tree)
    requires Distinct(Order(t))
    ensures Once(t)
  {
    if t.Node? {
      var l, r := Order(t.left), Order(t.right);
      assert forall i :: 0 <= i < |l| ==> l[i] == Order(t)[i];
      assert Order(t)[|l|] == t.id;
      assert forall i :: 0 <= i < |r| ==> r[i] == Order(t)[|l| + 1 + i];
      DistinctIsOnce(t.left);
      DistinctIsOnce(t.right);
      OrderIds(t.left);
      OrderIds(t.right);
    }
  }

  lemma {:induction false} PlugOnce(p: Path, t: Tree)
    requires Once(Plug(p, t))
    ensures Once(t) && IdSet(t) !! PathSet(p)
    decreases p
  {
    if p.Under? { PlugOnce(p.up, Join(p, t)); }
  }

  /** Every listed block ends at or before `a`, respectively starts at or after it. */
  ghost predicate EndBy(b: seq<Block>, s: seq<nat>, a: nat) {
    forall i :: 0 <= i < |s| ==> s[i] < |b| && b[s[i]].End() <= a
  }

  ghost predicate StartFrom(b: seq<Block>, s: seq<nat>, a: nat) {
    forall i :: 0 <= i < |s| ==> s[i] < |b| && a <= b[s[i]].address
  }

  lemma OrderedAround(b: seq<Block>, l: seq<nat>, i: nat, r: seq<nat>, whole: seq<nat>, before: seq<nat>,
      after: seq<nat>)
    requires Ordered(b, whole) && whole == before + (l + [i] + r) + after
    ensures i < |b| && b[i].size > 0
    ensures EndBy(b, l, b[i].address) && StartFrom(b, r, b[i].End())
  {
    assert whole[|before| + |l|] == i;
    assert forall k :: 0 <= k < |l| ==> whole[|before| + k] == l[k];
    assert forall k :: 0 <= k < |r| ==> whole[|before| + |l| + 1 + k] == r[k];
  }

  /** Around a node of an ordered tree: its left subtree ends before it, its right one starts after. */
  lemma NodeOrder(b: seq<Block>, p: Path, t: Tree)
    requires t.Node? && Ordered(b, Order(Plug(p, t)))
    ensures t.id < |b| && b[t.id].size > 0
    ensures EndBy(b, Order(t.left), b[t.id].address) && StartFrom(b, Order(t.right), b[t.id].End())
  {
    PlugOrder(p, t);
    OrderedAround(b, Order(t.left), t.id, Order(t.right), Order(Plug(p, t)), Before(p), After(p));
  }

  /** A downward search stands at `index`, the root of subtree `s` below path `p`: at each ancestor it
      went left because the range to place ends before it, or right because it starts after it. */
  ghost predicate Cursor(b: seq<Block>, root: nat, t: Tree, p: Path, s: Tree, index: nat, lo: nat, hi: nat)
    decreases p
  {
    if p.Top? then s == t && index == root else
      && p.id < |b| && Cursor(b, root, t, p.up, Join(p, s), p.id, lo, hi)
      && (if p.wentLeft then index == b[p.id].left && hi <= b[p.id].address
          else index == b[p.id].right && b[p.id].End() <= lo)
  }

  lemma {:induction false} CursorShape(b: seq<Block>, root: nat, t: Tree, p: Path, s: Tree, index: nat, lo: nat,
      hi: nat)
    requires IndexedBy(b, root, t) && Cursor(b, root, t, p, s, index, lo, hi)
    ensures t == Plug(p, s) && Linked(b, s, index) && Avl(s)
    ensures Hanging(b, root, p, index, Ht(s)) && AvlPath(p, Ht(s))
    decreases p
  {
    if p.Under? { CursorShape(b, root, t, p.up, Join(p, s), p.id, lo, hi); }
  }

  /** Everything left of the path ends by `lo`, and everything right of it starts from `hi`. */
  lemma {:induction false} CursorSides(b: seq<Block>, root: nat, t: Tree, p: Path, s: Tree, index: nat, lo: nat,
      hi: nat)
    requires IndexedBy(b, root, t) && Cursor(b, root, t, p, s, index, lo, hi)
    ensures EndBy(b, Before(p), lo) && StartFrom(b, After(p), hi)
    decreases p
  {
    if p.Under? {
      CursorSides(b, root, t, p.up, Join(p, s), p.id, lo, hi);
      CursorShape(b, root, t, p.up, Join(p, s), p.id, lo, hi);
      SortedIsOrdered(b, Order(t));
      NodeOrder(b, p.up, Join(p, s));
    }
  }

  lemma CursorNode(b: seq<Block>, root: nat, t: Tree, p: Path, s: Tree, index: nat, lo: nat, hi: nat)
    requires IndexedBy(b, root, t) && Cursor(b, root, t, p, s, index, lo, hi) && index != NO_BLOCK
    ensures s.Node? && index < |b| && s.id == index && b[index].size > 0 && |Ids(p)| < MAX_ANCESTORS
  {
    CursorShape(b, root, t, p, s, index, lo, hi);
    SortedIsOrdered(b, Order(t));
    NodeOrder(b, p, s);
    DepthBound(t, p, s);
  }

  /** At an empty link the neighbours are all the blocks there are. */
  lemma CursorEnd(b: seq<Block>, root: nat, t: Tree, p: Path, s: Tree, lo: nat, hi: nat)
    requires IndexedBy(b, root, t) && Cursor(b, root, t, p, s, NO_BLOCK, lo, hi)
    ensures s == Leaf && forall k :: 0 <= k < |b| ==> b[k].End() <= lo || hi <= b[k].address
  {
    CursorShape(b, root, t, p, s, NO_BLOCK, lo, hi);
    CursorSides(b, root, t, p, s, NO_BLOCK, lo, hi);
    PlugOrder(p, s);
    forall k | 0 <= k < |b| ensures b[k].End() <= lo || hi <= b[k].address {
      assert k in Order(t);
      assert k in Before(p) || k in After(p);
    }
  }

  datatype Outcome = Duplicate | Overlapping | Fresh

  lemma OneOverlapDecides(b: seq<Block>, root: nat, i: nat, start: nat, size: nat)
    requires Indexed(b, root) && i < |b| && !b[i].Is(start, size) && !b[i].Apart(start, size)
    ensures forall k :: 0 <= k < |b| ==> !b[k].Is(start, size)
  {
    forall k | 0 <= k < |b| && b[k].Is(start, size) ensures false { IndexedIsDisjoint(b, root, i, k); }
  }

  /** The downward walk of a touch: it stops at an empty link, or at the first block on the path
      that the range meets. The ancestor array never fills. */
  method Descend(b: seq<Block>, root: nat, start: nat, size: nat, ghost t: Tree)
      returns (index: nat, ancestors: seq<nat>, ghost path: Path, ghost s: Tree)
    requires IndexedBy(b, root, t) && size > 0
    ensures ancestors == Ids(path) && Cursor(b, root, t, path, s, index, start, start + size)
    ensures index == NO_BLOCK || (index < |b| && !b[index].Apart(start, size))
  {
    index, s, ancestors, path := root, t, [], Top;
    while index != NO_BLOCK
      invariant ancestors == Ids(path) && Cursor(b, root, t, path, s, index, start, start + size)
      decreases s
    {
      CursorNode(b, root, t, path, s, index, start, start + size);
      var block := b[index];
      if !block.Apart(start, size) || |ancestors| == MAX_ANCESTORS { break; }
      ancestors := ancestors + [index];
      if start < block.address {
        path := Under(path, index, s.right, true);
        index, s := block.left, s.left;
      } else {
        path := Under(path, index, s.left, false);
        index, s := block.right, s.right;
      }
    }
  }

  /** One search path decides the touch: the range is an exact duplicate, or it is disjoint from
      every block of the checkpoint, or it partly overlaps one. */
  method Search(b: seq<Block>, root: nat, start: nat, size: nat, ghost t: Tree)
      returns (outcome: Outcome, ancestors: seq<nat>, ghost path: Path)
    requires IndexedBy(b, root, t) && size > 0
    ensures outcome == Duplicate <==> Listed(b, start, size)
    ensures outcome == Fresh <==> AllApart(b, start, size)
    ensures outcome == Fresh ==>
      ancestors == Ids(path) && Cursor(b, root, t, path, Leaf, NO_BLOCK, start, start + size)
  {
    ghost var s;
    var index;
    index, ancestors, path, s := Descend(b, root, start, size, t);
    if index == NO_BLOCK {
      CursorEnd(b, root, t, path, s, start, start + size);
      outcome := Fresh;
    } else if b[index].Is(start, size) {
      outcome := Duplicate;
    } else {
      OneOverlapDecides(b, root, index, start, size);
      outcome := Overlapping;
    }
  }

  /** Whether some block of a checkpoint fully covers the range; the search stops at the only block
      that can contain the first address. */
  method CoversBlock(b: seq<Block>, root: nat, start: nat, size: nat, ghost t: Tree) returns (covers: bool)
    requires IndexedBy(b, root, t) && size > 0
    ensures covers <==> exists k :: 0 <= k < |b| && b[k].Encloses(start, size)
  {
    ghost var s, path := t, Top;
    var index := root;
    while index != NO_BLOCK
      invariant Cursor(b, root, t, path, s, index, start, start + 1)
      decreases s
    {
      CursorNode(b, root, t, path, s, index, start, start + 1);
      var candidate := b[index];
      if start < candidate.address {
        path := Under(path, index, s.right, true);
        index, s := candidate.left, s.left;
      } else if start - candidate.address >= candidate.size {
        path := Under(path, index, s.left, false);
        index, s := candidate.right, s.right;
      } else {
        covers := size <= candidate.size - (start - candidate.address);
        forall k | 0 <= k < |b| && b[k].Encloses(start, size) ensures k == index {
          if k != index { IndexedIsDisjoint(b, root, k, index); }
        }
        return;
      }
    }
    CursorEnd(b, root, t, path, s, start, start + 1);
    covers := false;
  }

  /** A parent's link moves to the new root of the subtree below it. */
  lemma {:induction false} Relinked(b: seq<Block>, b': seq<Block>, root: nat, p: Path, link: nat, link': nat, h: nat,
      t: Tree)
    requires p.Under? && Hanging(b, root, p, link, h) && Once(Plug(p, t))
    requires b' == b[p.id := if p.wentLeft then b[p.id].(left := link') else b[p.id].(right := link')]
    ensures Hanging(b', root, p, link', h)
  {
    PlugOnce(p.up, Join(p, t));
    LinkedFrame(b, b', p.other, if p.wentLeft then b[p.id].right else b[p.id].left);
    HangingFrame(b, b', root, p.up, p.id, Above(p, h));
  }

  /** The state of the upward walk: subtree `s` at `link` is exact, the ancestors above it still carry
      the heights of the time when it was `h` high, and the blocks keep their order. */
  ghost predicate Climbing(b: seq<Block>, root: nat, p: Path, s: Tree, link: nat, h: nat, order: seq<nat>) {
    && |b| < NO_BLOCK && Linked(b, s, link) && Avl(s) && h <= Ht(s) <= h + 1
    && Hanging(b, root, p, link, h) && AvlPath(p, h)
    && Order(Plug(p, s)) == order && Distinct(order)
  }

  lemma ClimbingNode(b: seq<Block>, root: nat, p: Path, s: Tree, link: nat, h: nat, order: seq<nat>)
    requires p.Under? && Climbing(b, root, p, s, link, h, order)
    ensures var n := Join(p, s); Jointed(b, n) && Once(n) && n.id == p.id && NearlyAvl(n)
    ensures b[p.id].height == Above(p, h) && Ids(p)[|Ids(p)| - 1] == p.id && Ids(p)[..|Ids(p)| - 1] == Ids(p.up)
  {
    DistinctIsOnce(Plug(p, s));
    PlugOnce(p.up, Join(p, s));
  }

  /** After a rebalance the subtree is exact again, and the ancestors further up still hang from its
      old root. */
  lemma ClimbingOn(b: seq<Block>, b': seq<Block>, root: nat, p: Path, s: Tree, link: nat, h: nat, order: seq<nat>,
      top: nat)
    requires p.Under? && Climbing(b, root, p, s, link, h, order)
    requires Linked(b', Rebalanced(Join(p, s)), top) && |b'| == |b|
    requires forall k :: 0 <= k < |b| && k !in IdSet(Join(p, s)) ==> b'[k] == b[k]
    ensures Hanging(b', root, p.up, p.id, Above(p, h)) && AvlPath(p.up, Above(p, h))
    ensures Avl(Rebalanced(Join(p, s))) && Above(p, h) <= Ht(Rebalanced(Join(p, s))) <= Above(p, h) + 1
    ensures Order(Plug(p.up, Rebalanced(Join(p, s)))) == order && Once(Plug(p.up, Join(p, s)))
  {
    var n := Join(p, s);
    ClimbingNode(b, root, p, s, link, h, order);
    DistinctIsOnce(Plug(p, s));
    PlugOnce(p.up, n);
    RebalancedOrder(n);
    RebalancedIsAvl(n);
    PlugOrder(p.up, n);
    PlugOrder(p.up, Rebalanced(n));
    HangingFrame(b, b', root, p.up, p.id, Above(p, h));
  }

  /** Point the hole at `link'` instead of `link`: the root itself at the top, else the parent's field
      that held the old link. */
  method Redirect(b: seq<Block>, root: nat, ancestors: seq<nat>, depth: nat, link: nat, link': nat,
                  ghost p: Path, ghost s: Tree, ghost h: nat, ghost order: seq<nat>)
      returns (b': seq<Block>, root': nat)
    requires |b| < NO_BLOCK && depth == |Ids(p)| <= |ancestors| && ancestors[..depth] == Ids(p)
    requires Hanging(b, root, p, link, h) && AvlPath(p, h)
    requires Linked(b, s, link') && Avl(s) && h <= Ht(s) <= h + 1
    requires Order(Plug(p, s)) == order && Distinct(order)
    requires p.Under? && !p.wentLeft ==> b[p.id].left != link
    ensures Climbing(b', root', p, s, link', h, order) && |b'| == |b| && SameRanges(b, b')
  {
    b', root' := b, root;
    DistinctIsOnce(Plug(p, s));
    PlugOnce(p, s);
    if depth == 0 {
      root' := link';
    } else {
      var parent := ancestors[depth - 1];
      assert parent == ancestors[..depth][depth - 1] == p.id;
      if b[parent].left == link {
        b' := b[parent := b[parent].(left := link')];
      } else {
        b' := b[parent := b[parent].(right := link')];
      }
      Relinked(b, b', root, p, link, link', h, s);
      LinkedFrame(b, b', s, link');
    }
  }

  /** With the new block in the free slot the order stays an order, and holds one block more. */
  lemma NewOrder(b: seq<Block>, root: nat, t: Tree, path: Path, b': seq<Block>, start: nat, size: nat)
    requires IndexedBy(b, root, t) && Cursor(b, root, t, path, Leaf, NO_BLOCK, start, start + size) && size > 0
    requires SameRanges(b, b') && |b'| == |b| + 1 && b'[|b|].Is(start, size)
    ensures var order := Order(Plug(path, Node(Leaf, |b|, Leaf)));
      Ordered(b', order) && Distinct(order) && |order| == |b'| && forall k :: 0 <= k < |b'| ==> k in order
  {
    OrderGrows(path, |b|);
    Widened(b, root, t, path, b', start, size, Before(path), After(path), Before(path) + [|b|] + After(path));
  }

  lemma Widened(b: seq<Block>, root: nat, t: Tree, path: Path, b': seq<Block>, start: nat, size: nat,
                before: seq<nat>, after: seq<nat>, order: seq<nat>)
    requires IndexedBy(b, root, t) && Cursor(b, root, t, path, Leaf, NO_BLOCK, start, start + size) && size > 0
    requires SameRanges(b, b') && |b'| == |b| + 1 && b'[|b|].Is(start, size)
    requires before == Before(path) && after == After(path) && order == before + [|b|] + after
    ensures Ordered(b', order) && Distinct(order)
    ensures |order| == |b'| && forall k :: 0 <= k < |b'| ==> k in order
  {
    assert Ordered(b', order) && Distinct(order) by {
      OrderAround(b, root, t, path, start, size);
      OneMore(b, b', before, after, start, size);
    }
    assert |order| == |b'| && forall k :: 0 <= k < |b'| ==> k in order by {
      OrderAround(b, root, t, path, start, size);
      AllStillIn(before, after, |b|);
    }
  }

  lemma OrderAround(b: seq<Block>, root: nat, t: Tree, path: Path, start: nat, size: nat)
    requires IndexedBy(b, root, t) && Cursor(b, root, t, path, Leaf, NO_BLOCK, start, start + size) && size > 0
    ensures var before, after := Before(path), After(path);
      && Ordered(b, before + after) && EndBy(b, before, start) && StartFrom(b, after, start + size)
      && |before + after| == |b| && forall k :: 0 <= k < |b| ==> k in before + after
  {
    CursorSides(b, root, t, path, Leaf, NO_BLOCK, start, start + size);
    CursorShape(b, root, t, path, Leaf, NO_BLOCK, start, start + size);
    OrderGrows(path, |b|);
    SortedIsOrdered(b, Order(t));
  }

  lemma OrderGrows(path: Path, id: nat)
    ensures Order(Plug(path, Leaf)) == Before(path) + After(path)
    ensures Order(Plug(path, Node(Leaf, id, Leaf))) == Before(path) + [id] + After(path)
  {
    PlugOrder(path, Leaf);
    PlugOrder(path, Node(Leaf, id, Leaf));
  }

  lemma AllStillIn(before: seq<nat>, after: seq<nat>, n: nat)
    requires forall k :: 0 <= k < n ==> k in before + after
    ensures forall k :: 0 <= k < n + 1 ==> k in before + [n] + after
  {
    forall k | 0 <= k < n ensures k in before + [n] + after {
      assert k in before + after;
    }
  }

  lemma OneMore(b: seq<Block>, b': seq<Block>, before: seq<nat>, after: seq<nat>, start: nat, size: nat)
    requires Ordered(b, before + after) && EndBy(b, before, start) && StartFrom(b, after, start + size) && size > 0
    requires SameRanges(b, b') && |b'| == |b| + 1 && b'[|b|].Is(start, size)
    ensures Ordered(b', before + [|b|] + after) && Distinct(before + [|b|] + after)
  {
    var shorter, longer := before + after, before + [|b|] + after;
    forall i | 0 <= i < |longer| ensures longer[i] < |b'| && b'[longer[i]].size > 0 {
      assert i != |before| ==> longer[i] == shorter[if i < |before| then i else i - 1];
    }
    forall i, j | 0 <= i < j < |longer| ensures b'[longer[i]].End() <= b'[longer[j]].address {
      assert i != |before| ==> longer[i] == shorter[if i < |before| then i else i - 1];
      assert j != |before| ==> longer[j] == shorter[if j < |before| then j else j - 1];
    }
    OrderedIsDistinct(b', longer);
  }

  method InsertLeaf(b: seq<Block>, root: nat, start: nat, size: nat, offset: nat, ancestors: seq<nat>,
                    ghost path: Path, ghost t: Tree)
      returns (b': seq<Block>, root': nat)
    requires IndexedBy(b, root, t) && size > 0 && |b| + 1 < NO_BLOCK
    requires Cursor(b, root, t, path, Leaf, NO_BLOCK, start, start + size) && ancestors == Ids(path)
    ensures var leaf := Node(Leaf, |b|, Leaf);
      Climbing(b', root', path, leaf, |b|, 0, Order(Plug(path, leaf)))
    ensures SameRanges(b, b') && |b'| == |b| + 1
    ensures b'[|b|].Is(start, size) && b'[|b|].offset == offset
  {
    CursorShape(b, root, t, path, Leaf, NO_BLOCK, start, start + size);
    ghost var leaf := Node(Leaf, |b|, Leaf);
    b', root' := b + [Block(start, offset, size, NO_BLOCK, NO_BLOCK, 1)], root;
    ghost var grown := b';
    NewOrder(b, root, t, path, b', start, size);
    DistinctIsOnce(Plug(path, leaf));
    PlugOnce(path, leaf);
    HangingFrame(b, b', root, path, NO_BLOCK, 0);
    if |ancestors| == 0 {
      root' := |b|;
    } else {
      var parent := ancestors[|ancestors| - 1];
      assert parent == path.id;
      if start < b'[parent].address {
        b' := b'[parent := b'[parent].(left := |b|)];
      } else {
        b' := b'[parent := b'[parent].(right := |b|)];
      }
      assert b[parent].size > 0 by { SortedIsOrdered(b, Order(t)); NodeOrder(b, path.up, Join(path, Leaf)); }
      Relinked(grown, b', root, path, NO_BLOCK, |b|, 0, leaf);
      LinkedFrame(grown, b', leaf, |b|);
    }
  }

  lemma ClimbedUp(b: seq<Block>, root: nat, p: Path, s: Tree, link: nat, h: nat, order: seq<nat>)
    requires Climbing(b, root, p, s, link, h, order) && (p.Top? || Ht(s) == h)
    ensures Linked(b, Plug(p, s), root) && Avl(Plug(p, s)) && Order(Plug(p, s)) == order
  {
    if p.Under? { PlugLinked(b, root, p, s, link); }
  }

  lemma InsertedIsIndexed(b: seq<Block>, root: nat, t: Tree, path: Path, b': seq<Block>, root': nat,
                          p: Path, s: Tree, link: nat, h: nat, start: nat, size: nat)
    requires IndexedBy(b, root, t) && Cursor(b, root, t, path, Leaf, NO_BLOCK, start, start + size) && size > 0
    requires SameRanges(b, b') && |b'| == |b| + 1 && b'[|b|].Is(start, size)
    requires Climbing(b', root', p, s, link, h, Order(Plug(path, Node(Leaf, |b|, Leaf)))) && (p.Top? || Ht(s) == h)
    ensures Indexed(b', root')
  {
    ClimbedUp(b', root', p, s, link, h, Order(Plug(path, Node(Leaf, |b|, Leaf))));
    NewOrder(b, root, t, path, b', start, size);
    SortedIsOrdered(b', Order(Plug(p, s)));
    assert IndexedBy(b', root', Plug(p, s));
  }

  /** One ancestor of the upward walk: rebalance it, and redirect its parent if its root changed. */
  method ClimbStep(b: seq<Block>, root: nat, ancestors: seq<nat>, depth: nat, top: nat, link: nat,
                   ghost p: Path, ghost s: Tree, ghost h: nat, ghost order: seq<nat>)
      returns (b': seq<Block>, balanced: nat, root': nat)
    requires p.Under? && Climbing(b, root, p, s, link, h, order)
    requires depth + 1 == |Ids(p)| <= |ancestors| && ancestors[..depth + 1] == Ids(p) && top == p.id
    ensures Climbing(b', root', p.up, Rebalanced(Join(p, s)), balanced, Above(p, h), order)
    ensures |b'| == |b| && SameRanges(b, b')
  {
    ClimbingNode(b, root, p, s, link, h, order);
    assert ancestors[..depth] == Ids(p.up) by { assert ancestors[..depth] == ancestors[..depth + 1][..depth]; }
    b', balanced := RebalanceBlock(b, top, Join(p, s));
    ClimbingOn(b, b', root, p, s, link, h, order, balanced);
    root' := root;
    if balanced != top {
      OtherChild(b', root, p.up, Join(p, s), Above(p, h));
      b', root' := Redirect(b', root, ancestors, depth, top, balanced, p.up, Rebalanced(Join(p, s)), Above(p, h),
          order);
    }
  }

  /** The two links of a parent differ, so comparing the left one tells which to redirect. */
  lemma OtherChild(b: seq<Block>, root: nat, p: Path, n: Tree, h: nat)
    requires n.Node? && Hanging(b, root, p, n.id, h) && n.id < NO_BLOCK && Once(Plug(p, n))
    ensures p.Under? && !p.wentLeft ==> b[p.id].left != n.id
  {
    PlugOnce(p, n);
  }

  /** Insert the new block below the searched path and walk back up, rebalancing until a subtree keeps
      its old height. */
  method Insert(b: seq<Block>, root: nat, start: nat, size: nat, offset: nat, ancestors: seq<nat>,
                ghost path: Path, ghost t: Tree)
      returns (b': seq<Block>, root': nat)
    requires IndexedBy(b, root, t) && size > 0 && |b| + 1 < NO_BLOCK
    requires Cursor(b, root, t, path, Leaf, NO_BLOCK, start, start + size) && ancestors == Ids(path)
    ensures Indexed(b', root') && SameRanges(b, b') && |b'| == |b| + 1
    ensures b'[|b|].Is(start, size) && b'[|b|].offset == offset
  {
    var inserted, depth := |b|, |ancestors|;
    b', root' := InsertLeaf(b, root, start, size, offset, ancestors, path, t);
    ghost var p, s, h := path, Node(Leaf, inserted, Leaf), 0;
    ghost var order := Order(Plug(p, s));
    var link: nat := inserted;
    while depth != 0
      invariant depth == |Ids(p)| <= |ancestors| && ancestors[..depth] == Ids(p)
      invariant Climbing(b', root', p, s, link, h, order)
      invariant |b'| == |b| + 1 && SameRanges(b, b')
      invariant b'[|b|].Is(start, size) && b'[|b|].offset == offset
      decreases depth
    {
      ClimbingNode(b', root', p, s, link, h, order);
      depth := depth - 1;
      var top := ancestors[depth];
      var previousHeight := b'[top].height;
      b', link, root' := ClimbStep(b', root', ancestors, depth, top, link, p, s, h, order);
      s, h, p := Rebalanced(Join(p, s)), Above(p, h), p.up;
      if b'[link].height == previousHeight { break; }
    }
    InsertedIsIndexed(b, root, t, path, b', root', p, s, link, h, start, size);
  }
}
