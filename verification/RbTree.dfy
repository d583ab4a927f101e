/** The intrusive red-black tree of lib/rbtree.c: nodes with parent pointers, mutated in place.

    A `Shape` is the subtree hanging off a pointer; a `Path` is everything around it, read from the hole
    upwards. `At(view, path, shape, p)` says that the cells of the heap are linked exactly as
    `Plug(path, shape)` says, that `p` points at the shape, and that no node occurs twice. The methods work
    on node objects; a snapshot of their cells (`View`) turns every linking argument into one about values.

    The source spells out each case twice, once per mirror image. Here one case is written over a `Side`.
 */
module RbTree {

  datatype Side = L | R {
    function Flip(): Side { if L? then R else L }
  }

  /** struct rb_node. A node that is in no tree is its own parent (RB_CLEAR_NODE). */
  class Node {
    var parent: Node?
    var left: Node?
    var right: Node?
    var red: bool

    constructor ()
      ensures parent == this
    {
      parent, left, right, red := this, null, null, false;
    }

    function Child(s: Side): Node?
      reads this
    {
      if s.L? then left else right
    }

    // The three pointer stores, each with its effect on a snapshot of the cells.

    method SetChild(s: Side, v: Node?, ghost S: set<Node>)
      requires this in S
      modifies this
      ensures Snapshot(S) == old(Snapshot(S))[this := old(Snapshot(S))[this].WithChild(s, v)]
    {
      if s.L? {
        left := v;
      } else {
        right := v;
      }
    }

    method SetParent(v: Node?, ghost S: set<Node>)
      requires this in S
      modifies this
      ensures Snapshot(S) == old(Snapshot(S))[this := old(Snapshot(S))[this].(parent := v)]
    {
      parent := v;
    }

    method Paint(red: bool, ghost S: set<Node>)
      requires this in S
      modifies this
      ensures Snapshot(S) == old(Snapshot(S))[this := old(Snapshot(S))[this].(red := red)]
    {
      this.red := red;
    }
  }

  /** struct rb_root. */
  class Root {
    var node: Node?

    constructor ()
      ensures node == null
    {
      node := null;
    }
  }

  datatype Shape = Nil | Fork(left: Shape, node: Node, red: bool, right: Shape)

  datatype Path = Top | In(up: Path, side: Side, node: Node, red: bool, sibling: Shape)

  /** The tree with `near` on side `s` of the node and `far` on the other. */
  ghost function Join(s: Side, near: Shape, n: Node, red: bool, far: Shape): Shape {
    if s.L? then Fork(near, n, red, far) else Fork(far, n, red, near)
  }

  ghost function Plug(c: Path, t: Shape): Shape
    decreases c
  {
    if c.Top? then t else Plug(c.up, Join(c.side, t, c.node, c.red, c.sibling))
  }

  ghost function Nodes(t: Shape): set<Node> {
    match t
    case Nil => {}
    case Fork(l, n, _, r) => Nodes(l) + {n} + Nodes(r)
  }

  ghost function PathNodes(c: Path): set<Node> {
    if c.Top? then {} else PathNodes(c.up) + {c.node} + Nodes(c.sibling)
  }

  ghost function Inorder(t: Shape): seq<Node> {
    match t
    case Nil => []
    case Fork(l, n, _, r) => Inorder(l) + [n] + Inorder(r)
  }

  /** What comes before, and after, the hole in the in-order sequence of the whole tree. */
  ghost function Before(c: Path): seq<Node> {
    if c.Top? then [] else if c.side.L? then Before(c.up) else Before(c.up) + Inorder(c.sibling) + [c.node]
  }

  ghost function After(c: Path): seq<Node> {
    if c.Top? then [] else if c.side.L? then [c.node] + Inorder(c.sibling) + After(c.up) else After(c.up)
  }

  ghost predicate IsRed(t: Shape) {
    t.Fork? && t.red
  }

  /** Number of black nodes on the leftmost branch; on every branch, when RedBlack(t). */
  ghost function Height(t: Shape): nat {
    match t
    case Nil => 0
    case Fork(l, _, red, _) => Height(l) + if red then 0 else 1
  }

  ghost function Depth(c: Path): nat {
    if c.Top? then 0 else Depth(c.up) + 1
  }

  /** No red node has a red child, and all branches pass the same number of black nodes. */
  ghost predicate RedBlack(t: Shape) {
    match t
    case Nil => true
    case Fork(l, _, red, r) =>
      RedBlack(l) && RedBlack(r) && Height(l) == Height(r) && (red ==> !IsRed(l) && !IsRed(r))
  }

  /** A red-black tree of black height `h`, with a red root or a black one, can fill the hole. */
  ghost predicate Fits(c: Path, h: nat, red: bool) {
    match c
    case Top => !red
    case In(up, _, _, nodeRed, sib) =>
      && RedBlack(sib) && Height(sib) == h && (nodeRed ==> !red && !IsRed(sib))
      && Fits(up, h + (if nodeRed then 0 else 1), nodeRed)
  }

  lemma {:induction false} FitsPlugged(c: Path, t: Shape)
    requires RedBlack(t) && Fits(c, Height(t), IsRed(t))
    ensures RedBlack(Plug(c, t)) && !IsRed(Plug(c, t))
    decreases c
  {
    if c.In? {
      FitsPlugged(c.up, Join(c.side, t, c.node, c.red, c.sibling));
    }
  }

  lemma {:induction false} PluggedFits(c: Path, t: Shape)
    requires RedBlack(Plug(c, t)) && !IsRed(Plug(c, t))
    ensures RedBlack(t) && Fits(c, Height(t), IsRed(t))
    decreases c
  {
    if c.In? {
      PluggedFits(c.up, Join(c.side, t, c.node, c.red, c.sibling));
    }
  }

  lemma {:induction false} InorderPlugged(c: Path, t: Shape)
    ensures Inorder(Plug(c, t)) == Before(c) + Inorder(t) + After(c)
    decreases c
  {
    if c.In? {
      InorderPlugged(c.up, Lift(c, t));
      LiftedOrder(c, t);
    }
  }

  // ---------------------------------------------------------------------------------------------
  // Links
  // ---------------------------------------------------------------------------------------------

  datatype Cell = Cell(parent: Node?, left: Node?, right: Node?, red: bool) {
    ghost function Child(s: Side): Node? { if s.L? then left else right }
    ghost function WithChild(s: Side, v: Node?): Cell { if s.L? then this.(left := v) else this.(right := v) }
  }

  type Cells = map<Node, Cell>

  datatype Mem = Mem(cells: Cells, top: Node?)

  ghost function Snapshot(S: set<Node>): Cells
    reads S
  {
    map n | n in S :: Cell(n.parent, n.left, n.right, n.red)
  }

  ghost function View(root: Root, S: set<Node>): Mem
    reads root, S
  {
    Mem(Snapshot(S), root.node)
  }

  ghost predicate Apart(t: Shape) {
    match t
    case Nil => true
    case Fork(l, n, _, r) => Apart(l) && Apart(r) && n !in Nodes(l) && n !in Nodes(r) && Nodes(l) !! Nodes(r)
  }

  ghost predicate ApartPath(c: Path) {
    c.In? ==>
      && ApartPath(c.up) && Apart(c.sibling)
      && c.node !in PathNodes(c.up) && c.node !in Nodes(c.sibling) && Nodes(c.sibling) !! PathNodes(c.up)
  }

  ghost predicate Linked(m: Cells, t: Shape, p: Node?, up: Node?) {
    match t
    case Nil => p == null
    case Fork(l, n, red, r) =>
      && n in m && p == n && m[n].parent == up && m[n].red == red
      && Linked(m, l, m[n].left, n) && Linked(m, r, m[n].right, n)
  }

  ghost function Ptr(t: Shape): Node? {
    if t.Nil? then null else t.node
  }

  ghost function ParentOf(c: Path, over: Node?): Node? {
    if c.Top? then over else c.node
  }

  /** The path `c`, whose hole holds `hole`, hangs below `top`; the parent of its topmost node is `over`. */
  ghost predicate LinkedUp(m: Cells, c: Path, hole: Node?, top: Node?, over: Node?) {
    match c
    case Top => hole == top
    case In(up, s, n, red, sib) =>
      && n in m && m[n].Child(s) == hole && m[n].red == red && m[n].parent == ParentOf(up, over)
      && Linked(m, sib, m[n].Child(s.Flip()), n) && LinkedUp(m, up, n, top, over)
  }

  ghost predicate At(v: Mem, c: Path, t: Shape, p: Node?) {
    && Apart(t) && ApartPath(c) && Nodes(t) !! PathNodes(c)
    && Linked(v.cells, t, p, ParentOf(c, null))
    && LinkedUp(v.cells, c, p, v.top, null)
  }

  ghost predicate Agree(m: Cells, m': Cells, S: set<Node>) {
    forall n :: n in S && n in m ==> n in m' && m'[n] == m[n]
  }

  lemma {:induction false} Frame(m: Cells, m': Cells, t: Shape, p: Node?, up: Node?)
    requires Linked(m, t, p, up) && Agree(m, m', Nodes(t))
    ensures Linked(m', t, p, up)
  {
    if t.Fork? {
      Frame(m, m', t.left, m[t.node].left, t.node);
      Frame(m, m', t.right, m[t.node].right, t.node);
    }
  }

  lemma {:induction false} FrameUp(m: Cells, m': Cells, c: Path, hole: Node?, top: Node?, over: Node?)
    requires LinkedUp(m, c, hole, top, over) && Agree(m, m', PathNodes(c))
    ensures LinkedUp(m', c, hole, top, over)
  {
    if c.In? {
      Frame(m, m', c.sibling, m[c.node].Child(c.side.Flip()), c.node);
      FrameUp(m, m', c.up, c.node, top, over);
    }
  }

  /** A subtree can be hung below another parent by changing the parent of its root alone. */
  lemma {:induction false} Reparent(m: Cells, m': Cells, t: Shape, p: Node?, up: Node?, up': Node?)
    requires Apart(t) && Linked(m, t, p, up)
    requires p != null ==> p in m' && m'[p] == m[p].(parent := up')
    requires Agree(m, m', if p == null then Nodes(t) else Nodes(t) - {p})
    ensures Linked(m', t, p, up')
  {
    if t.Fork? {
      Frame(m, m', t.left, m[t.node].left, t.node);
      Frame(m, m', t.right, m[t.node].right, t.node);
    }
  }

  /** What fills the hole of a path can be exchanged by changing one child pointer alone. */
  lemma {:induction false} Rehole(v: Mem, v': Mem, c: Path, hole: Node?, hole': Node?)
    requires ApartPath(c) && LinkedUp(v.cells, c, hole, v.top, null)
    requires if c.Top? then v'.top == hole' else
               c.node in v'.cells && v'.cells[c.node] == v.cells[c.node].WithChild(c.side, hole') && v'.top == v.top
    requires c.In? ==> Agree(v.cells, v'.cells, PathNodes(c) - {c.node})
    ensures LinkedUp(v'.cells, c, hole', v'.top, null)
  {
    if c.In? {
      Frame(v.cells, v'.cells, c.sibling, v.cells[c.node].Child(c.side.Flip()), c.node);
      FrameUp(v.cells, v'.cells, c.up, c.node, v.top, null);
    }
  }

  /** The tree seen from one level further up. */
  ghost function Lift(c: Path, t: Shape): Shape
    requires c.In?
  {
    Join(c.side, t, c.node, c.red, c.sibling)
  }

  lemma {:induction false} LiftedOrder(c: Path, t: Shape)
    requires c.In?
    ensures Before(c) + Inorder(t) + After(c) == Before(c.up) + Inorder(Lift(c, t)) + After(c.up)
  {
    var b, i, a, n := Before(c.up), Inorder(t), After(c.up), Inorder(c.sibling);
    if c.side.L? {
      assert Inorder(Lift(c, t)) == i + [c.node] + n;
      Reassociated(b, i, [c.node], n, a);
    } else {
      assert Inorder(Lift(c, t)) == n + [c.node] + i;
      Reassociated(b, n, [c.node], i, a);
    }
  }

  lemma Reassociated(b: seq<Node>, x: seq<Node>, y: seq<Node>, z: seq<Node>, a: seq<Node>)
    ensures b + x + (y + z + a) == b + (x + y + z) + a == (b + x + y) + z + a
  {
  }

  lemma {:induction false} Lifted(c: Path, t: Shape)
    requires c.In?
    ensures Before(c) + Inorder(t) + After(c) == Before(c.up) + Inorder(Lift(c, t)) + After(c.up)
    ensures Nodes(t) + PathNodes(c) == Nodes(Lift(c, t)) + PathNodes(c.up)
    ensures Nodes(Lift(c, t)) == Nodes(t) + {c.node} + Nodes(c.sibling)
    ensures Apart(t) && ApartPath(c) && Nodes(t) !! PathNodes(c) <==>
            Apart(Lift(c, t)) && ApartPath(c.up) && Nodes(Lift(c, t)) !! PathNodes(c.up)
  {
    hide Before, After, Inorder;
    LiftedOrder(c, t);
  }

  lemma {:induction false} Up(v: Mem, c: Path, t: Shape, p: Node?)
    requires c.In? && At(v, c, t, p)
    ensures At(v, c.up, Lift(c, t), c.node)
  {
    Lifted(c, t);
  }

  lemma {:induction false} Down(v: Mem, c: Path, t: Shape)
    requires c.In? && At(v, c.up, Lift(c, t), c.node)
    ensures c.node in v.cells && v.cells[c.node].Child(c.side) == Ptr(t) && At(v, c, t, Ptr(t))
  {
    Lifted(c, t);
    LinkedJoin(v.cells, c.side, t, c.node, c.red, c.sibling, c.node, ParentOf(c.up, null));
  }

  // ---------------------------------------------------------------------------------------------
  // Rotations
  // ---------------------------------------------------------------------------------------------

  predicate Known(m: Cells, p: Node?) {
    p != null ==> p in m
  }

  /** What rb_change_child does to the cells. */
  ghost function Switched(v: Mem, was: Node, now: Node?, parent: Node?): Mem
    requires Known(v.cells, now) && Known(v.cells, parent)
  {
    var v1 :=
      if parent == null then v.(top := now)
      else v.(cells := v.cells[parent :=
                if v.cells[parent].left == was then v.cells[parent].(left := now) else v.cells[parent].(right := now)]);
    if now == null then v1 else v1.(cells := v1.cells[now := v1.cells[now].(parent := parent)])
  }

  /** What the rotations do to the cells. */
  ghost predicate CanTurn(v: Mem, s: Side, x: Node) {
    && x in v.cells && Known(v.cells, v.cells[x].parent)
    && var y := v.cells[x].Child(s.Flip());
       y != null && y in v.cells && Known(v.cells, v.cells[y].Child(s))
  }

  ghost function Turned(v: Mem, s: Side, x: Node): Mem
    requires CanTurn(v, s, x)
  {
    var y: Node := v.cells[x].Child(s.Flip());
    var q := v.cells[y].Child(s);
    var m1 := v.cells[x := v.cells[x].WithChild(s.Flip(), q)];
    var m2 := if q == null then m1 else m1[q := m1[q].(parent := x)];
    var v3 := Switched(v.(cells := m2), x, y, m2[x].parent);
    var m4 := v3.cells[y := v3.cells[y].WithChild(s, x)];
    v3.(cells := m4[x := m4[x].(parent := y)])
  }

  method ChangeChild(was: Node, now: Node?, parent: Node?, root: Root, ghost S: set<Node>)
    requires was in S && Known(Snapshot(S), now) && Known(Snapshot(S), parent)
    modifies root, S
    ensures View(root, S) == Switched(old(View(root, S)), was, now, parent)
  {
    if parent == null {
      root.node := now;
    } else if parent.left == was {
      parent.SetChild(L, now, S);
    } else {
      parent.SetChild(R, now, S);
    }
    if now != null {
      now.SetParent(parent, S);
    }
  }

  /** rb_rotate_left (s is L) and rb_rotate_right (s is R): x goes down on side s, its other child takes its place. */
  method Rotate(s: Side, x: Node, root: Root, ghost S: set<Node>)
    requires CanTurn(View(root, S), s, x)
    modifies root, S
    ensures View(root, S) == Turned(old(View(root, S)), s, x)
  {
    hide Switched;
    var next := x.Child(s.Flip());
    x.SetChild(s.Flip(), next.Child(s), S);
    var inner := x.Child(s.Flip());
    if inner != null {
      inner.SetParent(x, S);
    }
    ChangeChild(x, next, x.parent, root, S);
    next.SetChild(s, x, S);
    x.SetParent(next, S);
  }

  lemma {:induction false} ApartJoin(s: Side, a: Shape, x: Node, red: bool, b: Shape)
    ensures Nodes(Join(s, a, x, red, b)) == Nodes(a) + {x} + Nodes(b)
    ensures Apart(Join(s, a, x, red, b)) <==>
            Apart(a) && Apart(b) && x !in Nodes(a) && x !in Nodes(b) && Nodes(a) !! Nodes(b)
  {
  }

  lemma {:induction false} LinkedJoin(m: Cells, s: Side, a: Shape, x: Node, red: bool, b: Shape, p: Node?, up: Node?)
    ensures Linked(m, Join(s, a, x, red, b), p, up) <==>
            && p == x && x in m && m[x].parent == up && m[x].red == red
            && Linked(m, a, m[x].Child(s), x) && Linked(m, b, m[x].Child(s.Flip()), x)
  {
  }

  /** A rotation keeps the nodes, their order and their distinctness. */
  lemma {:induction false} RotationOrder(s: Side, a: Shape, x: Node, xr: bool, b: Shape, y: Node, yr: bool, d: Shape)
    ensures Inorder(Join(s, a, x, xr, Join(s, b, y, yr, d))) == Inorder(Join(s, Join(s, a, x, xr, b), y, yr, d))
  {
    var i, j, k := Inorder(a), Inorder(b), Inorder(d);
    if s.L? {
      assert i + [x] + (j + [y] + k) == i + [x] + j + [y] + k;
    } else {
      assert k + [y] + (j + [x] + i) == k + [y] + j + [x] + i;
    }
  }

  lemma {:induction false} RotationApart(s: Side, a: Shape, x: Node, xr: bool, b: Shape, y: Node, yr: bool, d: Shape)
    requires Apart(Join(s, a, x, xr, Join(s, b, y, yr, d)))
    ensures Apart(Join(s, Join(s, a, x, xr, b), y, yr, d))
    ensures Apart(b) && x != y && x !in Nodes(a) && x !in Nodes(b) && x !in Nodes(d)
    ensures y !in Nodes(a) && y !in Nodes(b) && y !in Nodes(d)
    ensures Nodes(a) !! Nodes(b) && Nodes(a) !! Nodes(d) && Nodes(b) !! Nodes(d)
  {
    ApartJoin(s, b, y, yr, d);
    ApartJoin(s, a, x, xr, Join(s, b, y, yr, d));
    ApartJoin(s, a, x, xr, b);
    ApartJoin(s, Join(s, a, x, xr, b), y, yr, d);
  }

  lemma {:induction false} RotationNodes(s: Side, a: Shape, x: Node, xr: bool, b: Shape, y: Node, yr: bool, d: Shape)
    ensures Nodes(Join(s, a, x, xr, Join(s, b, y, yr, d))) == Nodes(a) + {x} + Nodes(b) + {y} + Nodes(d)
    ensures Nodes(Join(s, Join(s, a, x, xr, b), y, yr, d)) == Nodes(a) + {x} + Nodes(b) + {y} + Nodes(d)
  {
    ApartJoin(s, b, y, yr, d);
    ApartJoin(s, a, x, xr, Join(s, b, y, yr, d));
    ApartJoin(s, a, x, xr, b);
    ApartJoin(s, Join(s, a, x, xr, b), y, yr, d);
  }

  /** `w` is `v` with x, y, the inner subtree's root q and x's parent rewired as a rotation does. */
  ghost predicate Rewired(v: Mem, w: Mem, s: Side, x: Node, y: Node, q: Node?, par: Node?)
    requires x in v.cells && y in v.cells && Known(v.cells, q) && Known(v.cells, par)
  {
    && w.cells.Keys == v.cells.Keys
    && w.cells[x] == v.cells[x].WithChild(s.Flip(), q).(parent := y)
    && w.cells[y] == v.cells[y].WithChild(s, x).(parent := par)
    && (q != null ==> w.cells[q] == v.cells[q].(parent := x))
    && (par == null ==> w.top == y)
    && (par != null ==>
          && w.top == v.top
          && w.cells[par] == if v.cells[par].left == x then v.cells[par].(left := y) else v.cells[par].(right := y))
    && (forall n :: n in v.cells && n != x && n != y && n != q && n != par ==> w.cells[n] == v.cells[n])
  }

  lemma TurnedCells(v: Mem, s: Side, x: Node, y: Node, q: Node?, par: Node?)
    requires CanTurn(v, s, x) && y == v.cells[x].Child(s.Flip()) && q == v.cells[y].Child(s) && par == v.cells[x].parent
    requires x != y && q != x && q != y && par != x && par != y && (q == null || q != par)
    ensures Rewired(v, Turned(v, s, x), s, x, y, q, par)
  {
  }

  lemma RewiredAgree(v: Mem, w: Mem, s: Side, x: Node, y: Node, q: Node?, par: Node?, S: set<Node>)
    requires x in v.cells && y in v.cells && Known(v.cells, q) && Known(v.cells, par)
    requires Rewired(v, w, s, x, y, q, par)
    requires x !in S && y !in S && (q == null || q !in S) && (par == null || par !in S)
    ensures Agree(v.cells, w.cells, S)
  {
  }

  lemma {:induction false} TurnPlaces(v: Mem, s: Side, x: Node, c: Path,
      a: Shape, xr: bool, b: Shape, y: Node, yr: bool, d: Shape)
    requires At(v, c, Join(s, a, x, xr, Join(s, b, y, yr, d)), x)
    ensures CanTurn(v, s, x)
    ensures y == v.cells[x].Child(s.Flip()) && v.cells[x].parent == ParentOf(c, null)
    ensures var q := v.cells[y].Child(s);
            x != y && q != x && q != y
            && (q != null ==> q in Nodes(b) && q !in Nodes(a) && q !in Nodes(d) && q !in PathNodes(c))
    ensures Nodes(a) !! PathNodes(c) && Nodes(b) !! PathNodes(c) && Nodes(d) !! PathNodes(c)
    ensures x !in PathNodes(c) && y !in PathNodes(c)
  {
    RotationNodes(s, a, x, xr, b, y, yr, d);
    RotationApart(s, a, x, xr, b, y, yr, d);
    LinkedJoin(v.cells, s, a, x, xr, Join(s, b, y, yr, d), x, ParentOf(c, null));
    LinkedJoin(v.cells, s, b, y, yr, d, y, x);
  }

  /** What a rotation touches, and that it is five different places. */
  lemma {:induction false} TurnReady(v: Mem, s: Side, x: Node, c: Path,
      a: Shape, xr: bool, b: Shape, y: Node, yr: bool, d: Shape)
    requires At(v, c, Join(s, a, x, xr, Join(s, b, y, yr, d)), x)
    ensures CanTurn(v, s, x)
    ensures y == v.cells[x].Child(s.Flip()) && v.cells[x].parent == ParentOf(c, null)
    ensures var q, par := v.cells[y].Child(s), ParentOf(c, null);
            && x != y && q != x && q != y && par != x && par != y && (q == null || q != par)
            && Rewired(v, Turned(v, s, x), s, x, y, q, par)
            && (q != null ==> q in Nodes(b) && q !in Nodes(a) && q !in Nodes(d) && q !in PathNodes(c))
            && (par != null ==> par !in Nodes(a) && par !in Nodes(b) && par !in Nodes(d))
    ensures Nodes(a) !! PathNodes(c) && x !in PathNodes(c) && y !in PathNodes(c)
  {
    hide Linked, LinkedUp, Apart, ApartPath, Nodes, Turned, Rewired;
    TurnPlaces(v, s, x, c, a, xr, b, y, yr, d);
    assert c.In? ==> c.node in PathNodes(c);
    TurnedCells(v, s, x, y, v.cells[y].Child(s), ParentOf(c, null));
  }

  lemma {:induction false} TurnParts(m: Cells, w: Cells, s: Side, x: Node,
                                     a: Shape, xr: bool, b: Shape, y: Node, yr: bool, d: Shape, q: Node?, up: Node?)
    requires Linked(m, Join(s, a, x, xr, Join(s, b, y, yr, d)), x, up) && Apart(b)
    requires x in m && y in m && x in w && y in w && q == m[y].Child(s)
    requires w[x] == m[x].WithChild(s.Flip(), q).(parent := y) && w[y] == m[y].WithChild(s, x).(parent := up)
    requires q != null ==> q in m && q in w && w[q] == m[q].(parent := x)
    requires Agree(m, w, Nodes(a)) && Agree(m, w, Nodes(d))
    requires Agree(m, w, if q == null then Nodes(b) else Nodes(b) - {q})
    ensures Linked(w, Join(s, Join(s, a, x, xr, b), y, yr, d), y, up)
  {
    LinkedJoin(m, s, a, x, xr, Join(s, b, y, yr, d), x, up);
    LinkedJoin(m, s, b, y, yr, d, y, x);
    Frame(m, w, a, m[x].Child(s), x);
    Frame(m, w, d, m[y].Child(s.Flip()), y);
    Reparent(m, w, b, q, y, x);
    LinkedJoin(w, s, a, x, xr, b, x, y);
    LinkedJoin(w, s, Join(s, a, x, xr, b), y, yr, d, y, up);
  }

  lemma {:induction false} TurnLinked(v: Mem, s: Side, x: Node, c: Path,
      a: Shape, xr: bool, b: Shape, y: Node, yr: bool, d: Shape)
    requires At(v, c, Join(s, a, x, xr, Join(s, b, y, yr, d)), x)
    ensures CanTurn(v, s, x)
    ensures Linked(Turned(v, s, x).cells, Join(s, Join(s, a, x, xr, b), y, yr, d), y, ParentOf(c, null))
  {
    TurnReady(v, s, x, c, a, xr, b, y, yr, d);
    RotationApart(s, a, x, xr, b, y, yr, d);
    var q, par, w := v.cells[y].Child(s), ParentOf(c, null), Turned(v, s, x);
    RewiredAgree(v, w, s, x, y, q, par, Nodes(a));
    RewiredAgree(v, w, s, x, y, q, par, Nodes(d));
    RewiredAgree(v, w, s, x, y, q, par, if q == null then Nodes(b) else Nodes(b) - {q});
    TurnParts(v.cells, w.cells, s, x, a, xr, b, y, yr, d, q, par);
  }

  lemma {:induction false} TurnUp(v: Mem, s: Side, x: Node, c: Path,
      a: Shape, xr: bool, b: Shape, y: Node, yr: bool, d: Shape)
    requires At(v, c, Join(s, a, x, xr, Join(s, b, y, yr, d)), x)
    ensures CanTurn(v, s, x)
    ensures LinkedUp(Turned(v, s, x).cells, c, y, Turned(v, s, x).top, null)
  {
    TurnReady(v, s, x, c, a, xr, b, y, yr, d);
    Rehole(v, Turned(v, s, x), c, x, y);
  }

  /** On the linked cells, a rotation at the focus re-associates the focused tree and nothing else. */
  lemma {:induction false} Turn(v: Mem, s: Side, x: Node, c: Path,
      a: Shape, xr: bool, b: Shape, y: Node, yr: bool, d: Shape)
    requires At(v, c, Join(s, a, x, xr, Join(s, b, y, yr, d)), x)
    ensures CanTurn(v, s, x)
    ensures At(Turned(v, s, x), c, Join(s, Join(s, a, x, xr, b), y, yr, d), y)
  {
    TurnLinked(v, s, x, c, a, xr, b, y, yr, d);
    TurnUp(v, s, x, c, a, xr, b, y, yr, d);
    RotationApart(s, a, x, xr, b, y, yr, d);
    RotationNodes(s, a, x, xr, b, y, yr, d);
  }

  // ---------------------------------------------------------------------------------------------
  // Colours
  // ---------------------------------------------------------------------------------------------

  ghost function Painted(v: Mem, n: Node, red: bool): Mem
    requires n in v.cells
  {
    v.(cells := v.cells[n := v.cells[n].(red := red)])
  }

  lemma {:induction false} PaintHere(v: Mem, c: Path, t: Shape, red: bool)
    requires t.Fork? && At(v, c, t, t.node)
    ensures t.node in v.cells && At(Painted(v, t.node, red), c, t.(red := red), t.node)
  {
    var n, w := t.node, Painted(v, t.node, red);
    assert n in Nodes(t);
    Frame(v.cells, w.cells, t.left, v.cells[n].left, n);
    Frame(v.cells, w.cells, t.right, v.cells[n].right, n);
    FrameUp(v.cells, w.cells, c, n, v.top, null);
  }

  lemma {:induction false} Across(v: Mem, c: Path, t: Shape, p: Node?)
    requires c.In? && At(v, c, t, p)
    ensures c.node in v.cells
    ensures At(v, In(c.up, c.side.Flip(), c.node, c.red, t), c.sibling, Ptr(c.sibling))
  {
    Up(v, c, t, p);
    Down(v, In(c.up, c.side.Flip(), c.node, c.red, t), c.sibling);
  }

  lemma {:induction false} PaintAbove(v: Mem, c: Path, t: Shape, p: Node?, red: bool)
    requires c.In? && At(v, c, t, p)
    ensures c.node in v.cells
    ensures At(Painted(v, c.node, red), c.(red := red), t, p)
  {
    Up(v, c, t, p);
    PaintHere(v, c.up, Lift(c, t), red);
    Down(Painted(v, c.node, red), c.(red := red), t);
  }

  lemma {:induction false} PaintAcross(v: Mem, c: Path, t: Shape, p: Node?, red: bool)
    requires c.In? && c.sibling.Fork? && At(v, c, t, p)
    ensures c.sibling.node in v.cells
    ensures At(Painted(v, c.sibling.node, red), c.(sibling := c.sibling.(red := red)), t, p)
  {
    Across(v, c, t, p);
    var c' := In(c.up, c.side.Flip(), c.node, c.red, t);
    PaintHere(v, c', c.sibling, red);
    Across(Painted(v, c.sibling.node, red), c', c.sibling.(red := red), c.sibling.node);
  }

  // ---------------------------------------------------------------------------------------------
  // Insertion
  // ---------------------------------------------------------------------------------------------

  ghost function Whole(c: Path, t: Shape): seq<Node> {
    Before(c) + Inorder(t) + After(c)
  }

  /** The loop invariant of rb_insert_color: the focused tree has a red root, and a black one would fit. */
  ghost predicate Inserting(v: Mem, S: set<Node>, c: Path, t: Shape, p: Node) {
    && v.cells.Keys == S == Nodes(t) + PathNodes(c)
    && At(v, c, t, p) && IsRed(t) && RedBlack(t) && Fits(c, Height(t), false)
  }

  lemma {:induction false} RedBlackJoin(s: Side, a: Shape, n: Node, red: bool, b: Shape)
    requires RedBlack(a) && RedBlack(b) && Height(a) == Height(b) && (red ==> !IsRed(a) && !IsRed(b))
    ensures RedBlack(Join(s, a, n, red, b))
    ensures Height(Join(s, a, n, red, b)) == Height(a) + if red then 0 else 1
    ensures IsRed(Join(s, a, n, red, b)) == red
  {
  }

  lemma {:induction false} ParentKnown(v: Mem, S: set<Node>, c: Path, t: Shape, p: Node)
    requires Inserting(v, S, c, t, p)
    ensures p in S && v.cells[p].parent == ParentOf(c, null)
    ensures c.In? ==> c.node in S && v.cells[c.node].red == c.red
  {
    assert p in Nodes(t);
  }

  /** Below a red parent there is a black grandparent. */
  lemma {:induction false} GrandParent(v: Mem, S: set<Node>, c: Path, t: Shape, p: Node)
    requires Inserting(v, S, c, t, p)
    requires var par := v.cells[p].parent; par != null && par in S && v.cells[par].red
    ensures c.In? && c.red && c.node == v.cells[p].parent && !IsRed(c.sibling)
    ensures c.up.In? && !c.up.red && v.cells[c.node].parent == c.up.node && c.up.node in S
    ensures RedBlack(c.sibling) && RedBlack(c.up.sibling)
    ensures Height(c.sibling) == Height(t) == Height(c.up.sibling) && Fits(c.up.up, Height(t) + 1, false)
  {
    assert Fits(c.up, Height(t), true);
    assert LinkedUp(v.cells, c.up, c.node, v.top, null);
  }

  /** Which child each of the two is, and what hangs on the other side. */
  lemma {:induction false} Sides(v: Mem, c: Path, t: Shape, p: Node)
    requires At(v, c, t, p) && c.In?
    ensures c.node in v.cells && v.cells[c.node].Child(c.side) == p && v.cells[c.node].Child(c.side.Flip()) != p
    ensures Linked(v.cells, c.sibling, v.cells[c.node].Child(c.side.Flip()), c.node)
  {
    assert p in Nodes(t);
  }

  /** Uncle red: the grandparent becomes the new red node. */
  ghost function Recolored(v: Mem, c: Path): Mem
    requires c.In? && c.up.In? && c.up.sibling.Fork?
    requires c.node in v.cells && c.up.node in v.cells && c.up.sibling.node in v.cells
  {
    Painted(Painted(Painted(v, c.node, false), c.up.sibling.node, false), c.up.node, true)
  }

  ghost function RecoloredShape(c: Path, t: Shape): Shape
    requires c.In? && c.up.In? && c.up.sibling.Fork?
  {
    Join(c.up.side, Join(c.side, t, c.node, false, c.sibling), c.up.node, true, c.up.sibling.(red := false))
  }

  lemma {:induction false} RecolorLinks(v: Mem, c: Path, t: Shape, p: Node)
    requires At(v, c, t, p) && c.In? && c.up.In? && c.up.sibling.Fork?
    ensures c.node in v.cells && c.up.node in v.cells && c.up.sibling.node in v.cells
    ensures At(Recolored(v, c), c.up.up, RecoloredShape(c, t), c.up.node)
  {
    var parent, grand, uncle := c.node, c.up.node, c.up.sibling.node;
    PaintAbove(v, c, t, p, false);
    var v1, c1 := Painted(v, parent, false), c.(red := false);
    Up(v1, c1, t, p);
    var t2 := Lift(c1, t);
    PaintAcross(v1, c.up, t2, parent, false);
    var v2, c2 := Painted(v1, uncle, false), c.up.(sibling := c.up.sibling.(red := false));
    PaintAbove(v2, c2, t2, parent, true);
    Up(Painted(v2, grand, true), c2.(red := true), t2, parent);
  }

  lemma {:induction false} RecolorOrder(c: Path, t: Shape)
    requires c.In? && c.up.In? && c.up.sibling.Fork?
    ensures Whole(c.up.up, RecoloredShape(c, t)) == Whole(c, t)
    ensures Nodes(RecoloredShape(c, t)) + PathNodes(c.up.up) == Nodes(t) + PathNodes(c)
  {
    var c1 := c.(red := false);
    var t2, c2 := Lift(c1, t), c.up.(sibling := c.up.sibling.(red := false), red := true);
    Lifted(c1, t);
    Lifted(c2, t2);
    assert Whole(c, t) == Whole(c1, t) && PathNodes(c) == PathNodes(c1);
    assert Whole(c.up, t2) == Whole(c2, t2) && PathNodes(c.up) == PathNodes(c2);
  }

  lemma {:induction false} RecolorStep(v: Mem, S: set<Node>, c: Path, t: Shape, p: Node)
    requires Inserting(v, S, c, t, p)
    requires var par := v.cells[p].parent; par != null && par in S && v.cells[par].red
    requires c.In? && c.up.In? && IsRed(c.up.sibling)
    ensures c.node in S && c.up.node in S && c.up.sibling.node in S
    ensures Inserting(Recolored(v, c), S, c.up.up, RecoloredShape(c, t), c.up.node)
    ensures Whole(c.up.up, RecoloredShape(c, t)) == Whole(c, t)
  {
    GrandParent(v, S, c, t, p);
    RecolorLinks(v, c, t, p);
    RecolorOrder(c, t);
    RedBlackJoin(c.side, t, c.node, false, c.sibling);
    RedBlackJoin(c.up.side, Join(c.side, t, c.node, false, c.sibling), c.up.node, true, c.up.sibling.(red := false));
  }

  ghost function Kid(t: Shape, s: Side): Shape
    requires t.Fork?
  {
    if s.L? then t.left else t.right
  }

  lemma {:induction false} InnerLinks(v: Mem, c: Path, t: Shape) returns (c': Path, t': Shape)
    requires IsRed(t) && At(v, c, t, t.node) && c.In? && c.red && c.up.In? && c.side == c.up.side.Flip()
    ensures CanTurn(v, c.up.side, c.node)
    ensures c' == In(c.up, c.up.side, t.node, true, Kid(t, c.up.side.Flip()))
    ensures t' == Join(c.up.side, c.sibling, c.node, true, Kid(t, c.up.side))
    ensures At(Turned(v, c.up.side, c.node), c', t', c.node)
  {
    var g, a, x, b, d := c.up.side, c.sibling, c.node, Kid(t, c.up.side), Kid(t, c.up.side.Flip());
    Up(v, c, t, t.node);
    assert Lift(c, t) == Join(g, a, x, true, Join(g, b, t.node, true, d));
    Turn(v, g, x, c.up, a, true, b, t.node, true, d);
    c', t' := In(c.up, g, t.node, true, d), Join(g, a, x, true, b);
    Down(Turned(v, g, x), c', t');
  }

  lemma {:induction false} InnerOrder(c: Path, t: Shape, p: Node, c': Path, t': Shape)
    requires IsRed(t) && t.node == p && c.In? && c.red && c.up.In? && c.side == c.up.side.Flip()
    requires c' == In(c.up, c.up.side, p, true, Kid(t, c.up.side.Flip()))
    requires t' == Join(c.up.side, c.sibling, c.node, true, Kid(t, c.up.side))
    ensures Whole(c', t') == Whole(c, t) && Nodes(t') + PathNodes(c') == Nodes(t) + PathNodes(c)
  {
    var g, a, x, b, d := c.up.side, c.sibling, c.node, Kid(t, c.up.side), Kid(t, c.up.side.Flip());
    Lifted(c, t);
    Lifted(c', t');
    RotationOrder(g, a, x, true, b, p, true, d);
    RotationNodes(g, a, x, true, b, p, true, d);
    assert Lift(c, t) == Join(g, a, x, true, Join(g, b, p, true, d));
  }

  /** Inner grandchild: after rotating the parent down, the parent is the new red node, on the outside. */
  lemma {:induction false} InnerStep(v: Mem, S: set<Node>, c: Path, t: Shape, p: Node)
    returns (c': Path, t': Shape)
    requires Inserting(v, S, c, t, p)
    requires var par := v.cells[p].parent; par != null && par in S && v.cells[par].red
    requires c.In? && c.up.In? && c.side == c.up.side.Flip()
    ensures CanTurn(v, c.up.side, c.node)
    ensures c'.In? && c'.up == c.up && c'.side == c.up.side && c'.node == p && c'.red
    ensures Inserting(Turned(v, c.up.side, c.node), S, c', t', c.node)
    ensures Whole(c', t') == Whole(c, t)
  {
    GrandParent(v, S, c, t, p);
    c', t' := InnerLinks(v, c, t);
    InnerOrder(c, t, p, c', t');
    RedBlackJoin(c.up.side, c.sibling, c.node, true, Kid(t, c.up.side));
    TurnedKeys(v, c.up.side, c.node);
  }

  lemma TurnedKeys(v: Mem, s: Side, x: Node)
    requires CanTurn(v, s, x)
    ensures Turned(v, s, x).cells.Keys == v.cells.Keys
  {
  }

  /** What the two colour changes and the second rotation do to the cells. */
  ghost function Raised(v: Mem, parent: Node, grand: Node): Mem
    requires parent in v.cells && grand in v.cells
  {
    Painted(Painted(v, parent, false), grand, true)
  }

  lemma {:induction false} OuterLinks(v: Mem, c: Path, t: Shape, p: Node) returns (c': Path)
    requires At(v, c, t, p) && c.In? && c.up.In? && c.side == c.up.side
    ensures c.node in v.cells && c.up.node in v.cells
    ensures CanTurn(Raised(v, c.node, c.up.node), c.side.Flip(), c.up.node)
    ensures c' == In(c.up.up, c.side, c.node, false, Join(c.side.Flip(), c.up.sibling, c.up.node, true, c.sibling))
    ensures At(Turned(Raised(v, c.node, c.up.node), c.side.Flip(), c.up.node), c', t, p)
  {
    var g, parent, grand := c.side, c.node, c.up.node;
    var s, a, b := g.Flip(), c.up.sibling, c.sibling;
    PaintAbove(v, c, t, p, false);
    var v1, c1 := Painted(v, parent, false), c.(red := false);
    Up(v1, c1, t, p);
    PaintAbove(v1, c.up, Lift(c1, t), parent, true);
    var v2, c2 := Painted(v1, grand, true), c.up.(red := true);
    Up(v2, c2, Lift(c1, t), parent);
    assert Lift(c2, Lift(c1, t)) == Join(s, a, grand, true, Join(s, b, parent, false, t));
    Turn(v2, s, grand, c.up.up, a, true, b, parent, false, t);
    c' := In(c.up.up, g, parent, false, Join(s, a, grand, true, b));
    assert Lift(c', t) == Join(s, Join(s, a, grand, true, b), parent, false, t);
    Down(Turned(v2, s, grand), c', t);
  }

  lemma {:induction false} OuterOrder(c: Path, t: Shape, c': Path)
    requires c.In? && c.up.In? && c.side == c.up.side
    requires c' == In(c.up.up, c.side, c.node, false, Join(c.side.Flip(), c.up.sibling, c.up.node, true, c.sibling))
    ensures Whole(c', t) == Whole(c, t) && Nodes(t) + PathNodes(c') == Nodes(t) + PathNodes(c)
  {
    var s, a, b := c.side.Flip(), c.up.sibling, c.sibling;
    Lifted(c, t);
    Lifted(c.up, Lift(c, t));
    Lifted(c', t);
    var xr, yr := c.up.red, c.red;
    assert Lift(c.up, Lift(c, t)) == Join(s, a, c.up.node, xr, Join(s, b, c.node, yr, t));
    RotationOrder(s, a, c.up.node, true, b, c.node, false, t);
    RotationNodes(s, a, c.up.node, true, b, c.node, false, t);
    RotationNodes(s, a, c.up.node, xr, b, c.node, yr, t);
  }

  /** Outer grandchild: one rotation, and the new red node has a black parent. */
  lemma {:induction false} OuterStep(v: Mem, S: set<Node>, c: Path, t: Shape, p: Node) returns (c': Path)
    requires Inserting(v, S, c, t, p)
    requires var par := v.cells[p].parent; par != null && par in S && v.cells[par].red
    requires c.In? && c.up.In? && c.side == c.up.side && !IsRed(c.up.sibling)
    ensures c.node in S && c.up.node in S
    ensures CanTurn(Raised(v, c.node, c.up.node), c.side.Flip(), c.up.node)
    ensures c'.In? && !c'.red && c'.up == c.up.up
    ensures Inserting(Turned(Raised(v, c.node, c.up.node), c.side.Flip(), c.up.node), S, c', t, p)
    ensures Whole(c', t) == Whole(c, t)
  {
    hide Linked, LinkedUp, Apart, ApartPath, Inorder, Before, After, Turned;
    GrandParent(v, S, c, t, p);
    c' := OuterLinks(v, c, t, p);
    OuterOrder(c, t, c');
    TurnedKeys(Raised(v, c.node, c.up.node), c.side.Flip(), c.up.node);
    RedBlackJoin(c.side.Flip(), c.up.sibling, c.up.node, true, c.sibling);
  }

  lemma {:induction false} ToTop(v: Mem, c: Path, t: Shape, p: Node?)
    requires At(v, c, t, p)
    ensures At(v, Top, Plug(c, t), v.top)
    decreases c
  {
    if c.In? {
      Up(v, c, t, p);
      ToTop(v, c.up, Lift(c, t), c.node);
    }
  }

  /** Blackening the root ends either fix-up loop. */
  lemma {:induction false} BlackRoot(v: Mem, c: Path, t: Shape, p: Node?) returns (whole: Shape)
    requires At(v, c, t, p) && RedBlack(t) && (c.In? ==> Fits(c, Height(t), IsRed(t))) && Plug(c, t).Fork?
    ensures v.top != null && v.top in v.cells
    ensures At(Painted(v, v.top, false), Top, whole, v.top)
    ensures RedBlack(whole) && !IsRed(whole) && Inorder(whole) == Whole(c, t)
  {
    ToTop(v, c, t, p);
    InorderPlugged(c, t);
    PaintHere(v, Top, Plug(c, t), false);
    whole := Plug(c, t).(red := false);
    if c.In? {
      FitsPlugged(c, t);
    }
  }

  lemma {:induction false} InsertStart(v: Mem, S: set<Node>, hole: Path, node: Node)
    requires v.cells.Keys == S == PathNodes(hole) + {node}
    requires At(v, hole, Fork(Nil, node, true, Nil), node) && Fits(hole, 0, false)
    ensures Inserting(v, S, hole, Fork(Nil, node, true, Nil), node)
    ensures Inorder(Fork(Nil, node, true, Nil)) == [node]
  {
  }

  lemma {:induction false} InsertEnd(v: Mem, S: set<Node>, c: Path, t: Shape, p: Node) returns (whole: Shape)
    requires Inserting(v, S, c, t, p) && (c.In? ==> c.node in S && !v.cells[c.node].red)
    ensures v.top != null && v.top in S
    ensures At(Painted(v, v.top, false), Top, whole, v.top)
    ensures RedBlack(whole) && !IsRed(whole) && Inorder(whole) == Whole(c, t)
  {
    PlugFork(c, t);
    whole := BlackRoot(v, c, t, p);
  }

  lemma {:induction false} PlugFork(c: Path, t: Shape)
    requires t.Fork?
    ensures Plug(c, t).Fork?
    decreases c
  {
    if c.In? {
      PlugFork(c.up, Lift(c, t));
    }
  }

  method InsertRecolor(n: Node, parent: Node, grand: Node, uncle: Node, root: Root,
                       ghost S: set<Node>, ghost c: Path, ghost t: Shape) returns (ghost t': Shape)
    requires Inserting(View(root, S), S, c, t, n) && n.parent == parent && parent in S && parent.red
    requires c.In? && c.node == parent && c.up.In? && c.up.node == grand
    requires IsRed(c.up.sibling) && c.up.sibling.node == uncle
    modifies S
    ensures Inserting(View(root, S), S, c.up.up, t', grand)
    ensures Whole(c.up.up, t') == Whole(c, t)
  {
    hide Linked, LinkedUp, Apart, ApartPath, RedBlack, Fits, Nodes, PathNodes, Inorder, Before, After, Height, Turned,
      CanTurn;
    RecolorStep(View(root, S), S, c, t, n);
    t' := RecoloredShape(c, t);
    parent.Paint(false, S);
    uncle.Paint(false, S);
    grand.Paint(true, S);
  }

  method InsertInner(g: Side, n: Node, root: Root, ghost S: set<Node>, ghost c: Path, ghost t: Shape)
    returns (n': Node, ghost c': Path, ghost t': Shape)
    requires Inserting(View(root, S), S, c, t, n) && n.parent != null && n.parent in S && n.parent.red
    requires c.In? && c.up.In? && c.up.side == g && !IsRed(c.up.sibling)
    modifies root, S
    ensures Inserting(View(root, S), S, c', t', n') && n'.parent != null && n'.parent in S && n'.parent.red
    ensures c'.In? && c'.up == c.up && c'.side == g && Whole(c', t') == Whole(c, t)
  {
    hide Linked, LinkedUp, Apart, ApartPath, RedBlack, Fits, Nodes, PathNodes, Inorder, Before, After, Height, Turned,
      CanTurn;
    GrandParent(View(root, S), S, c, t, n);
    Sides(View(root, S), c, t, n);
    n', c', t' := n, c, t;
    if n == n.parent.Child(g.Flip()) {
      c', t' := InnerStep(View(root, S), S, c, t, n);
      n' := n.parent;
      Rotate(g, n', root, S);
      ParentKnown(View(root, S), S, c', t', n');
    }
  }

  method InsertOuter(g: Side, n: Node, grand: Node, root: Root, ghost S: set<Node>, ghost c: Path, ghost t: Shape)
    returns (ghost c': Path)
    requires Inserting(View(root, S), S, c, t, n) && n.parent != null && n.parent in S && n.parent.red
    requires c.In? && c.up.In? && c.up.side == g && !IsRed(c.up.sibling)
    requires c.side == g && c.up.node == grand
    modifies root, S
    ensures Inserting(View(root, S), S, c', t, n)
    ensures c'.In? && c'.up == c.up.up && Whole(c', t) == Whole(c, t)
  {
    hide Linked, LinkedUp, Apart, ApartPath, RedBlack, Fits, Nodes, PathNodes, Inorder, Before, After, Height, Turned,
      CanTurn;
    var parent := n.parent;
    GrandParent(View(root, S), S, c, t, n);
    c' := OuterStep(View(root, S), S, c, t, n);
    parent.Paint(false, S);
    grand.Paint(true, S);
    Rotate(g.Flip(), grand, root, S);
  }

  /** rb_insert_color, on a node just linked in as a red leaf where a tree used to have nothing. */
  method InsertColor(node: Node, root: Root, ghost S: set<Node>, ghost hole: Path) returns (ghost t: Shape)
    requires S == PathNodes(hole) + {node}
    requires At(View(root, S), hole, Fork(Nil, node, true, Nil), node) && Fits(hole, 0, false)
    modifies root, S
    ensures At(View(root, S), Top, t, root.node)
    ensures RedBlack(t) && !IsRed(t)
    ensures Inorder(t) == Before(hole) + [node] + After(hole)
  {
    hide Linked, LinkedUp, Apart, ApartPath, RedBlack, Fits, Nodes, PathNodes, Inorder, Before, After, Height, Turned,
      CanTurn;
    InsertStart(View(root, S), S, hole, node);
    ghost var c, f := hole, Fork(Nil, node, true, Nil);
    var n: Node := node;
    while n.parent != null && n.parent.red
      invariant Inserting(View(root, S), S, c, f, n)
      invariant Whole(c, f) == Whole(hole, Fork(Nil, node, true, Nil))
      decreases Depth(c)
    {
      ghost var v := View(root, S);
      ParentKnown(v, S, c, f, n);
      var parent: Node := n.parent;
      GrandParent(v, S, c, f, n);
      assert Depth(c) == Depth(c.up.up) + 2;
      Up(v, c, f, n);
      Sides(v, c.up, Lift(c, f), parent);
      var grand: Node := parent.parent;
      var g := if parent == grand.left then L else R;
      var uncle := grand.Child(g.Flip());
      if uncle != null && uncle.red {
        f := InsertRecolor(n, parent, grand, uncle, root, S, c, f);
        n, c := grand, c.up.up;
      } else {
        n, c, f := InsertInner(g, n, root, S, c, f);
        c := InsertOuter(g, n, grand, root, S, c, f);
      }
    }
    ParentKnown(View(root, S), S, c, f, n);
    t := InsertEnd(View(root, S), S, c, f, n);
    root.node.Paint(false, S);
  }

  // ---------------------------------------------------------------------------------------------
  // Removal
  // ---------------------------------------------------------------------------------------------

  ghost function Black(t: Shape): Shape {
    if t.Nil? then t else t.(red := false)
  }

  /** The loop invariant of rb_erase_fixup: painted black, the focused tree is sound, but it is one black node short. */
  ghost predicate Short(v: Mem, S: set<Node>, c: Path, t: Shape, p: Node?) {
    && v.cells.Keys == S && Nodes(t) + PathNodes(c) <= S
    && At(v, c, t, p) && RedBlack(Black(t)) && Fits(c, Height(t) + 1, false)
  }

  lemma {:induction false} FitsBlack(c: Path, h: nat)
    requires Fits(c, h, true)
    ensures Fits(c, h, false)
  {
  }

  /** A tree that is one black node short has a sibling. */
  lemma {:induction false} SiblingExists(v: Mem, S: set<Node>, c: Path, t: Shape, p: Node?)
    requires Short(v, S, c, t, p) && c.In? && !IsRed(t)
    ensures RedBlack(t) && RedBlack(c.sibling) && Height(c.sibling) == Height(t) + 1 && c.sibling.Fork?
    ensures c.red ==> !IsRed(c.sibling)
    ensures Fits(c.up, Height(t) + 1 + (if c.red then 0 else 1), c.red)
    ensures c.node in S && c.sibling.node in S && c.sibling.node in Nodes(c.sibling)
    ensures v.cells[c.node].Child(c.side) == p == Ptr(t)
    ensures v.cells[c.node].Child(c.side.Flip()) == c.sibling.node != p
    ensures v.cells[c.sibling.node].red == c.sibling.red && v.cells[c.node].red == c.red
  {
  }

  lemma {:induction false} TopPtr(v: Mem, c: Path, t: Shape, p: Node?)
    requires At(v, c, t, p)
    ensures p == Ptr(t)
    ensures p == v.top <==> c.Top?
  {
    if c.In? {
      TopOfPath(v.cells, c, p, v.top, null);
    }
  }

  lemma {:induction false} TopOfPath(m: Cells, c: Path, hole: Node?, top: Node?, over: Node?)
    requires c.In? && LinkedUp(m, c, hole, top, over)
    ensures top != null && top in PathNodes(c)
  {
    if c.up.In? {
      TopOfPath(m, c.up, c.node, top, over);
    }
  }

  // Red sibling.

  ghost function SibRed(v: Mem, parent: Node, sib: Node): Mem
    requires parent in v.cells && sib in v.cells
  {
    Painted(Painted(v, sib, false), parent, true)
  }

  ghost function SibRedPath(c: Path): Path
    requires c.In? && c.sibling.Fork?
  {
    var near, far := Kid(c.sibling, c.side), Kid(c.sibling, c.side.Flip());
    In(In(c.up, c.side, c.sibling.node, false, far), c.side, c.node, true, near)
  }

  lemma {:induction false} SibRedLinks(v: Mem, c: Path, t: Shape, p: Node?)
    requires At(v, c, t, p) && c.In? && c.sibling.Fork?
    ensures c.node in v.cells && c.sibling.node in v.cells
    ensures CanTurn(SibRed(v, c.node, c.sibling.node), c.side, c.node)
    ensures At(Turned(SibRed(v, c.node, c.sibling.node), c.side, c.node), SibRedPath(c), t, Ptr(t))
  {
    var s, x, y := c.side, c.node, c.sibling.node;
    var near, far := Kid(c.sibling, s), Kid(c.sibling, s.Flip());
    PaintAcross(v, c, t, p, false);
    var v1, c1 := Painted(v, y, false), c.(sibling := c.sibling.(red := false));
    PaintAbove(v1, c1, t, p, true);
    var v2, c2 := Painted(v1, x, true), c1.(red := true);
    Up(v2, c2, t, p);
    assert Lift(c2, t) == Join(s, t, x, true, Join(s, near, y, false, far));
    Turn(v2, s, x, c.up, t, true, near, y, false, far);
    var w, c3 := Turned(v2, s, x), In(c.up, s, y, false, far);
    Down(w, c3, Join(s, t, x, true, near));
    Down(w, SibRedPath(c), t);
  }

  lemma {:induction false} SibRedOrder(c: Path, t: Shape)
    requires c.In? && c.sibling.Fork?
    ensures Whole(SibRedPath(c), t) == Whole(c, t) && Nodes(t) + PathNodes(SibRedPath(c)) == Nodes(t) + PathNodes(c)
  {
    var s, x, y := c.side, c.node, c.sibling.node;
    var near, far := Kid(c.sibling, s), Kid(c.sibling, s.Flip());
    Lifted(c, t);
    Lifted(SibRedPath(c), t);
    Lifted(SibRedPath(c).up, Join(s, t, x, true, near));
    RotationOrder(s, t, x, true, near, y, false, far);
    RotationNodes(s, t, x, true, near, y, false, far);
    RotationNodes(s, t, x, c.red, near, y, c.sibling.red, far);
    assert Lift(c, t) == Join(s, t, x, c.red, Join(s, near, y, c.sibling.red, far));
  }

  lemma {:induction false} SibRedBalance(c: Path, h: nat)
    requires Fits(c, h, false) && c.In? && IsRed(c.sibling)
    ensures Fits(SibRedPath(c), h, false) && !IsRed(SibRedPath(c).sibling)
  {
    assert Fits(SibRedPath(c).up, h, true);
  }

  lemma {:induction false} SibRedStep(v: Mem, S: set<Node>, c: Path, t: Shape, p: Node?)
    requires Short(v, S, c, t, p) && c.In? && !IsRed(t) && IsRed(c.sibling)
    ensures c.node in S && c.sibling.node in S
    ensures CanTurn(SibRed(v, c.node, c.sibling.node), c.side, c.node)
    ensures Short(Turned(SibRed(v, c.node, c.sibling.node), c.side, c.node), S, SibRedPath(c), t, p)
    ensures !IsRed(SibRedPath(c).sibling)
    ensures Whole(SibRedPath(c), t) == Whole(c, t)
  {
    hide Linked, LinkedUp, Apart, ApartPath, Inorder, Before, After, Turned, Fits, RedBlack;
    SiblingExists(v, S, c, t, p);
    SibRedLinks(v, c, t, p);
    SibRedOrder(c, t);
    SibRedBalance(c, Height(t) + 1);
    TurnedKeys(SibRed(v, c.node, c.sibling.node), c.side, c.node);
  }

  // Black sibling, no red nephew.

  lemma {:induction false} SiblingPainted(c: Path, red: bool)
    requires c.In? && c.sibling.Fork?
    ensures var c' := c.(sibling := c.sibling.(red := red));
            Before(c') == Before(c) && After(c') == After(c) && PathNodes(c') == PathNodes(c)
  {
  }

  lemma {:induction false} NoRedNephewStep(v: Mem, S: set<Node>, c: Path, t: Shape, p: Node?)
    requires Short(v, S, c, t, p) && c.In? && !IsRed(t) && c.sibling.Fork? && !IsRed(c.sibling)
    requires !IsRed(c.sibling.left) && !IsRed(c.sibling.right)
    ensures c.sibling.node in S
    ensures Short(Painted(v, c.sibling.node, true), S, c.up, Lift(c.(sibling := c.sibling.(red := true)), t), c.node)
    ensures Whole(c.up, Lift(c.(sibling := c.sibling.(red := true)), t)) == Whole(c, t)
  {
    hide Linked, LinkedUp, Apart, ApartPath, Inorder, Before, After, PathNodes;
    SiblingExists(v, S, c, t, p);
    PaintAcross(v, c, t, p, true);
    var c' := c.(sibling := c.sibling.(red := true));
    Up(Painted(v, c.sibling.node, true), c', t, p);
    Lifted(c', t);
    RedBlackJoin(c.side, t, c.node, false, c'.sibling);
    if c.red {
      FitsBlack(c.up, Height(t) + 1);
    }
    SiblingPainted(c, true);
    ApartJoin(c.side, t, c.node, c.red, c'.sibling);
  }

  // Black sibling y whose red child z is the near nephew: after the rotation z is the sibling and y its red far child.

  ghost function NearRed(v: Mem, y: Node, z: Node): Mem
    requires y in v.cells && z in v.cells
  {
    Painted(Painted(v, z, false), y, true)
  }

  ghost function NearRedPath(c: Path): Path
    requires c.In? && c.sibling.Fork? && Kid(c.sibling, c.side).Fork?
  {
    var s, near, far := c.side, Kid(c.sibling, c.side), Kid(c.sibling, c.side.Flip());
    c.(sibling := Join(s, Kid(near, s), near.node, false, Join(s, Kid(near, s.Flip()), c.sibling.node, true, far)))
  }

  lemma {:induction false} NearRedLinks(v: Mem, c: Path, t: Shape, p: Node?)
    requires At(v, c, t, p) && c.In? && c.sibling.Fork? && Kid(c.sibling, c.side).Fork?
    ensures var y, z := c.sibling.node, Kid(c.sibling, c.side).node;
            && y in v.cells && z in v.cells && CanTurn(NearRed(v, y, z), c.side.Flip(), y)
            && At(Turned(NearRed(v, y, z), c.side.Flip(), y), NearRedPath(c), t, Ptr(t))
  {
    hide Linked, Apart, ApartPath, Nodes, PathNodes, CanTurn, Turned;
    var s, s', y := c.side, c.side.Flip(), c.sibling.node;
    var near, far := Kid(c.sibling, s), Kid(c.sibling, s');
    var z, nn, nf := near.node, Kid(near, s), Kid(near, s');
    Across(v, c, t, p);
    var ca := In(c.up, s', c.node, c.red, t);
    var cb := In(ca, s, y, c.sibling.red, far);
    assert Lift(cb, near) == c.sibling;
    Down(v, cb, near);
    PaintHere(v, cb, near, false);
    var v1, near1 := Painted(v, z, false), near.(red := false);
    PaintAbove(v1, cb, near1, z, true);
    var v2, cb2 := Painted(v1, y, true), cb.(red := true);
    Up(v2, cb2, near1, z);
    assert Lift(cb2, near1) == Join(s', far, y, true, Join(s', nf, z, false, nn));
    Turn(v2, s', y, ca, far, true, nf, z, false, nn);
    Across(Turned(v2, s', y), ca, Join(s', Join(s', far, y, true, nf), z, false, nn), z);
  }

  lemma {:induction false} NearRedOrder(c: Path, t: Shape)
    requires c.In? && c.sibling.Fork? && Kid(c.sibling, c.side).Fork?
    ensures Whole(NearRedPath(c), t) == Whole(c, t) && PathNodes(NearRedPath(c)) == PathNodes(c)
  {
    var s, s', y := c.side, c.side.Flip(), c.sibling.node;
    var near, far := Kid(c.sibling, s), Kid(c.sibling, s');
    var z, nn, nf := near.node, Kid(near, s), Kid(near, s');
    assert c.sibling == Join(s', far, y, c.sibling.red, Join(s', nf, z, near.red, nn));
    RotationOrder(s', far, y, true, nf, z, false, nn);
    RotationNodes(s', far, y, true, nf, z, false, nn);
    RotationNodes(s', far, y, c.sibling.red, nf, z, near.red, nn);
    assert Inorder(NearRedPath(c).sibling) == Inorder(c.sibling);
  }

  lemma {:induction false} NearRedStep(v: Mem, S: set<Node>, c: Path, t: Shape, p: Node?)
    requires Short(v, S, c, t, p) && c.In? && !IsRed(t) && c.sibling.Fork? && !IsRed(c.sibling)
    requires IsRed(Kid(c.sibling, c.side)) && !IsRed(Kid(c.sibling, c.side.Flip()))
    ensures var y, z := c.sibling.node, Kid(c.sibling, c.side).node;
            && y in S && z in S && CanTurn(NearRed(v, y, z), c.side.Flip(), y)
            && Short(Turned(NearRed(v, y, z), c.side.Flip(), y), S, NearRedPath(c), t, p)
    ensures !IsRed(NearRedPath(c).sibling) && IsRed(Kid(NearRedPath(c).sibling, c.side.Flip()))
    ensures Whole(NearRedPath(c), t) == Whole(c, t)
  {
    hide Linked, LinkedUp, Apart, ApartPath, Inorder, Before, After, Turned, CanTurn;
    var s, y, near, far := c.side, c.sibling.node, Kid(c.sibling, c.side), Kid(c.sibling, c.side.Flip());
    SiblingExists(v, S, c, t, p);
    NearRedLinks(v, c, t, p);
    NearRedOrder(c, t);
    TurnedKeys(NearRed(v, y, near.node), s.Flip(), y);
    RedBlackJoin(s, Kid(near, s.Flip()), y, true, far);
    RedBlackJoin(s, Kid(near, s), near.node, false, Join(s, Kid(near, s.Flip()), y, true, far));
  }

  // Black sibling y with a red far nephew f: one rotation makes up for the missing black node.

  ghost function FarRed(v: Mem, x: Node, red: bool, y: Node, f: Node): Mem
    requires x in v.cells && y in v.cells && f in v.cells
  {
    Painted(Painted(Painted(v, y, red), x, false), f, false)
  }

  ghost function FarRedShape(c: Path, t: Shape): Shape
    requires c.In? && c.sibling.Fork?
  {
    var s, near, far := c.side, Kid(c.sibling, c.side), Kid(c.sibling, c.side.Flip());
    Join(s, Join(s, t, c.node, false, near), c.sibling.node, c.red, Black(far))
  }

  lemma {:induction false} FarRedLinks(v: Mem, c: Path, t: Shape, p: Node?)
    requires At(v, c, t, p) && c.In? && c.sibling.Fork? && Kid(c.sibling, c.side.Flip()).Fork?
    ensures var y, f := c.sibling.node, Kid(c.sibling, c.side.Flip()).node;
            && c.node in v.cells && y in v.cells && f in v.cells
            && CanTurn(FarRed(v, c.node, c.red, y, f), c.side, c.node)
            && At(Turned(FarRed(v, c.node, c.red, y, f), c.side, c.node), c.up, FarRedShape(c, t), y)
  {
    var s, s', x, y := c.side, c.side.Flip(), c.node, c.sibling.node;
    var near, far := Kid(c.sibling, s), Kid(c.sibling, s');
    PaintAcross(v, c, t, p, c.red);
    var v1, c1 := Painted(v, y, c.red), c.(sibling := c.sibling.(red := c.red));
    PaintAbove(v1, c1, t, p, false);
    var v2, c2 := Painted(v1, x, false), c1.(red := false);
    Across(v2, c2, t, p);
    var ca := In(c.up, s', x, false, t);
    var cb := In(ca, s', y, c.red, near);
    assert Lift(cb, far) == c2.sibling;
    Down(v2, cb, far);
    PaintHere(v2, cb, far, false);
    var v3 := Painted(v2, far.node, false);
    Up(v3, cb, Black(far), far.node);
    var sib3 := Join(s, near, y, c.red, Black(far));
    assert Lift(cb, Black(far)) == sib3;
    Up(v3, ca, sib3, y);
    assert Lift(ca, sib3) == Join(s, t, x, false, Join(s, near, y, c.red, Black(far)));
    Turn(v3, s, x, c.up, t, false, near, y, c.red, Black(far));
  }

  lemma {:induction false} FarRedOrder(c: Path, t: Shape)
    requires c.In? && c.sibling.Fork?
    ensures Whole(c.up, FarRedShape(c, t)) == Whole(c, t)
    ensures Nodes(FarRedShape(c, t)) + PathNodes(c.up) == Nodes(t) + PathNodes(c)
  {
    var s, x, y := c.side, c.node, c.sibling.node;
    var near, far := Kid(c.sibling, s), Kid(c.sibling, s.Flip());
    assert Inorder(Black(far)) == Inorder(far) && Nodes(Black(far)) == Nodes(far);
    Lifted(c, t);
    RotationOrder(s, t, x, false, near, y, c.red, Black(far));
    RotationNodes(s, t, x, false, near, y, c.red, Black(far));
    RotationNodes(s, t, x, c.red, near, y, c.sibling.red, far);
    assert Lift(c, t) == Join(s, t, x, c.red, Join(s, near, y, c.sibling.red, far));
    FarRedInorder(s, t, x, c.red, near, y, c.sibling.red, far);
  }

  lemma {:induction false} FarRedInorder(s: Side, t: Shape, x: Node, xr: bool, near: Shape, y: Node, yr: bool,
                                         far: Shape)
    ensures Inorder(Join(s, t, x, xr, Join(s, near, y, yr, far))) ==
            Inorder(Join(s, t, x, false, Join(s, near, y, xr, Black(far))))
  {
    assert Inorder(Black(far)) == Inorder(far);
    assert Inorder(Join(s, near, y, yr, far)) == Inorder(Join(s, near, y, xr, Black(far)));
  }

  lemma {:induction false} FarRedBalance(c: Path, t: Shape)
    requires c.In? && !IsRed(t) && RedBlack(t) && Fits(c, Height(t) + 1, false)
    requires c.sibling.Fork? && !IsRed(c.sibling) && IsRed(Kid(c.sibling, c.side.Flip()))
    ensures RedBlack(FarRedShape(c, t)) && Fits(c.up, Height(FarRedShape(c, t)), IsRed(FarRedShape(c, t)))
  {
    var s, x, y := c.side, c.node, c.sibling.node;
    var near, far := Kid(c.sibling, s), Kid(c.sibling, s.Flip());
    assert RedBlack(c.sibling) && Height(c.sibling) == Height(t) + 1;
    assert RedBlack(near) && RedBlack(far) && Height(near) == Height(far) == Height(t);
    assert RedBlack(Black(far)) && Height(Black(far)) == Height(t) + 1;
    RedBlackJoin(s, t, x, false, near);
    RedBlackJoin(s, Join(s, t, x, false, near), y, c.red, Black(far));
  }

  lemma {:induction false} FarRedStep(v: Mem, S: set<Node>, c: Path, t: Shape, p: Node?)
    requires Short(v, S, c, t, p) && c.In? && !IsRed(t) && c.sibling.Fork? && !IsRed(c.sibling)
    requires IsRed(Kid(c.sibling, c.side.Flip()))
    ensures var y, f := c.sibling.node, Kid(c.sibling, c.side.Flip()).node;
            && c.node in S && y in S && f in S && CanTurn(FarRed(v, c.node, c.red, y, f), c.side, c.node)
            && At(Turned(FarRed(v, c.node, c.red, y, f), c.side, c.node), c.up, FarRedShape(c, t), y)
            && Turned(FarRed(v, c.node, c.red, y, f), c.side, c.node).cells.Keys == S
    ensures FarRedShape(c, t).Fork? && RedBlack(FarRedShape(c, t))
    ensures Fits(c.up, Height(FarRedShape(c, t)), IsRed(FarRedShape(c, t)))
    ensures Whole(c.up, FarRedShape(c, t)) == Whole(c, t)
  {
    hide Linked, LinkedUp, Apart, ApartPath, Inorder, Before, After, Turned, CanTurn, RedBlack, Fits, Height;
    var s, x, y := c.side, c.node, c.sibling.node;
    SiblingExists(v, S, c, t, p);
    FarRedLinks(v, c, t, p);
    FarRedOrder(c, t);
    FarRedBalance(c, t);
    TurnedKeys(FarRed(v, x, c.red, y, Kid(c.sibling, s.Flip()).node), s, x);
  }

  // The cases as methods: on side s of the parent hangs the short tree.

  ghost predicate Fixing(v: Mem, S: set<Node>, c: Path, t: Shape, p: Node?, s: Side, parent: Node) {
    Short(v, S, c, t, p) && c.In? && c.side == s && c.node == parent && !IsRed(t)
  }

  method FixRedSibling(s: Side, p: Node?, parent: Node, root: Root, ghost S: set<Node>, ghost c: Path, ghost t: Shape)
    returns (sibling: Node, ghost c': Path)
    requires Fixing(View(root, S), S, c, t, p, s, parent)
    modifies root, S
    ensures Fixing(View(root, S), S, c', t, p, s, parent) && !IsRed(c'.sibling)
    ensures c'.sibling.Fork? && c'.sibling.node == sibling
    ensures Whole(c', t) == Whole(c, t)
    ensures c' == c || (c'.up.In? && c'.up.up == c.up && c'.red)
  {
    hide Linked, LinkedUp, Apart, ApartPath, RedBlack, Fits, Nodes, PathNodes, Inorder, Before, After, Height, Turned,
      CanTurn;
    SiblingExists(View(root, S), S, c, t, p);
    sibling := parent.Child(s.Flip());
    c' := c;
    if sibling.red {
      SibRedStep(View(root, S), S, c, t, p);
      sibling.Paint(false, S);
      parent.Paint(true, S);
      Rotate(s, parent, root, S);
      c' := SibRedPath(c);
      SiblingExists(View(root, S), S, c', t, p);
      sibling := parent.Child(s.Flip());
    }
  }

  lemma {:induction false} Nephews(v: Mem, S: set<Node>, c: Path, t: Shape, p: Node?)
    requires Short(v, S, c, t, p) && c.In? && c.sibling.Fork?
    ensures var y := c.sibling.node;
            && y in S
            && v.cells[y].left == Ptr(c.sibling.left) && v.cells[y].right == Ptr(c.sibling.right)
            && (c.sibling.left.Fork? ==>
                  c.sibling.left.node in S && v.cells[c.sibling.left.node].red == c.sibling.left.red)
            && (c.sibling.right.Fork? ==>
                  c.sibling.right.node in S && v.cells[c.sibling.right.node].red == c.sibling.right.red)
  {
    Across(v, c, t, p);
    assert Linked(v.cells, c.sibling.left, v.cells[c.sibling.node].left, c.sibling.node);
    assert Linked(v.cells, c.sibling.right, v.cells[c.sibling.node].right, c.sibling.node);
  }

  method FixNear(s: Side, p: Node?, parent: Node, y: Node, root: Root, ghost S: set<Node>, ghost c: Path,
                 ghost t: Shape)
    returns (sibling: Node, ghost c': Path)
    requires Fixing(View(root, S), S, c, t, p, s, parent)
    requires c.sibling.Fork? && c.sibling.node == y && !IsRed(c.sibling)
    requires IsRed(Kid(c.sibling, s)) && !IsRed(Kid(c.sibling, s.Flip()))
    modifies root, S
    ensures Fixing(View(root, S), S, c', t, p, s, parent)
    ensures c'.sibling.Fork? && c'.sibling.node == sibling && !IsRed(c'.sibling) && IsRed(Kid(c'.sibling, s.Flip()))
    ensures Whole(c', t) == Whole(c, t) && c'.up == c.up
  {
    hide Linked, LinkedUp, Apart, ApartPath, RedBlack, Fits, Nodes, PathNodes, Inorder, Before, After, Height, Turned,
      CanTurn;
    Nephews(View(root, S), S, c, t, p);
    NearRedStep(View(root, S), S, c, t, p);
    var near := y.Child(s);
    near.Paint(false, S);
    y.Paint(true, S);
    Rotate(s.Flip(), y, root, S);
    c' := NearRedPath(c);
    SiblingExists(View(root, S), S, c', t, p);
    sibling := parent.Child(s.Flip());
  }

  /** The sibling takes the colour of the parent; the parent and the far nephew turn black. */
  method PaintFar(parent: Node, sibling: Node, far: Node, root: Root, ghost S: set<Node>)
    requires parent in S && sibling in S && far in S
    modifies S
    ensures View(root, S) == FarRed(old(View(root, S)), parent, old(parent.red), sibling, far)
  {
    sibling.Paint(parent.red, S);
    parent.Paint(false, S);
    far.Paint(false, S);
  }

  method FixFar(s: Side, p: Node?, parent: Node, sibling: Node, root: Root, ghost S: set<Node>, ghost c: Path,
                ghost t: Shape)
    returns (ghost t': Shape)
    requires Fixing(View(root, S), S, c, t, p, s, parent)
    requires c.sibling.Fork? && c.sibling.node == sibling && !IsRed(c.sibling) && IsRed(Kid(c.sibling, s.Flip()))
    modifies root, S
    ensures At(View(root, S), c.up, t', sibling) && t'.Fork?
    ensures RedBlack(t') && Fits(c.up, Height(t'), IsRed(t'))
    ensures Whole(c.up, t') == Whole(c, t)
  {
    hide Linked, LinkedUp, Apart, ApartPath, RedBlack, Fits, Nodes, PathNodes, Inorder, Before, After, Height, Turned,
      CanTurn, At, Short, Join, FarRedShape;
    ghost var v := View(root, S);
    Nephews(v, S, c, t, p);
    SiblingExists(v, S, c, t, p);
    FarRedStep(v, S, c, t, p);
    t' := FarRedShape(c, t);
    var far := sibling.Child(s.Flip());
    PaintFar(parent, sibling, far, root, S);
    Rotate(s, parent, root, S);
  }

  method FixRecolor(s: Side, p: Node?, parent: Node, sibling: Node, root: Root, ghost S: set<Node>, ghost c: Path,
                    ghost t: Shape)
    returns (ghost t': Shape)
    requires Fixing(View(root, S), S, c, t, p, s, parent)
    requires c.sibling.Fork? && c.sibling.node == sibling && !IsRed(c.sibling)
    requires !IsRed(c.sibling.left) && !IsRed(c.sibling.right)
    modifies S
    ensures Short(View(root, S), S, c.up, t', parent) && Whole(c.up, t') == Whole(c, t)
    ensures t'.Fork? && t'.red == c.red
  {
    hide Linked, LinkedUp, Apart, ApartPath, RedBlack, Fits, Nodes, PathNodes, Inorder, Before, After, Height, Turned,
      CanTurn;
    NoRedNephewStep(View(root, S), S, c, t, p);
    t' := Lift(c.(sibling := c.sibling.(red := true)), t);
    sibling.Paint(true, S);
  }

  /** The end of the loop body: the tree is whole again, and the root is painted black. */
  method FixRotate(s: Side, p: Node?, parent: Node, y: Node, root: Root, ghost S: set<Node>, ghost path: Path,
                   ghost t: Shape)
    returns (ghost whole: Shape)
    requires Fixing(View(root, S), S, path, t, p, s, parent)
    requires path.sibling.Fork? && path.sibling.node == y && !IsRed(path.sibling)
    requires IsRed(path.sibling.left) || IsRed(path.sibling.right)
    modifies root, S
    ensures At(View(root, S), Top, whole, root.node)
    ensures RedBlack(whole) && !IsRed(whole) && Inorder(whole) == Whole(path, t)
  {
    hide Linked, LinkedUp, Apart, ApartPath, RedBlack, Fits, Nodes, PathNodes, Inorder, Before, After, Height, Turned,
      CanTurn;
    var sibling := y;
    ghost var c := path;
    Nephews(View(root, S), S, c, t, p);
    var far := sibling.Child(s.Flip());
    if !(far != null && far.red) {
      sibling, c := FixNear(s, p, parent, sibling, root, S, c, t);
    }
    ghost var t' := FixFar(s, p, parent, sibling, root, S, c, t);
    PlugFork(c.up, t');
    whole := BlackRoot(View(root, S), c.up, t', sibling);
    root.node.Paint(false, S);
  }

  lemma {:induction false} Focus(v: Mem, S: set<Node>, c: Path, t: Shape, p: Node?)
    requires Short(v, S, c, t, p)
    ensures p == Ptr(t) && (p == v.top <==> c.Top?)
    ensures p != null ==> p in S && v.cells[p].red == t.red && v.cells[p].parent == ParentOf(c, null)
    ensures c.In? ==>
              c.node in S && v.cells[c.node].Child(c.side) == p && v.cells[c.node].parent == ParentOf(c.up, null)
    ensures c.In? && !IsRed(t) ==> v.cells[c.node].Child(c.side.Flip()) != p
  {
    TopPtr(v, c, t, p);
    if c.In? && !IsRed(t) {
      SiblingExists(v, S, c, t, p);
    }
  }

  lemma {:induction false} FixEnd(v: Mem, S: set<Node>, c: Path, t: Shape, p: Node?) returns (whole: Shape)
    requires Short(v, S, c, t, p) && (c.Top? || IsRed(t))
    ensures p == Ptr(t) && (p != null ==> p in S)
    ensures var w := if p == null then v else Painted(v, p, false);
            At(w, Top, whole, w.top)
    ensures RedBlack(whole) && !IsRed(whole) && Inorder(whole) == Whole(c, t)
  {
    if p != null {
      PaintHere(v, c, t, false);
      ToTop(Painted(v, p, false), c, Black(t), p);
    } else {
      ToTop(v, c, t, p);
    }
    whole := Plug(c, Black(t));
    FitsPlugged(c, Black(t));
    InorderPlugged(c, Black(t));
  }

  /** rb_erase_fixup: p is the subtree, possibly empty, that lost a black node above it. */
  method EraseFixup(node: Node?, above: Node?, root: Root, ghost S: set<Node>, ghost path: Path, ghost tree: Shape)
    returns (ghost whole: Shape)
    requires Short(View(root, S), S, path, tree, node) && above == ParentOf(path, null)
    modifies root, S
    ensures At(View(root, S), Top, whole, root.node)
    ensures RedBlack(whole) && !IsRed(whole) && Inorder(whole) == Whole(path, tree)
  {
    hide Linked, LinkedUp, Apart, ApartPath, RedBlack, Fits, Nodes, PathNodes, Inorder, Before, After, Height, Turned,
      CanTurn, At, Short;
    var p, parent := node, above;
    ghost var c, t := path, tree;
    Focus(View(root, S), S, c, t, p);
    while p != root.node && !(p != null && p.red)
      invariant Short(View(root, S), S, c, t, p) && parent == ParentOf(c, null)
      invariant Whole(c, t) == Whole(path, tree)
      decreases Depth(c), if IsRed(t) then 0 else 1
    {
      Focus(View(root, S), S, c, t, p);
      var s := if p == parent.left then L else R;
      ghost var was := c;
      var sibling;
      sibling, c := FixRedSibling(s, p, parent, root, S, c, t);
      assert Depth(c.up) <= Depth(was) && (c == was ==> Depth(c.up) < Depth(was));
      Nephews(View(root, S), S, c, t, p);
      var left, right := sibling.left, sibling.right;
      if !(left != null && left.red) && !(right != null && right.red) {
        t := FixRecolor(s, p, parent, sibling, root, S, c, t);
        p, c := parent, c.up;
        Focus(View(root, S), S, c, t, p);
        parent := p.parent;
      } else {
        whole := FixRotate(s, p, parent, sibling, root, S, c, t);
        return;
      }
    }
    Focus(View(root, S), S, c, t, p);
    whole := FixEnd(View(root, S), S, c, t, p);
    if p != null {
      p.Paint(false, S);
    }
  }

  // ---------------------------------------------------------------------------------------------
  // rb_erase
  // ---------------------------------------------------------------------------------------------

  /** A node with an empty side is replaced by what hangs on its other side. */
  lemma {:induction false} Splice(v: Mem, c: Path, s: Side, node: Node, red: bool, k: Shape)
    requires At(v, c, Join(s, Nil, node, red, k), node)
    ensures Known(v.cells, Ptr(k)) && Known(v.cells, ParentOf(c, null))
    ensures v.cells[node].parent == ParentOf(c, null) && v.cells[node].Child(s) == null
    ensures v.cells[node].Child(s.Flip()) == Ptr(k)
    ensures At(Switched(v, node, Ptr(k), ParentOf(c, null)), c, k, Ptr(k))
    ensures Switched(v, node, Ptr(k), ParentOf(c, null)).cells.Keys == v.cells.Keys
  {
    ApartJoin(s, Nil, node, red, k);
    LinkedJoin(v.cells, s, Nil, node, red, k, node, ParentOf(c, null));
    var w := Switched(v, node, Ptr(k), ParentOf(c, null));
    assert k.Fork? ==> k.node in Nodes(k);
    Reparent(v.cells, w.cells, k, Ptr(k), node, ParentOf(c, null));
    Rehole(v, w, c, node, Ptr(k));
  }

  /** The path `c` continued upwards by `base`. */
  ghost function Over(c: Path, base: Path): Path {
    if c.Top? then base else c.(up := Over(c.up, base))
  }

  /** The node at the top of the path, or what fills its hole if it has none. */
  ghost function Mid(c: Path, hole: Node?): Node? {
    if c.Top? then hole else Mid(c.up, c.node)
  }

  lemma {:induction false} OverLinked(m: Cells, c: Path, base: Path, hole: Node?, top: Node?)
    ensures LinkedUp(m, Over(c, base), hole, top, null) <==>
            LinkedUp(m, c, hole, Mid(c, hole), ParentOf(base, null)) && LinkedUp(m, base, Mid(c, hole), top, null)
    ensures ParentOf(Over(c, base), null) == ParentOf(c, ParentOf(base, null))
  {
    if c.In? {
      OverLinked(m, c.up, base, c.node, top);
    }
  }

  lemma {:induction false} OverApart(c: Path, base: Path)
    ensures PathNodes(Over(c, base)) == PathNodes(c) + PathNodes(base)
    ensures ApartPath(Over(c, base)) <==> ApartPath(c) && ApartPath(base) && PathNodes(c) !! PathNodes(base)
  {
    if c.In? {
      OverApart(c.up, base);
    }
  }

  lemma {:induction false} OverOrder(c: Path, base: Path)
    ensures Before(Over(c, base)) == Before(base) + Before(c)
    ensures After(Over(c, base)) == After(c) + After(base)
  {
    if c.In? {
      OverOrder(c.up, base);
    }
  }

  lemma {:induction false} OverFits(c: Path, base: Path, base': Path, h: nat, red: bool)
    requires base.In? && base'.In? && base.up == base'.up && base.red == base'.red && base.sibling == base'.sibling
    ensures Fits(Over(c, base), h, red) <==> Fits(Over(c, base'), h, red)
  {
    if c.In? {
      OverFits(c.up, base, base', h + if c.red then 0 else 1, c.red);
    }
  }

  /** The topmost node of a path can be hung below another parent. */
  lemma {:induction false} Reover(m: Cells, m': Cells, c: Path, hole: Node?, top: Node, over: Node?, over': Node?)
    requires c.In? && ApartPath(c) && LinkedUp(m, c, hole, top, over)
    requires top in m && top in m' && m'[top] == m[top].(parent := over')
    requires Agree(m, m', PathNodes(c) - {top})
    ensures LinkedUp(m', c, hole, top, over')
  {
    TopOfPath(m, c, hole, top, over);
    if c.up.In? {
      TopOfPath(m, c.up, c.node, top, over);
      Reover(m, m', c.up, c.node, top, over, over');
    }
    Frame(m, m', c.sibling, m[c.node].Child(c.side.Flip()), c.node);
  }

  /** What rb_erase does to put the successor in the node's place; `adopt` when it was not already the right child. */
  ghost predicate CanReplace(v: Mem, node: Node, succ: Node, adopt: bool) {
    && node in v.cells && succ in v.cells && node != succ && v.cells[node].parent != node && v.cells[node].left != node
    && v.cells[node].left != null && v.cells[node].left in v.cells && Known(v.cells, v.cells[node].parent)
    && (adopt ==> v.cells[node].right != null && v.cells[node].right in v.cells && v.cells[node].right != node)
  }

  ghost function Replaced(v: Mem, node: Node, succ: Node, adopt: bool): Mem
    requires CanReplace(v, node, succ, adopt)
  {
    var v1 :=
      if adopt then
        var mid: Node := v.cells[node].right;
        var m := v.cells[succ := v.cells[succ].(right := mid)];
        v.(cells := m[mid := m[mid].(parent := succ)])
      else v;
    var v2 := Switched(v1, node, succ, v1.cells[node].parent);
    var left: Node := v.cells[node].left;
    var m3 := v2.cells[succ := v2.cells[succ].(left := left)];
    var m4 := m3[left := m3[left].(parent := succ)];
    v2.(cells := m4[succ := m4[succ].(red := m4[node].red)])
  }

  ghost predicate Transplanted(v: Mem, w: Mem, node: Node, succ: Node, left: Node, mid: Node?, par: Node?)
    requires node in v.cells && succ in v.cells && left in v.cells && Known(v.cells, mid) && Known(v.cells, par)
  {
    && w.cells.Keys == v.cells.Keys
    && w.cells[succ] == Cell(par, left, if mid == null then v.cells[succ].right else mid, v.cells[node].red)
    && w.cells[left] == v.cells[left].(parent := succ)
    && (mid != null ==> w.cells[mid] == v.cells[mid].(parent := succ))
    && (par == null ==> w.top == succ)
    && (par != null ==>
          && w.top == v.top
          && w.cells[par] ==
             if v.cells[par].left == node then v.cells[par].(left := succ) else v.cells[par].(right := succ))
    && (forall n :: n in v.cells && n != succ && n != left && n != mid && n != par ==> w.cells[n] == v.cells[n])
  }

  lemma ReplacedCells(v: Mem, node: Node, succ: Node, adopt: bool, left: Node, mid: Node?, par: Node?)
    requires CanReplace(v, node, succ, adopt)
    requires left == v.cells[node].left && par == v.cells[node].parent
    requires mid == if adopt then v.cells[node].right else null
    requires left != succ && left != node && par != node && par != succ && par != left
    requires mid != null ==> mid != node && mid != succ && mid != left && mid != par
    ensures Transplanted(v, Replaced(v, node, succ, adopt), node, succ, left, mid, par)
  {
  }

  lemma TransplantedAgree(v: Mem, w: Mem, node: Node, succ: Node, left: Node, mid: Node?, par: Node?, S: set<Node>)
    requires node in v.cells && succ in v.cells && left in v.cells && Known(v.cells, mid) && Known(v.cells, par)
    requires Transplanted(v, w, node, succ, left, mid, par)
    requires succ !in S && left !in S && (mid == null || mid !in S) && (par == null || par !in S)
    ensures Agree(v.cells, w.cells, S)
  {
  }

  /** The successor takes over the node's place in the path: its left subtree, its colour and its parent. */
  lemma {:induction false} TakeOver(v: Mem, w: Mem, c: Path, node: Node, succ: Node, red: bool, l: Shape, mid: Node?)
    requires l.Fork? && ApartPath(In(c, R, node, red, l)) && succ !in PathNodes(In(c, R, node, red, l))
    requires LinkedUp(v.cells, c, node, v.top, null)
    requires node in v.cells && v.cells[node].parent == ParentOf(c, null) && v.cells[node].red == red
    requires Linked(v.cells, l, v.cells[node].left, node)
    requires succ in v.cells && Known(v.cells, mid) && Known(v.cells, ParentOf(c, null))
    requires mid != null ==> mid !in PathNodes(In(c, R, node, red, l))
    requires Transplanted(v, w, node, succ, l.node, mid, ParentOf(c, null))
    ensures LinkedUp(w.cells, In(c, R, succ, red, l), if mid == null then v.cells[succ].right else mid, w.top, null)
    ensures ApartPath(In(c, R, succ, red, l))
  {
    var par := ParentOf(c, null);
    assert l.node in Nodes(l);
    TransplantedAgree(v, w, node, succ, l.node, mid, par, Nodes(l) - {l.node});
    Reparent(v.cells, w.cells, l, l.node, node, succ);
    if c.In? {
      TransplantedAgree(v, w, node, succ, l.node, mid, par, PathNodes(c) - {c.node});
    }
    Rehole(v, w, c, node, succ);
  }

  lemma {:induction false} GraftDirect(v: Mem, c: Path, node: Node, red: bool, l: Shape, succ: Node, sr: bool, k: Shape)
    requires l.Fork? && At(v, In(c, R, node, red, l), Fork(Nil, succ, sr, k), succ)
    ensures CanReplace(v, node, succ, false)
    ensures At(Replaced(v, node, succ, false), In(c, R, succ, red, l), k, Ptr(k))
    ensures Replaced(v, node, succ, false).cells.Keys == v.cells.Keys
  {
    var b := In(c, R, node, red, l);
    assert Linked(v.cells, l, v.cells[node].left, node) && LinkedUp(v.cells, c, node, v.top, null);
    assert l.node in Nodes(l) && succ in Nodes(Fork(Nil, succ, sr, k));
    assert l.node in PathNodes(b) && node in PathNodes(b);
    assert Known(v.cells, ParentOf(c, null)) && (c.In? ==> c.node in PathNodes(c));
    ReplacedCells(v, node, succ, false, l.node, null, ParentOf(c, null));
    var w := Replaced(v, node, succ, false);
    TakeOver(v, w, c, node, succ, red, l, null);
    assert Linked(v.cells, k, v.cells[succ].right, succ);
    TransplantedAgree(v, w, node, succ, l.node, null, ParentOf(c, null), Nodes(k));
    Frame(v.cells, w.cells, k, Ptr(k), succ);
  }

  lemma {:induction false} GraftAdopt(v: Mem, sp: Path, c: Path, node: Node, red: bool, l: Shape, succ: Node, k: Shape)
    requires sp.In? && l.Fork? && At(v, Over(sp, In(c, R, node, red, l)), k, Ptr(k))
    requires succ in v.cells && succ !in Nodes(k) && succ !in PathNodes(Over(sp, In(c, R, node, red, l)))
    ensures CanReplace(v, node, succ, true)
    ensures At(Replaced(v, node, succ, true), Over(sp, In(c, R, succ, red, l)), k, Ptr(k))
    ensures Replaced(v, node, succ, true).cells.Keys == v.cells.Keys
  {
    var b, b', par := In(c, R, node, red, l), In(c, R, succ, red, l), ParentOf(c, null);
    OverLinked(v.cells, sp, b, Ptr(k), v.top);
    OverApart(sp, b);
    OverApart(sp, b');
    TopOfPath(v.cells, sp, Ptr(k), Mid(sp, Ptr(k)), node);
    var mid: Node := Mid(sp, Ptr(k));
    assert v.cells[node].right == mid && Linked(v.cells, l, v.cells[node].left, node);
    assert LinkedUp(v.cells, c, node, v.top, null);
    assert l.node in Nodes(l) && l.node in PathNodes(b) && node in PathNodes(b) && PathNodes(c) <= PathNodes(b);
    assert Known(v.cells, par) && (c.In? ==> c.node in PathNodes(c));
    MidKnown(v.cells, sp, Ptr(k), mid, node);
    ReplacedCells(v, node, succ, true, l.node, mid, par);
    var w := Replaced(v, node, succ, true);
    TakeOver(v, w, c, node, succ, red, l, mid);
    TransplantedAgree(v, w, node, succ, l.node, mid, par, PathNodes(sp) - {mid});
    Reover(v.cells, w.cells, sp, Ptr(k), mid, node, succ);
    TransplantedAgree(v, w, node, succ, l.node, mid, par, Nodes(k));
    Frame(v.cells, w.cells, k, Ptr(k), ParentOf(sp, node));
    OverLinked(w.cells, sp, b', Ptr(k), w.top);
  }

  lemma {:induction false} MidKnown(m: Cells, c: Path, hole: Node?, top: Node?, over: Node?)
    requires c.In? && LinkedUp(m, c, hole, top, over)
    ensures top != null && top in m
  {
    if c.up.In? {
      MidKnown(m, c.up, c.node, top, over);
    }
  }

  lemma {:induction false} SpliceBalance(c: Path, s: Side, node: Node, red: bool, k: Shape)
    requires RedBlack(Join(s, Nil, node, red, k)) && Fits(c, Height(Join(s, Nil, node, red, k)), red)
    ensures red ==> RedBlack(k) && Fits(c, Height(k), IsRed(k))
    ensures !red ==> RedBlack(Black(k)) && Fits(c, Height(k) + 1, false)
  {
    assert Height(k) == 0;
    if red {
      FitsBlack(c, 0);
    }
  }

  /** What is left after unlinking: sound if the missing place was red, one black node short if it was black. */
  ghost predicate Unlinked(v: Mem, S: set<Node>, c: Path, k: Shape, child: Node?, red: bool, node: Node) {
    && v.cells.Keys == S && Nodes(k) + PathNodes(c) <= S - {node} && At(v, c, k, child)
    && (red ==> RedBlack(k) && Fits(c, Height(k), IsRed(k)))
    && (!red ==> RedBlack(Black(k)) && Fits(c, Height(k) + 1, false))
  }

  ghost function Without(c: Path, t: Shape): seq<Node>
    requires t.Fork?
  {
    Before(c) + Inorder(t.left) + Inorder(t.right) + After(c)
  }

  lemma {:induction false} UnlinkOneStep(v: Mem, S: set<Node>, c: Path, t: Shape, s: Side, k: Shape)
    requires v.cells.Keys == S && Nodes(t) + PathNodes(c) <= S && t.Fork? && At(v, c, t, t.node)
    requires RedBlack(t) && Fits(c, Height(t), IsRed(t)) && t == Join(s, Nil, t.node, t.red, k)
    ensures Known(v.cells, Ptr(k)) && Known(v.cells, ParentOf(c, null)) && t.node in S
    ensures Unlinked(Switched(v, t.node, Ptr(k), ParentOf(c, null)), S, c, k, Ptr(k), t.red, t.node)
    ensures Whole(c, k) == Without(c, t)
  {
    Splice(v, c, s, t.node, t.red, k);
    SpliceBalance(c, s, t.node, t.red, k);
    ApartJoin(s, Nil, t.node, t.red, k);
  }

  method UnlinkOne(s: Side, node: Node, root: Root, ghost S: set<Node>, ghost c: Path, ghost t: Shape)
    returns (child: Node?, parent: Node?, ghost k: Shape)
    requires Snapshot(S).Keys == S && Nodes(t) + PathNodes(c) <= S && t.Fork? && At(View(root, S), c, t, node)
    requires RedBlack(t) && Fits(c, Height(t), IsRed(t)) && Kid(t, s).Nil?
    requires t.node == node && node in S && node.parent == ParentOf(c, null)
    requires node.Child(s.Flip()) == Ptr(Kid(t, s.Flip()))
    modifies root, S
    ensures Unlinked(View(root, S), S, c, k, child, t.red, node)
    ensures parent == ParentOf(c, null) && Whole(c, k) == Without(c, t)
  {
    hide Linked, LinkedUp, Apart, ApartPath, RedBlack, Fits, Nodes, PathNodes, Inorder, Before, After, Height, Turned,
      CanTurn;
    k := Kid(t, s.Flip());
    assert t == Join(s, Nil, t.node, t.red, k);
    UnlinkOneStep(View(root, S), S, c, t, s, k);
    child := node.Child(s.Flip());
    parent := node.parent;
    ChangeChild(node, child, parent, root, S);
  }

  /** Going down on the left below the right child of t: `f` is the subtree at `succ`, `sp` the way from there up to t.
      */
  ghost predicate Descending(v: Mem, c: Path, t: Shape, sp: Path, f: Shape, succ: Node)
    requires t.Fork?
  {
    var b := In(c, R, t.node, t.red, t.left);
    && f.Fork? && f.node == succ && At(v, Over(sp, b), f, succ)
    && RedBlack(f) && Fits(Over(sp, b), Height(f), IsRed(f))
    && Before(sp) == [] && Inorder(t.right) == Inorder(f) + After(sp)
    && Nodes(f) + PathNodes(Over(sp, b)) == Nodes(t) + PathNodes(c)
  }

  lemma {:induction false} DescendStart(v: Mem, c: Path, t: Shape)
    requires t.Fork? && t.right.Fork? && At(v, c, t, t.node) && RedBlack(t) && Fits(c, Height(t), IsRed(t))
    ensures t.node in v.cells && v.cells[t.node].right == t.right.node
    ensures Descending(v, c, t, Top, t.right, t.right.node)
  {
    var b := In(c, R, t.node, t.red, t.left);
    assert Lift(b, t.right) == t;
    Down(v, b, t.right);
    Lifted(b, t.right);
  }

  lemma {:induction false} DescendChild(v: Mem, c: Path, t: Shape, sp: Path, f: Shape, succ: Node)
    requires t.Fork? && Descending(v, c, t, sp, f, succ)
    ensures succ in v.cells && v.cells[succ].left == Ptr(f.left) && succ in Nodes(f)
    ensures Nodes(f) <= Nodes(t) + PathNodes(c)
  {
    assert Linked(v.cells, f.left, v.cells[succ].left, succ);
  }

  lemma {:induction false} DescendOrder(sp: Path, f: Shape)
    requires f.Fork? && Before(sp) == []
    ensures var sp' := In(sp, L, f.node, f.red, f.right);
            Before(sp') == [] && Inorder(f) + After(sp) == Inorder(f.left) + After(sp')
  {
  }

  lemma {:induction false} DescendStep(v: Mem, c: Path, t: Shape, sp: Path, f: Shape, succ: Node)
    requires t.Fork? && Descending(v, c, t, sp, f, succ) && f.left.Fork?
    ensures Descending(v, c, t, In(sp, L, succ, f.red, f.right), f.left, f.left.node)
  {
    hide Linked, LinkedUp, Apart, ApartPath, Inorder, Before, After;
    var b, sp' := In(c, R, t.node, t.red, t.left), In(sp, L, succ, f.red, f.right);
    assert Lift(Over(sp', b), f.left) == f;
    Down(v, Over(sp', b), f.left);
    Lifted(Over(sp', b), f.left);
    DescendOrder(sp, f);
  }

  /** The leftmost node of the right subtree. */
  method FindSuccessor(node: Node, root: Root, ghost S: set<Node>, ghost c: Path, ghost t: Shape)
    returns (succ: Node, ghost sp: Path, ghost f: Shape)
    requires Nodes(t) + PathNodes(c) <= S && t.Fork? && t.right.Fork? && t.node == node && node in S
    requires At(View(root, S), c, t, node) && RedBlack(t) && Fits(c, Height(t), IsRed(t))
    ensures Descending(View(root, S), c, t, sp, f, succ) && f.left.Nil?
  {
    hide Linked, LinkedUp, Apart, ApartPath, RedBlack, Fits, Nodes, PathNodes, Inorder, Before, After, Height, Turned,
      CanTurn;
    ghost var v := View(root, S);
    DescendStart(v, c, t);
    succ := node.right;
    sp, f := Top, t.right;
    DescendChild(v, c, t, sp, f, succ);
    while succ.left != null
      invariant Descending(v, c, t, sp, f, succ) && succ in S && succ.left == Ptr(f.left)
      decreases f
    {
      DescendStep(v, c, t, sp, f, succ);
      sp, f := In(sp, L, succ, f.red, f.right), f.left;
      succ := succ.left;
      DescendChild(v, c, t, sp, f, succ);
    }
  }

  lemma {:induction false} TwoOrder(c: Path, t: Shape, sp: Path, f: Shape)
    requires t.Fork? && f.Fork? && f.left.Nil? && Before(sp) == [] && Inorder(t.right) == Inorder(f) + After(sp)
    ensures Whole(Over(sp, In(c, R, f.node, t.red, t.left)), f.right) == Without(c, t)
  {
    OverOrder(sp, In(c, R, f.node, t.red, t.left));
    assert Inorder(f) == [f.node] + Inorder(f.right);
  }

  lemma {:induction false} TwoNodes(c: Path, t: Shape, sp: Path, f: Shape)
    requires t.Fork? && f.Fork? && f.left.Nil?
    requires Apart(f) && ApartPath(Over(sp, In(c, R, t.node, t.red, t.left)))
    requires Nodes(f) !! PathNodes(Over(sp, In(c, R, t.node, t.red, t.left)))
    ensures t.node !in Nodes(f.right) + PathNodes(Over(sp, In(c, R, f.node, t.red, t.left)))
    ensures Nodes(f.right) + PathNodes(Over(sp, In(c, R, f.node, t.red, t.left))) <=
            Nodes(f) + PathNodes(Over(sp, In(c, R, t.node, t.red, t.left)))
    ensures f.node !in Nodes(f.right) + PathNodes(Over(sp, In(c, R, t.node, t.red, t.left)))
  {
    OverApart(sp, In(c, R, t.node, t.red, t.left));
    OverApart(sp, In(c, R, f.node, t.red, t.left));
  }

  /** The successor had no left child: it is spliced out, and then put where t's root was. */
  ghost function TwoDone(v: Mem, sp: Path, node: Node, succ: Node, k: Shape): Mem
    requires sp.In? ==> Known(v.cells, Ptr(k)) && Known(v.cells, sp.node)
    requires CanReplace(if sp.Top? then v else Switched(v, succ, Ptr(k), sp.node), node, succ, sp.In?)
  {
    Replaced(if sp.Top? then v else Switched(v, succ, Ptr(k), sp.node), node, succ, sp.In?)
  }

  lemma {:induction false} UnlinkTwoStep(v: Mem, S: set<Node>, c: Path, t: Shape, sp: Path, f: Shape, succ: Node)
    requires v.cells.Keys == S && Nodes(t) + PathNodes(c) <= S && t.Fork? && t.left.Fork?
    requires Descending(v, c, t, sp, f, succ) && f.left.Nil?
    ensures sp.In? ==> Known(v.cells, Ptr(f.right)) && Known(v.cells, sp.node)
    ensures CanReplace(if sp.Top? then v else Switched(v, succ, Ptr(f.right), sp.node), t.node, succ, sp.In?)
    ensures Unlinked(TwoDone(v, sp, t.node, succ, f.right), S, Over(sp, In(c, R, succ, t.red, t.left)), f.right,
                     Ptr(f.right), f.red, t.node)
    ensures Whole(Over(sp, In(c, R, succ, t.red, t.left)), f.right) == Without(c, t)
  {
    hide Linked, LinkedUp, Apart, ApartPath, Inorder, Before, After, Replaced, CanReplace, Switched, RedBlack;
    var b, b', k := In(c, R, t.node, t.red, t.left), In(c, R, succ, t.red, t.left), f.right;
    assert f == Join(L, Nil, succ, f.red, k);
    TwoOrder(c, t, sp, f);
    TwoNodes(c, t, sp, f);
    SpliceBalance(Over(sp, b), L, succ, f.red, k);
    OverFits(sp, b, b', Height(k), IsRed(k));
    OverFits(sp, b, b', Height(k) + 1, false);
    if sp.Top? {
      GraftDirect(v, c, t.node, t.red, t.left, succ, f.red, k);
    } else {
      Splice(v, Over(sp, b), L, succ, f.red, k);
      GraftAdopt(Switched(v, succ, Ptr(k), sp.node), sp, c, t.node, t.red, t.left, succ, k);
    }
  }

  lemma {:induction false} TwoFacts(v: Mem, c: Path, t: Shape, sp: Path, f: Shape, succ: Node)
    requires t.Fork? && Descending(v, c, t, sp, f, succ)
    ensures succ in v.cells && v.cells[succ].red == f.red && v.cells[succ].right == Ptr(f.right)
    ensures v.cells[succ].parent == ParentOf(sp, t.node) && (sp.In? ==> sp.node != t.node && sp.node in v.cells)
    ensures f.right.Fork? ==> f.right.node in v.cells && v.cells[f.right.node].parent == succ
  {
    var b := In(c, R, t.node, t.red, t.left);
    assert Linked(v.cells, f.right, v.cells[succ].right, succ);
    OverApart(sp, b);
    OverLinked(v.cells, sp, b, succ, v.top);
  }

  method TakePlace(node: Node, successor: Node, root: Root, adopt: bool, ghost S: set<Node>)
    requires CanReplace(View(root, S), node, successor, adopt)
    modifies root, S
    ensures View(root, S) == Replaced(old(View(root, S)), node, successor, adopt)
  {
    if adopt {
      successor.SetChild(R, node.right, S);
      successor.right.SetParent(successor, S);
    }
    ChangeChild(node, successor, node.parent, root, S);
    successor.SetChild(L, node.left, S);
    successor.left.SetParent(successor, S);
    successor.Paint(node.red, S);
  }

  /** The child has this parent already, so nothing changes. */
  method KeepParent(child: Node?, parent: Node, root: Root, ghost S: set<Node>)
    requires child != null ==> child in S && child.parent == parent
    modifies S
    ensures View(root, S) == old(View(root, S))
  {
    if child != null {
      child.SetParent(parent, S);
    }
  }

  method UnlinkTwo(node: Node, root: Root, ghost S: set<Node>, ghost c: Path, ghost t: Shape)
    returns (child: Node?, parent: Node?, red: bool, ghost c': Path, ghost k: Shape)
    requires Nodes(t) + PathNodes(c) <= S && t.Fork? && t.left.Fork? && t.right.Fork? && t.node == node && node in S
    requires At(View(root, S), c, t, node) && RedBlack(t) && Fits(c, Height(t), IsRed(t))
    modifies root, S
    ensures Unlinked(View(root, S), S, c', k, child, red, node)
    ensures parent == ParentOf(c', null) && Whole(c', k) == Without(c, t)
  {
    hide Linked, LinkedUp, Apart, ApartPath, RedBlack, Fits, Nodes, PathNodes, Inorder, Before, After, Height, Turned,
      CanTurn, At, Unlinked;
    hide Replaced, CanReplace, Switched;
    ghost var v := View(root, S);
    var successor;
    ghost var sp, f;
    successor, sp, f := FindSuccessor(node, root, S, c, t);
    TwoFacts(v, c, t, sp, f, successor);
    UnlinkTwoStep(v, S, c, t, sp, f, successor);
    c', k := Over(sp, In(c, R, successor, t.red, t.left)), f.right;
    red := successor.red;
    child := successor.right;
    parent := successor.parent;
    if parent == node {
      parent := successor;
      KeepParent(child, successor, root, S);
      TakePlace(node, successor, root, false, S);
    } else {
      ChangeChild(successor, child, parent, root, S);
      TakePlace(node, successor, root, true, S);
    }
  }

  // ---------------------------------------------------------------------------------------------
  // The interface: a tree is its in-order sequence
  // ---------------------------------------------------------------------------------------------

  /** The nodes S are linked below root as the red-black tree t. */
  ghost predicate Tree(root: Root, S: set<Node>, t: Shape)
    reads root, S
  {
    S == Nodes(t) && At(View(root, S), Top, t, root.node) && RedBlack(t) && !IsRed(t)
  }

  ghost function Elems(s: seq<Node>): set<Node> {
    set n | n in s
  }

  lemma ElemsConcat(a: seq<Node>, b: seq<Node>)
    ensures Elems(a + b) == Elems(a) + Elems(b)
  {
  }

  lemma {:induction false} InorderElems(t: Shape)
    ensures Elems(Inorder(t)) == Nodes(t)
  {
    if t.Fork? {
      InorderElems(t.left);
      InorderElems(t.right);
      ElemsConcat(Inorder(t.left), [t.node]);
      ElemsConcat(Inorder(t.left) + [t.node], Inorder(t.right));
    }
  }

  lemma {:induction false} PathElems(c: Path)
    ensures Elems(Before(c)) + Elems(After(c)) == PathNodes(c)
  {
    if c.In? {
      PathElems(c.up);
      InorderElems(c.sibling);
      if c.side.L? {
        ElemsConcat([c.node], Inorder(c.sibling));
        ElemsConcat([c.node] + Inorder(c.sibling), After(c.up));
      } else {
        ElemsConcat(Before(c.up), Inorder(c.sibling));
        ElemsConcat(Before(c.up) + Inorder(c.sibling), [c.node]);
      }
    }
  }

  lemma {:induction false} WithoutElems(c: Path, t: Shape)
    requires t.Fork? && Apart(t) && ApartPath(c) && Nodes(t) !! PathNodes(c)
    ensures Elems(Without(c, t)) == Nodes(t) + PathNodes(c) - {t.node}
  {
    PathElems(c);
    InorderElems(t.left);
    InorderElems(t.right);
    ElemsConcat(Before(c), Inorder(t.left));
    ElemsConcat(Before(c) + Inorder(t.left), Inorder(t.right));
    ElemsConcat(Before(c) + Inorder(t.left) + Inorder(t.right), After(c));
    assert t.node in Nodes(t) && Nodes(t) == Nodes(t.left) + {t.node} + Nodes(t.right);
  }

  /** Every node of a linked tree has a focus of its own. */
  lemma {:induction false} Locate(v: Mem, c: Path, t: Shape, p: Node?, n: Node) returns (c': Path, t': Shape)
    requires At(v, c, t, p) && n in Nodes(t)
    ensures t'.Fork? && t'.node == n && At(v, c', t', n)
    ensures Plug(c', t') == Plug(c, t) && Whole(c', t') == Whole(c, t)
    ensures Nodes(t') + PathNodes(c') == Nodes(t) + PathNodes(c)
    decreases t
  {
    if t.node == n {
      c', t' := c, t;
    } else {
      var s := if n in Nodes(t.left) then L else R;
      var c1, t1 := In(c, s, t.node, t.red, Kid(t, s.Flip())), Kid(t, s);
      assert Lift(c1, t1) == t;
      Down(v, c1, t1);
      Lifted(c1, t1);
      c', t' := Locate(v, c1, t1, Ptr(t1), n);
    }
  }

  /** Taking the focused node out of the in-order sequence. */
  lemma {:induction false} WithoutIndex(c: Path, t: Shape) returns (i: nat)
    requires t.Fork?
    ensures i == |Before(c)| + |Inorder(t.left)| < |Whole(c, t)| && Whole(c, t)[i] == t.node
    ensures Without(c, t) == Whole(c, t)[..i] + Whole(c, t)[i + 1..]
  {
    var b, l, r, a := Before(c), Inorder(t.left), Inorder(t.right), After(c);
    i := |b| + |l|;
    assert Inorder(t) == l + [t.node] + r;
    hide Before, After, Inorder;
    CutOut(b, l, t.node, r, a);
  }

  lemma CutOut(b: seq<Node>, l: seq<Node>, n: Node, r: seq<Node>, a: seq<Node>)
    ensures var w, i := b + (l + [n] + r) + a, |b| + |l|;
            w[i] == n && w[..i] == b + l && w[i + 1..] == r + a && b + l + r + a == w[..i] + w[i + 1..]
  {
  }

  method Unlink(node: Node, root: Root, ghost S: set<Node>, ghost c: Path, ghost t: Shape)
    returns (child: Node?, parent: Node?, red: bool, ghost c': Path, ghost k: Shape)
    requires Nodes(t) + PathNodes(c) <= S && t.Fork? && t.node == node && At(View(root, S), c, t, node)
    requires RedBlack(t) && Fits(c, Height(t), IsRed(t))
    modifies root, S
    ensures Unlinked(View(root, S), S, c', k, child, red, node)
    ensures parent == ParentOf(c', null) && Whole(c', k) == Without(c, t)
  {
    hide Linked, LinkedUp, Apart, ApartPath, RedBlack, Fits, Nodes, PathNodes, Inorder, Before, After, Height, Turned,
      CanTurn;
    NodeFacts(View(root, S), c, t);
    red := node.red;
    if node.left == null {
      child, parent, k := UnlinkOne(L, node, root, S, c, t);
      c' := c;
    } else if node.right == null {
      child, parent, k := UnlinkOne(R, node, root, S, c, t);
      c' := c;
    } else {
      child, parent, red, c', k := UnlinkTwo(node, root, S, c, t);
    }
  }

  lemma {:induction false} NodeFacts(v: Mem, c: Path, t: Shape)
    requires t.Fork? && At(v, c, t, t.node)
    ensures t.node in Nodes(t) && t.node in v.cells
    ensures v.cells[t.node] == Cell(ParentOf(c, null), Ptr(t.left), Ptr(t.right), t.red)
  {
    assert Linked(v.cells, t.left, v.cells[t.node].left, t.node);
    assert Linked(v.cells, t.right, v.cells[t.node].right, t.node);
  }

  lemma {:induction false} UnlinkedWhole(v: Mem, S: set<Node>, c: Path, k: Shape, child: Node?, node: Node)
    requires Unlinked(v, S, c, k, child, true, node)
    ensures At(v, Top, Plug(c, k), v.top)
    ensures RedBlack(Plug(c, k)) && !IsRed(Plug(c, k)) && Inorder(Plug(c, k)) == Whole(c, k)
  {
    ToTop(v, c, k, child);
    FitsPlugged(c, k);
    InorderPlugged(c, k);
  }

  /** A tree that does not hold the node is not affected by detaching it. */
  lemma {:induction false} Detached(v: Mem, w: Cells, S: set<Node>, whole: Shape, c: Path, t: Shape)
    requires At(v, Top, whole, v.top) && t.Fork? && Inorder(whole) == Without(c, t)
    requires Apart(t) && ApartPath(c) && Nodes(t) !! PathNodes(c) && Nodes(t) + PathNodes(c) == S
    requires Agree(v.cells, w, S - {t.node})
    ensures Nodes(whole) == S - {t.node} && At(Mem(w, v.top), Top, whole, v.top)
  {
    InorderElems(whole);
    WithoutElems(c, t);
    Frame(v.cells, w, whole, v.top, null);
  }

  lemma TopWhole(t: Shape)
    ensures Whole(Top, t) == Inorder(t)
  {
  }

  lemma PathNodesTop()
    ensures PathNodes(Top) == {}
  {
  }

  /** rb_erase on a focused node. */
  method EraseAt(node: Node, root: Root, ghost S: set<Node>, ghost c: Path, ghost t: Shape) returns (ghost whole: Shape)
    requires Nodes(t) + PathNodes(c) == S && t.Fork? && t.node == node && At(View(root, S), c, t, node)
    requires RedBlack(t) && Fits(c, Height(t), IsRed(t)) && node in S
    modifies root, S
    ensures Tree(root, S - {node}, whole) && Inorder(whole) == Without(c, t)
    ensures node.parent == node && node.left == null && node.right == null && !node.red
  {
    hide Linked, LinkedUp, Apart, ApartPath, RedBlack, Fits, Nodes, PathNodes, Inorder, Before, After, Height, Turned,
      CanTurn;
    var child, parent, red;
    ghost var c', k;
    child, parent, red, c', k := Unlink(node, root, S, c, t);
    if !red {
      whole := EraseFixup(child, parent, root, S, c', k);
    } else {
      UnlinkedWhole(View(root, S), S, c', k, child, node);
      whole := Plug(c', k);
    }
    ghost var v := View(root, S);
    node.left, node.right, node.red, node.parent := null, null, false, node;
    Detached(v, Snapshot(S - {node}), S, whole, c, t);
  }

  /** rb_erase: the in-order sequence loses exactly the one node, and the tree is red-black again. */
  method Erase(node: Node, root: Root, ghost S: set<Node>, ghost t: Shape) returns (ghost i: nat, ghost t': Shape)
    requires Tree(root, S, t) && node in S
    modifies root, S
    ensures Tree(root, S - {node}, t')
    ensures i < |Inorder(t)| && Inorder(t)[i] == node && Inorder(t') == Inorder(t)[..i] + Inorder(t)[i + 1..]
    ensures node.parent == node && node.left == null && node.right == null && !node.red
  {
    hide Linked, LinkedUp, Apart, ApartPath, RedBlack, Fits, Nodes, PathNodes, Inorder, Before, After, Height, Turned,
      CanTurn;
    ghost var c, f := Locate(View(root, S), Top, t, root.node, node);
    TopWhole(t);
    PluggedFits(c, f);
    PathNodesTop();
    i := WithoutIndex(c, f);
    t' := EraseAt(node, root, S, c, f);
  }

  /** The empty place on one side of a node, as a path. */
  lemma {:induction false} Gap(v: Mem, t: Shape, parent: Node, s: Side) returns (hole: Path, i: nat)
    requires At(v, Top, t, v.top) && RedBlack(t) && !IsRed(t)
    requires parent in Nodes(t) && parent in v.cells && v.cells[parent].Child(s) == null
    ensures At(v, hole, Nil, null) && Fits(hole, 0, false) && PathNodes(hole) == Nodes(t)
    ensures hole.In? && hole.node == parent && hole.side == s
    ensures i <= |Inorder(t)| && Before(hole) == Inorder(t)[..i] && After(hole) == Inorder(t)[i..]
    ensures if s.L? then i < |Inorder(t)| && Inorder(t)[i] == parent else 0 < i && Inorder(t)[i - 1] == parent
  {
    hide Linked, LinkedUp, Apart, ApartPath, Inorder, Before, After, Fits;
    var c, f := Locate(v, Top, t, v.top, parent);
    NodeFacts(v, c, f);
    hole := In(c, s, parent, f.red, Kid(f, s.Flip()));
    assert Kid(f, s) == Nil && Lift(hole, Nil) == f;
    Down(v, hole, Nil);
    Lifted(hole, Nil);
    PluggedFits(hole, Nil);
    TopWhole(t);
    i := GapIndex(hole, Inorder(t));
  }

  lemma {:induction false} GapIndex(hole: Path, order: seq<Node>) returns (i: nat)
    requires hole.In? && Whole(hole, Nil) == order
    ensures i <= |order| && Before(hole) == order[..i] && After(hole) == order[i..]
    ensures if hole.side.L? then i < |order| && order[i] == hole.node else 0 < i && order[i - 1] == hole.node
  {
    i := |Before(hole)|;
    assert order == Before(hole) + After(hole);
  }

  lemma {:induction false} LinkedLeaf(v: Mem, w: Mem, hole: Path, node: Node)
    requires At(v, hole, Nil, null) && node !in PathNodes(hole) && node in w.cells
    requires w.cells[node] == Cell(ParentOf(hole, null), null, null, true)
    requires if hole.Top? then w.top == node else
               && hole.node in w.cells && hole.node in v.cells && w.top == v.top
               && w.cells[hole.node] == v.cells[hole.node].WithChild(hole.side, node)
               && Agree(v.cells, w.cells, PathNodes(hole) - {hole.node})
    ensures At(w, hole, Fork(Nil, node, true, Nil), node)
  {
    Rehole(v, w, hole, null, node);
  }

  /** rb_link_node below a parent that has nothing on side s, or at the root of an empty tree. */
  method Link(node: Node, parent: Node?, s: Side, root: Root, ghost S: set<Node>, ghost hole: Path)
    requires node !in S && S == PathNodes(hole) && At(View(root, S), hole, Nil, null)
    requires parent == ParentOf(hole, null) && (hole.In? ==> hole.side == s && parent in S)
    modifies root, S, node
    ensures At(View(root, S + {node}), hole, Fork(Nil, node, true, Nil), node)
  {
    ghost var v := View(root, S);
    node.parent, node.left, node.right, node.red := parent, null, null, true;
    if parent == null {
      root.node := node;
    } else if s.L? {
      parent.left := node;
    } else {
      parent.right := node;
    }
    ghost var w := View(root, S + {node});
    LinkedLeaf(v, w, hole, node);
  }

  /** Linking and rb_insert_color: the in-order sequence gains exactly the one node, beside its parent. */
  method Insert(node: Node, parent: Node?, s: Side, root: Root, ghost S: set<Node>, ghost t: Shape)
    returns (ghost i: nat, ghost t': Shape)
    requires Tree(root, S, t) && node !in S
    requires if parent == null then root.node == null else parent in S && parent.Child(s) == null
    modifies root, S, node
    ensures Tree(root, S + {node}, t')
    ensures i <= |Inorder(t)| && Inorder(t') == Inorder(t)[..i] + [node] + Inorder(t)[i..]
    ensures parent != null ==>
              if s.L? then i < |Inorder(t)| && Inorder(t)[i] == parent else 0 < i && Inorder(t)[i - 1] == parent
  {
    hide Linked, LinkedUp, Apart, ApartPath, RedBlack, Fits, Nodes, PathNodes, Inorder, Before, After, Height, Turned,
      CanTurn;
    ghost var hole := Top;
    i := 0;
    if parent != null {
      hole, i := Gap(View(root, S), t, parent, s);
    } else {
      EmptyTree(View(root, S), t);
    }
    Link(node, parent, s, root, S, hole);
    t' := InsertColor(node, root, S + {node}, hole);
    InsertedNodes(t', hole, node);
  }

  lemma {:induction false} EmptyTree(v: Mem, t: Shape)
    requires At(v, Top, t, null)
    ensures t == Nil && Inorder(t) == [] && Nodes(t) == {} && At(v, Top, Nil, null) && Fits(Top, 0, false)
    ensures Before(Top) == [] == After(Top) && PathNodes(Top) == {}
  {
  }

  lemma {:induction false} InsertedNodes(t: Shape, hole: Path, node: Node)
    requires Inorder(t) == Before(hole) + [node] + After(hole)
    ensures Nodes(t) == PathNodes(hole) + {node}
  {
    InorderElems(t);
    PathElems(hole);
    ElemsConcat(Before(hole), [node]);
    ElemsConcat(Before(hole) + [node], After(hole));
  }

  // ---------------------------------------------------------------------------------------------
  // Walking
  // ---------------------------------------------------------------------------------------------

  /** The end of the in-order sequence on side s, and the neighbour of position i on that side. */
  ghost function End(s: Side, order: seq<Node>): Node? {
    if |order| == 0 then null else if s.L? then order[0] else order[|order| - 1]
  }

  ghost function Beside(s: Side, order: seq<Node>, i: nat): Node?
    requires i < |order|
  {
    if s.L? then (if i == 0 then null else order[i - 1]) else (if i + 1 == |order| then null else order[i + 1])
  }

  lemma {:induction false} EndStep(s: Side, t: Shape)
    requires t.Fork?
    ensures End(s, Inorder(t)) == if Kid(t, s).Fork? then End(s, Inorder(Kid(t, s))) else t.node
    ensures Kid(t, s).Fork? ==> Inorder(Kid(t, s)) != []
  {
    assert Kid(t, s).Fork? ==> Kid(t, s).node in Inorder(Kid(t, s));
  }

  /** The innermost loop of rb_first, rb_last, rb_next and rb_prev: follow one side to its end. */
  method Follow(s: Side, p: Node, root: Root, ghost S: set<Node>, ghost path: Path, ghost tree: Shape) returns (r: Node)
    requires tree.Fork? && At(View(root, S), path, tree, p)
    ensures r == End(s, Inorder(tree))
  {
    hide Linked, LinkedUp, Apart, ApartPath, Inorder, Before, After, Nodes, PathNodes;
    ghost var v, c, t := View(root, S), path, tree;
    NodeAt(v, c, t, p);
    r := p;
    while r.Child(s) != null
      invariant t.Fork? && t.node == r && At(v, c, t, r) && r in v.cells
      invariant v.cells[r] == Cell(ParentOf(c, null), Ptr(t.left), Ptr(t.right), t.red)
      invariant End(s, Inorder(t)) == End(s, Inorder(tree))
      decreases t
    {
      EndStep(s, t);
      ghost var c' := In(c, s, t.node, t.red, Kid(t, s.Flip()));
      assert Lift(c', Kid(t, s)) == t;
      Down(v, c', Kid(t, s));
      r := r.Child(s);
      c, t := c', Kid(t, s);
      NodeAt(v, c, t, r);
    }
    EndStep(s, t);
  }

  lemma {:induction false} NodeAt(v: Mem, c: Path, t: Shape, p: Node)
    requires t.Fork? && At(v, c, t, p)
    ensures t.node == p && p in v.cells && v.cells[p] == Cell(ParentOf(c, null), Ptr(t.left), Ptr(t.right), t.red)
  {
    NodeFacts(v, c, t);
  }

  /** rb_first (s is L) and rb_last (s is R). */
  method Extreme(s: Side, root: Root, ghost S: set<Node>, ghost t: Shape) returns (r: Node?)
    requires Tree(root, S, t)
    ensures r == End(s, Inorder(t))
  {
    r := root.node;
    if r != null {
      r := Follow(s, r, root, S, Top, t);
    }
  }

  /** Climbing out of a subtree on the far side of s leaves what lies beyond it on side s unchanged. */
  ghost function Beyond(s: Side, c: Path): seq<Node> {
    if s.L? then Before(c) else After(c)
  }

  lemma {:induction false} ClimbStep(v: Mem, c: Path, t: Shape, p: Node, s: Side)
    requires At(v, c, t, p) && t.Fork?
    ensures p in v.cells && v.cells[p].parent == ParentOf(c, null)
    ensures c.Top? ==> Beyond(s, c) == []
    ensures c.In? ==> c.node in v.cells && (v.cells[c.node].Child(s) == p <==> c.side == s)
    ensures c.In? && c.side == s ==> Beyond(s, c) == Beyond(s, c.up) && At(v, c.up, Lift(c, t), c.node)
    ensures c.In? && c.side != s ==> End(s.Flip(), Beyond(s, c)) == c.node
  {
    NodeAt(v, c, t, p);
    if c.In? {
      Sides(v, c, t, p);
      Up(v, c, t, p);
    }
  }

  lemma {:induction false} BesideSplit(s: Side, c: Path, t: Shape) returns (i: nat)
    requires t.Fork?
    ensures i == |Before(c)| + |Inorder(t.left)| < |Whole(c, t)| && Whole(c, t)[i] == t.node
    ensures Beside(s, Whole(c, t), i) ==
            if Kid(t, s).Fork? then End(s.Flip(), Inorder(Kid(t, s))) else End(s.Flip(), Beyond(s, c))
  {
    i := WithoutIndex(c, t);
    assert Kid(t, s).Fork? ==> Kid(t, s).node in Inorder(Kid(t, s));
    assert Whole(c, t) == Before(c) + Inorder(t.left) + [t.node] + Inorder(t.right) + After(c);
  }

  /** rb_next (s is R) and rb_prev (s is L) of a node that is in the tree; a detached node has no neighbour. */
  method Step(s: Side, node: Node?, root: Root, ghost S: set<Node>, ghost t: Shape) returns (r: Node?, ghost i: nat)
    requires Tree(root, S, t) && (node != null && node !in S ==> node.parent == node)
    ensures node == null || node !in S ==> r == null
    ensures node != null && node in S ==> i < |Inorder(t)| && Inorder(t)[i] == node && r == Beside(s, Inorder(t), i)
  {
    hide Linked, LinkedUp, Apart, ApartPath, Inorder, Before, After, Nodes, PathNodes, RedBlack;
    i := 0;
    if node == null || node.parent == node {
      if node != null && node in S {
        NotOwnParent(root, S, t, node);
      }
      return null, 0;
    }
    ghost var v := View(root, S);
    ghost var c, f := Locate(v, Top, t, root.node, node);
    TopWhole(t);
    i := BesideSplit(s, c, f);
    NodeAt(v, c, f, node);
    if node.Child(s) != null {
      ghost var c' := In(c, s, f.node, f.red, Kid(f, s.Flip()));
      assert Lift(c', Kid(f, s)) == f;
      Down(v, c', Kid(f, s));
      r := Follow(s.Flip(), node.Child(s), root, S, c', Kid(f, s));
      return;
    }
    var n: Node := node;
    r := n.parent;
    ghost var beyond := Beyond(s, c);
    ClimbStep(v, c, f, n, s);
    while r != null && n == r.Child(s)
      invariant f.Fork? && At(v, c, f, n) && r == ParentOf(c, null) && Beyond(s, c) == beyond && (r != null ==> r in S)
      decreases c
    {
      ClimbStep(v, c, f, n, s);
      c, f := c.up, Lift(c, f);
      n := r;
      ClimbStep(v, c, f, n, s);
      r := n.parent;
    }
    ClimbStep(v, c, f, n, s);
  }

  lemma {:induction false} NotOwnParent(root: Root, S: set<Node>, t: Shape, n: Node)
    requires Tree(root, S, t) && n in S
    ensures n.parent != n
  {
    var c, f := Locate(View(root, S), Top, t, root.node, n);
    NodeAt(View(root, S), c, f, n);
  }
}
