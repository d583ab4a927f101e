/** The VMA tree on the heap: vma_insert and vma_remove of mm/vma.c over the red-black tree of lib/rbtree.c.

    Vma works with a tree that is a value. Here the VMAs hang in the linked nodes of RbTree, and the descent of
    vma_insert follows pointers. Read in order, the heap holds what the value holds: an insertion puts the VMA in the
    same place, a removal takes the same one out.
 */
module VmaHeap {
  import opened Errno
  import Rb = RbTree
  import V = Vma

  /** The VMAs that these nodes are part of. */
  ghost function Vmas(of: map<Rb.Node, V.Vma>, ns: seq<Rb.Node>): (vs: seq<V.Vma>)
    requires forall n :: n in ns ==> n in of
    ensures |vs| == |ns| && forall i :: 0 <= i < |ns| ==> vs[i] == of[ns[i]]
  {
    seq(|ns|, i requires 0 <= i < |ns| => of[ns[i]])
  }

  /** What comes before a node in the order lies below its VMA, what comes behind it above. */
  lemma OrderAround(of: map<Rb.Node, V.Vma>, ns: seq<Rb.Node>, b: seq<Rb.Node>, n: Rb.Node, a: seq<Rb.Node>)
    requires ns == b + [n] + a && (forall x :: x in ns ==> x in of) && V.Ordered(Vmas(of, ns))
    ensures n in of && of[n].start < of[n].end
    ensures forall x :: x in b ==> x in of && of[x].end <= of[n].start
    ensures forall x :: x in a ==> x in of && of[n].end <= of[x].start
  {
    hide V.Aligned;
    var vs := Vmas(of, ns);
    assert ns[|b|] == n && vs[|b|].Proper();
    forall x | x in b ensures x in of && of[x].end <= of[n].start {
      var i :| 0 <= i < |b| && b[i] == x;
      assert ns[i] == x && vs[i].end <= vs[|b|].start;
    }
    forall x | x in a ensures x in of && of[n].end <= of[x].start {
      var i :| 0 <= i < |a| && a[i] == x;
      assert ns[|b| + 1 + i] == x && vs[|b|].end <= vs[|b| + 1 + i].start;
    }
  }

  /** The descent has come to the link p, which holds f; all before it ends below v, all behind it begins above. */
  ghost predicate Descent(of: map<Rb.Node, V.Vma>, v: V.Vma, mem: Rb.Mem, ns: seq<Rb.Node>, c: Rb.Path, f: Rb.Shape,
                          p: Rb.Node?)
  {
    && Rb.At(mem, c, f, p) && Rb.Whole(c, f) == ns
    && (forall n :: n in Rb.Before(c) ==> n in of && of[n].end <= v.start)
    && (forall n :: n in Rb.After(c) ==> n in of && v.end <= of[n].start)
  }

  /** The way down on one side of the node at the link. */
  ghost function Below(c: Rb.Path, f: Rb.Shape, s: Rb.Side): Rb.Path
    requires f.Fork?
  {
    Rb.In(c, s, f.node, f.red, if s.L? then f.right else f.left)
  }

  ghost function Kid(f: Rb.Shape, s: Rb.Side): Rb.Shape
    requires f.Fork?
  {
    if s.L? then f.left else f.right
  }

  lemma WholeAround(c: Rb.Path, f: Rb.Shape)
    requires f.Fork?
    ensures Rb.Whole(c, f) == (Rb.Before(c) + Rb.Inorder(f.left)) + [f.node] + (Rb.Inorder(f.right) + Rb.After(c))
    ensures Rb.Before(Below(c, f, Rb.L)) == Rb.Before(c)
    ensures Rb.After(Below(c, f, Rb.L)) == [f.node] + Rb.Inorder(f.right) + Rb.After(c)
    ensures Rb.Before(Below(c, f, Rb.R)) == Rb.Before(c) + Rb.Inorder(f.left) + [f.node]
    ensures Rb.After(Below(c, f, Rb.R)) == Rb.After(c)
  {
    var b, l, n, r, a := Rb.Before(c), Rb.Inorder(f.left), f.node, Rb.Inorder(f.right), Rb.After(c);
    assert Rb.Inorder(f) == l + [n] + r;
    assert b + (l + [n] + r) + a == (b + l) + [n] + (r + a);
  }

  lemma DescentBelow(of: map<Rb.Node, V.Vma>, v: V.Vma, mem: Rb.Mem, ns: seq<Rb.Node>, c: Rb.Path, f: Rb.Shape,
                     p: Rb.Node?, s: Rb.Side)
    requires Descent(of, v, mem, ns, c, f, p) && f.Fork? && (forall x :: x in ns ==> x in of)
    requires V.Ordered(Vmas(of, ns)) && f.node in of
    requires if s.L? then v.end <= of[f.node].start else v.start >= of[f.node].end
    ensures p == f.node && p in mem.cells
    ensures Descent(of, v, mem, ns, Below(c, f, s), Kid(f, s), mem.cells[p].Child(s))
  {
    hide V.Ordered, Rb.Inorder, Rb.Before, Rb.After;
    var d, k := Below(c, f, s), Kid(f, s);
    assert Rb.Lift(d, k) == f;
    LinkHolds(mem, c, f, p);
    Rb.Down(mem, d, k);
    Rb.LiftedOrder(d, k);
    WholeAround(c, f);
    OrderAround(of, ns, Rb.Before(c) + Rb.Inorder(f.left), f.node, Rb.Inorder(f.right) + Rb.After(c));
    hide Rb.At;
  }

  /** The link points at the root of what it holds. */
  lemma LinkHolds(mem: Rb.Mem, c: Rb.Path, f: Rb.Shape, p: Rb.Node?)
    requires Rb.At(mem, c, f, p)
    ensures p == Rb.Ptr(f) && (c.Top? ==> p == mem.top)
    ensures c.In? ==> c.node in mem.cells && mem.cells[c.node].Child(c.side) == p
  {
  }

  lemma DescentBegins(of: map<Rb.Node, V.Vma>, v: V.Vma, mem: Rb.Mem, t: Rb.Shape)
    requires Rb.At(mem, Rb.Top, t, mem.top)
    ensures Descent(of, v, mem, Rb.Inorder(t), Rb.Top, t, mem.top)
  {
    hide Rb.At;
    Rb.TopWhole(t);
  }

  lemma DescentFacts(of: map<Rb.Node, V.Vma>, v: V.Vma, mem: Rb.Mem, ns: seq<Rb.Node>, c: Rb.Path, f: Rb.Shape,
                     p: Rb.Node?)
    requires Descent(of, v, mem, ns, c, f, p)
    ensures p == Rb.Ptr(f) && (p != null ==> p in mem.cells && p in ns) && (c.Top? ==> p == mem.top)
    ensures c.In? ==> c.node in mem.cells && mem.cells[c.node].Child(c.side) == p
  {
    LinkHolds(mem, c, f, p);
    if f.Fork? {
      WholeAround(c, f);
    }
  }

  /** The descent is at an empty link: all VMAs before it lie below v, all behind it above. */
  lemma DescentEnds(of: map<Rb.Node, V.Vma>, v: V.Vma, mem: Rb.Mem, ns: seq<Rb.Node>, c: Rb.Path) returns (at: nat)
    requires Descent(of, v, mem, ns, c, Rb.Nil, null) && forall x :: x in ns ==> x in of
    ensures var vs := Vmas(of, ns);
      at <= |vs| && (forall i :: 0 <= i < at ==> vs[i].end <= v.start)
      && (forall i :: at <= i < |vs| ==> v.end <= vs[i].start)
    ensures c.Top? ==> ns == []
    ensures c.In? ==> if c.side.L? then at < |ns| && ns[at] == c.node else 0 < at <= |ns| && ns[at - 1] == c.node
  {
    var b, a := Rb.Before(c), Rb.After(c);
    at := |b|;
    assert ns == b + a;
    assert forall i :: 0 <= i < at ==> ns[i] == b[i] && b[i] in b;
    assert forall i :: at <= i < |ns| ==> ns[i] == a[i - at] && a[i - at] in a;
    if c.In? {
      if c.side.L? { assert a[0] == c.node; } else { assert b[|b| - 1] == c.node; }
    }
  }

  lemma InTheWay(of: map<Rb.Node, V.Vma>, ns: seq<Rb.Node>, n: Rb.Node, v: V.Vma) returns (i: nat)
    requires n in ns && (forall x :: x in ns ==> x in of) && V.Meets(of[n], v.start, v.end)
    ensures i < |ns| && V.Meets(Vmas(of, ns)[i], v.start, v.end)
  {
    i :| 0 <= i < |ns| && ns[i] == n;
  }

  /** A node joins the order. */
  lemma VmasInserted(of: map<Rb.Node, V.Vma>, ns: seq<Rb.Node>, at: nat, n: Rb.Node, v: V.Vma)
    requires at <= |ns| && n !in ns && forall x :: x in ns ==> x in of
    ensures var ms := ns[..at] + [n] + ns[at..];
      (forall x :: x in ms ==> x in of[n := v]) && Vmas(of[n := v], ms) == V.Inserted(Vmas(of, ns), at, v)
  {
  }

  /** A node leaves it. */
  lemma VmasRemoved(of: map<Rb.Node, V.Vma>, ns: seq<Rb.Node>, at: nat)
    requires at < |ns| && forall x :: x in ns ==> x in of
    ensures var ms := ns[..at] + ns[at + 1..];
      (forall x :: x in ms ==> x in of) && Vmas(of, ms) == V.Removed(Vmas(of, ns), at)
  {
  }

  /** The place beside a node, on one side of it, is one place: no two nodes have the same VMA. */
  lemma Beside(of: map<Rb.Node, V.Vma>, ns: seq<Rb.Node>, before: bool, i: nat, j: nat)
    requires (forall x :: x in ns ==> x in of) && V.Ordered(Vmas(of, ns))
    requires if before then i < |ns| && j < |ns| && ns[i] == ns[j]
             else 0 < i <= |ns| && 0 < j <= |ns| && ns[i - 1] == ns[j - 1]
    ensures i == j
  {
    hide V.Ordered;
    if before {
      V.Side(Vmas(of, ns), i, j);
    } else {
      V.Side(Vmas(of, ns), i - 1, j - 1);
    }
  }

  lemma OutsideOrder(root: Rb.Root, nodes: set<Rb.Node>, t: Rb.Shape, n: Rb.Node)
    requires Rb.Tree(root, nodes, t) && n !in nodes
    ensures n !in Rb.Inorder(t)
  {
    Rb.InorderElems(t);
    assert n in Rb.Inorder(t) ==> n in Rb.Elems(Rb.Inorder(t));
  }

  /** struct mm_struct's vma_tree; `of` leads from a node to the VMA that it is part of. */
  class Heap {
    const root: Rb.Root
    var of: map<Rb.Node, V.Vma>
    ghost var nodes: set<Rb.Node>
    ghost var shape: Rb.Shape

    ghost predicate Valid()
      reads this, root, nodes
    {
      && Rb.Tree(root, nodes, shape)
      && (forall n :: n in Rb.Inorder(shape) ==> n in of)
      && V.Ordered(Vmas(of, Rb.Inorder(shape)))
    }

    ghost function Contents(): seq<V.Vma>
      requires Valid()
      reads this, root, nodes
    {
      Vmas(of, Rb.Inorder(shape))
    }

    constructor ()
      ensures Valid() && Contents() == [] && nodes == {} && fresh(root)
    {
      root := new Rb.Root();
      of, nodes, shape := map[], {}, Rb.Nil;
    }

    /** The loop of vma_insert: the empty link where v belongs, or a VMA in the way. */
    method Descend(v: V.Vma) returns (free: bool, parent: Rb.Node?, s: Rb.Side, ghost at: nat)
      requires Valid() && v.start < v.end
      ensures free <==> forall i :: 0 <= i < |Contents()| ==> !V.Meets(Contents()[i], v.start, v.end)
      ensures free ==> if parent == null then root.node == null else parent in nodes && parent.Child(s) == null
      ensures free ==> at <= |Contents()|
                       && (forall i :: 0 <= i < at ==> Contents()[i].end <= v.start)
                       && (forall i :: at <= i < |Contents()| ==> v.end <= Contents()[i].start)
      ensures free && parent == null ==> Contents() == []
      ensures free && parent != null ==>
                if s.L? then at < |Contents()| && Rb.Inorder(shape)[at] == parent
                else 0 < at && Rb.Inorder(shape)[at - 1] == parent
    {
      hide V.Ordered, Rb.Inorder, Rb.Before, Rb.After, Rb.At, Rb.Whole, Descent;
      var link := root.node;
      parent, s := null, Rb.L;
      ghost var mem, ns := Rb.View(root, nodes), Rb.Inorder(shape);
      ghost var c, f := Rb.Top, shape;
      DescentBegins(of, v, mem, shape);
      while link != null
        invariant Descent(of, v, mem, ns, c, f, link)
        invariant parent == Rb.ParentOf(c, null) && (c.In? ==> s == c.side)
        decreases f
      {
        DescentFacts(of, v, mem, ns, c, f, link);
        parent := link;
        var queued := of[link];
        if v.end <= queued.start {
          s := Rb.L;
        } else if v.start >= queued.end {
          s := Rb.R;
        } else {
          ghost var i := InTheWay(of, ns, link, v);
          assert V.Meets(Contents()[i], v.start, v.end);
          return false, parent, s, 0;
        }
        DescentBelow(of, v, mem, ns, c, f, link, s);
        c, f := Below(c, f, s), Kid(f, s);
        link := parent.Child(s);
      }
      DescentFacts(of, v, mem, ns, c, f, link);
      free := true;
      at := DescentEnds(of, v, mem, ns, c);
    }

    /** vma_insert: refuses a VMA that is out of bounds or in the way of another, and otherwise enters it where it
        belongs; the tree is red-black again. */
    method Insert(node: Rb.Node, v: V.Vma) returns (r: Result<()>, ghost at: nat)
      requires Valid() && node !in nodes
      modifies this, root, nodes, node
      ensures Valid()
      ensures r.Err? ==> r.error in {EINVAL, EEXIST} && Contents() == old(Contents()) && nodes == old(nodes)
      ensures r == Err(EINVAL) <==> !v.Proper()
      ensures r == Err(EEXIST) <==> v.Proper() && exists i :: 0 <= i < |old(Contents())|
                                                              && V.Meets(old(Contents())[i], v.start, v.end)
      ensures r.Ok? ==> at <= |old(Contents())| && Contents() == V.Inserted(old(Contents()), at, v)
      ensures r.Ok? ==> nodes == old(nodes) + {node} && of == old(of)[node := v]
    {
      hide V.Ordered, Rb.Inorder, Rb.Tree, V.Inserted, V.Aligned;
      if !v.Proper() {
        return Err(EINVAL), 0;
      }
      var free, parent, s;
      free, parent, s, at := Descend(v);
      if !free {
        return Err(EEXIST), 0;
      }
      ghost var ns, vs := Rb.Inorder(shape), Contents();
      OutsideOrder(root, nodes, shape, node);
      ghost var i, t := Rb.Insert(node, parent, s, root, nodes, shape);
      if parent != null {
        Beside(of, ns, s.L?, i, at);
      }
      V.InsertedOrdered(vs, at, v);
      VmasInserted(of, ns, at, node, v);
      of := of[node := v];
      nodes, shape := nodes + {node}, t;
      r := Ok(());
    }

    /** vma_remove: takes out the VMA of the node, which ends up in no tree. */
    method Remove(node: Rb.Node) returns (ghost at: nat)
      requires Valid() && node in nodes
      modifies this, root, nodes
      ensures Valid() && nodes == old(nodes) - {node} && of == old(of)
      ensures at < |old(Contents())| && node in of && old(Contents())[at] == of[node]
      ensures Contents() == V.Removed(old(Contents()), at)
      ensures node.parent == node
    {
      hide V.Ordered, Rb.Inorder, Rb.Tree, V.Removed;
      ghost var ns, vs := Rb.Inorder(shape), Contents();
      ghost var i, t := Rb.Erase(node, root, nodes, shape);
      at := i;
      V.OrderedDrop(vs, at);
      VmasRemoved(of, ns, at);
      nodes, shape := nodes - {node}, t;
    }
  }

  /** The heap and the value go together: from the same VMAs, what Vma.Link gives for a new one and what the heap holds
      after vma_insert are the same. */
  lemma SameInsertion(vs: seq<V.Vma>, v: V.Vma, i: nat, j: nat)
    requires V.Ordered(vs) && v.Proper() && i <= |vs| && j <= |vs|
    requires (forall k :: 0 <= k < i ==> vs[k].end <= v.start) && (forall k :: i <= k < |vs| ==> v.end <= vs[k].start)
    requires V.Ordered(V.Inserted(vs, j, v))
    ensures V.Inserted(vs, i, v) == V.Inserted(vs, j, v)
  {
    hide V.Ordered, V.Aligned;
    V.InsertedOrdered(vs, i, v);
    V.InsertPlace(vs, i, j, v);
  }
}
