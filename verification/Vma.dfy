/** The interval map of an address space: mm/vma.c and mm/mmap.c.

    The source keeps VMAs in a red-black tree ordered by address. Here the tree has any shape; RbTree proves that
    linking plus rb_insert_color, and rb_erase, change the in-order sequence by exactly one node, and VmaHeap carries
    insertion and removal over to its heap. What a VMA tree means is its view: for each address the flags, the file, the
    position in the file, and whether the address is backed by it.
 */
module Vma {
  import opened Errno

  const PAGE: nat := 4096
  const UVADDR_START: nat := 0x10000
  const UVADDR_END: nat := 0x4000000000
  const USTACK_TOP: nat := UVADDR_END - 2 * PAGE
  /** VM_READ | VM_WRITE | VM_EXEC */
  const VM_ALL: nat := 7

  predicate Aligned(x: nat) {
    x % PAGE == 0
  }

  type File = nat

  datatype Vma = Vma(start: nat, end: nat, flags: nat, file: Option<File>, offset: nat, fstart: nat, fend: nat)
  {
    predicate Has(x: nat) {
      start <= x < end
    }

    /** What vma_insert demands of a VMA. */
    predicate Proper() {
      UVADDR_START <= start < end <= UVADDR_END && Aligned(start) && Aligned(end) && flags <= VM_ALL
    }
  }

  /** What an address of a VMA is: its flags, and its file with the position and whether the file backs the address. */
  datatype Info = Info(flags: nat, file: Option<(File, nat, bool)>)

  function InfoAt(v: Vma, x: nat): Info
    requires v.Has(x)
  {
    Info(v.flags, if v.file.None? then None else Some((v.file.value, v.offset + (x - v.start), v.fstart <= x < v.fend)))
  }

  datatype Tree = Nil | Node(left: Tree, vma: Vma, right: Tree)

  function Inorder(t: Tree): seq<Vma> {
    if t.Nil? then [] else Inorder(t.left) + [t.vma] + Inorder(t.right)
  }

  function View(vs: seq<Vma>, x: nat): Option<Info> {
    if vs == [] then None
    else if vs[0].Has(x) then Some(InfoAt(vs[0], x))
    else View(vs[1..], x)
  }

  ghost predicate Ordered(vs: seq<Vma>) {
    && (forall i :: 0 <= i < |vs| ==> vs[i].Proper())
    && (forall i, j :: 0 <= i < j < |vs| ==> vs[i].end <= vs[j].start)
  }

  // ---------------------------------------------------------------------------------------------
  // The view of a sequence
  // ---------------------------------------------------------------------------------------------

  lemma {:induction false} ViewAppend(a: seq<Vma>, b: seq<Vma>, x: nat)
    ensures View(a + b, x) == if View(a, x).Some? then View(a, x) else View(b, x)
  {
    if a == [] {
      assert a + b == b;
    } else {
      ViewAppend(a[1..], b, x);
      assert (a + b)[1..] == a[1..] + b;
    }
  }

  lemma {:induction false} ViewNone(vs: seq<Vma>, x: nat)
    ensures View(vs, x).None? <==> forall i :: 0 <= i < |vs| ==> !vs[i].Has(x)
  {
    if vs != [] {
      ViewNone(vs[1..], x);
      assert forall i :: 0 <= i < |vs[1..]| ==> vs[1..][i] == vs[i + 1];
      if !vs[0].Has(x) && View(vs, x).None? {
        forall i | 0 <= i < |vs| ensures !vs[i].Has(x) {
          if i > 0 { assert vs[i] == vs[1..][i - 1]; }
        }
      }
    }
  }

  lemma {:induction false} ViewAt(vs: seq<Vma>, i: nat, x: nat)
    requires Ordered(vs) && i < |vs| && vs[i].Has(x)
    ensures View(vs, x) == Some(InfoAt(vs[i], x))
  {
    if i > 0 {
      assert vs[0].end <= vs[i].start;
      ViewAt(vs[1..], i - 1, x);
    }
  }

  /** One VMA in the middle of others decides its own addresses and no other. */
  lemma ViewMiddle(a: seq<Vma>, v: Vma, b: seq<Vma>, x: nat)
    requires Ordered(a + [v] + b)
    ensures View(a + [v] + b, x) == if v.Has(x) then Some(InfoAt(v, x)) else View(a + b, x)
    ensures v.Has(x) ==> View(a + b, x) == None
  {
    var vs := a + [v] + b;
    assert vs[|a|] == v;
    ViewAppend(a + [v], b, x);
    ViewAppend(a, [v], x);
    ViewAppend(a, b, x);
    if v.Has(x) {
      ViewAt(vs, |a|, x);
      assert forall i :: 0 <= i < |a| ==> a[i] == vs[i];
      assert forall i :: 0 <= i < |b| ==> b[i] == vs[|a| + 1 + i];
      ViewNone(a, x);
      ViewNone(b, x);
    }
  }

  // ---------------------------------------------------------------------------------------------
  // Descending the tree
  // ---------------------------------------------------------------------------------------------

  /** A subtree holds a contiguous stretch of the in-order sequence. */
  lemma Window(vs: seq<Vma>, t: Tree, lo: nat, hi: nat) returns (m: nat)
    requires t.Node? && lo <= hi <= |vs| && Inorder(t) == vs[lo..hi]
    ensures lo <= m < hi && vs[m] == t.vma
    ensures Inorder(t.left) == vs[lo..m] && Inorder(t.right) == vs[m + 1..hi]
  {
    var l, r := Inorder(t.left), Inorder(t.right);
    m := lo + |l|;
    var s := vs[lo..hi];
    assert s == l + [t.vma] + r;
    assert s[|l|] == t.vma && s[..|l|] == l && s[|l| + 1..] == r;
  }

  /** vma_find. */
  method Find(t: Tree, x: nat) returns (r: Option<Vma>)
    requires Ordered(Inorder(t))
    ensures r.Some? ==> r.value in Inorder(t) && r.value.Has(x)
    ensures r.None? <==> View(Inorder(t), x).None?
  {
    hide Inorder, View;
    var node := t;
    ghost var vs := Inorder(t);
    ghost var lo, hi := 0, |vs|;
    ViewNone(vs, x);
    while node.Node?
      invariant 0 <= lo <= hi <= |vs| && Inorder(node) == vs[lo..hi]
      invariant forall i :: 0 <= i < |vs| && vs[i].Has(x) ==> lo <= i < hi
      decreases node
    {
      var v := node.vma;
      ghost var m := Window(vs, node, lo, hi);
      if x < v.start {
        node := node.left;
        hi := m;
      } else if x >= v.end {
        node := node.right;
        lo := m + 1;
      } else {
        return Some(v);
      }
    }
    NilEmpty(node);
    return None;
  }

  lemma NilEmpty(t: Tree)
    requires t.Nil?
    ensures Inorder(t) == []
  {
  }

  predicate Meets(v: Vma, start: nat, end: nat) {
    v.start < end && start < v.end
  }

  /** The first VMA that meets a range is at `at`; all below it end before the range. */
  ghost predicate FirstMeets(ws: seq<Vma>, start: nat, end: nat, r: Option<Vma>, at: nat) {
    && at <= |ws| && (forall i :: 0 <= i < at ==> ws[i].end <= start)
    && (r.None? ==> forall i :: at <= i < |ws| ==> end <= ws[i].start)
    && (r.Some? ==> at < |ws| && ws[at] == r.value && Meets(r.value, start, end))
  }

  /** vma_find_intersection: the lowest VMA that meets the range. */
  method FindIntersection(t: Tree, start: nat, end: nat) returns (r: Option<Vma>, ghost at: nat)
    requires Ordered(Inorder(t)) && start < end
    ensures FirstMeets(Inorder(t), start, end, r, at)
  {
    hide Inorder;
    var node := t;
    r := None;
    ghost var vs := Inorder(t);
    ghost var lo, hi := 0, |vs|;
    while node.Node?
      invariant 0 <= lo <= hi <= |vs| && Inorder(node) == vs[lo..hi]
      invariant forall i :: 0 <= i < lo ==> vs[i].end <= start
      invariant r.Some? ==> hi < |vs| && vs[hi] == r.value && Meets(r.value, start, end)
      invariant r.None? ==> forall i :: hi <= i < |vs| ==> end <= vs[i].start
      decreases node
    {
      var v := node.vma;
      ghost var m := Window(vs, node, lo, hi);
      if start >= v.end {
        node := node.right;
        lo := m + 1;
      } else {
        if v.start < end {
          r := Some(v);
        }
        node := node.left;
        hi := m;
      }
    }
    NilEmpty(node);
    at := hi;
  }

  // ---------------------------------------------------------------------------------------------
  // Linking and unlinking
  // ---------------------------------------------------------------------------------------------

  /** The way from the root to a link. */
  datatype Path = Top | Left(up: Path, vma: Vma, right: Tree) | Right(up: Path, left: Tree, vma: Vma)

  function Plug(p: Path, t: Tree): Tree {
    match p
    case Top => t
    case Left(up, v, r) => Plug(up, Node(t, v, r))
    case Right(up, l, v) => Plug(up, Node(l, v, t))
  }

  ghost function PreOf(p: Path): seq<Vma> {
    match p
    case Top => []
    case Left(up, _, _) => PreOf(up)
    case Right(up, l, v) => PreOf(up) + Inorder(l) + [v]
  }

  ghost function PostOf(p: Path): seq<Vma> {
    match p
    case Top => []
    case Left(up, v, r) => [v] + Inorder(r) + PostOf(up)
    case Right(up, _, _) => PostOf(up)
  }

  lemma Regroup(a: seq<Vma>, b: seq<Vma>, v: Vma, c: seq<Vma>, d: seq<Vma>)
    ensures a + (b + [v] + c) + d == a + b + ([v] + c + d)
    ensures a + (b + [v] + c) + d == (a + b + [v]) + c + d
  {
  }

  lemma {:induction false} PlugInorder(p: Path, t: Tree)
    ensures Inorder(Plug(p, t)) == PreOf(p) + Inorder(t) + PostOf(p)
  {
    match p
    case Top =>
    case Left(up, v, r) =>
      PlugInorder(up, Node(t, v, r));
      assert Inorder(Node(t, v, r)) == Inorder(t) + [v] + Inorder(r);
      Regroup(PreOf(up), Inorder(t), v, Inorder(r), PostOf(up));
    case Right(up, l, v) =>
      PlugInorder(up, Node(l, v, t));
      assert Inorder(Node(l, v, t)) == Inorder(l) + [v] + Inorder(t);
      Regroup(PreOf(up), Inorder(l), v, Inorder(t), PostOf(up));
  }

  ghost function Inserted(vs: seq<Vma>, i: nat, v: Vma): seq<Vma>
    requires i <= |vs|
  {
    vs[..i] + [v] + vs[i..]
  }

  ghost function Removed(vs: seq<Vma>, i: nat): seq<Vma>
    requires i < |vs|
  {
    vs[..i] + vs[i + 1..]
  }

  /** The descent has come to the subtree between lo and hi; all before it ends below v, all behind it begins above. */
  ghost predicate Descent(vs: seq<Vma>, v: Vma, node: Tree, path: Path, lo: nat, hi: nat) {
    && lo <= hi <= |vs| && Inorder(node) == vs[lo..hi] && PreOf(path) == vs[..lo] && PostOf(path) == vs[hi..]
    && (forall i :: 0 <= i < lo ==> vs[i].end <= v.start)
    && (forall i :: hi <= i < |vs| ==> v.end <= vs[i].start)
  }

  lemma DescentLeft(vs: seq<Vma>, v: Vma, node: Tree, path: Path, lo: nat, hi: nat, m: nat)
    requires Ordered(vs) && Descent(vs, v, node, path, lo, hi) && node.Node? && v.end <= node.vma.start
    requires lo <= m < hi && vs[m] == node.vma && Inorder(node.left) == vs[lo..m]
    requires Inorder(node.right) == vs[m + 1..hi]
    ensures Descent(vs, v, node.left, Left(path, node.vma, node.right), lo, m)
  {
    hide PreOf, PostOf, Inorder, Aligned;
    LeftEnds(path, node.vma, node.right, vs, lo, m, hi);
    assert forall i :: m < i < |vs| ==> vs[m].end <= vs[i].start;
  }

  lemma DescentRight(vs: seq<Vma>, v: Vma, node: Tree, path: Path, lo: nat, hi: nat, m: nat)
    requires Ordered(vs) && Descent(vs, v, node, path, lo, hi) && node.Node? && v.start >= node.vma.end
    requires lo <= m < hi && vs[m] == node.vma && Inorder(node.left) == vs[lo..m]
    requires Inorder(node.right) == vs[m + 1..hi]
    ensures Descent(vs, v, node.right, Right(path, node.left, node.vma), m + 1, hi)
  {
    hide PreOf, PostOf, Inorder, Aligned;
    RightEnds(path, node.left, node.vma, vs, lo, m, hi);
    assert forall i :: 0 <= i < m ==> vs[i].end <= vs[m].start;
  }

  lemma DescentEnds(vs: seq<Vma>, v: Vma, path: Path, lo: nat, hi: nat)
    requires Ordered(vs) && Descent(vs, v, Nil, path, lo, hi) && v.start < v.end
    ensures lo <= |vs| && Inorder(Plug(path, Node(Nil, v, Nil))) == Inserted(vs, lo, v)
    ensures forall i :: 0 <= i < lo ==> vs[i].end <= v.start
    ensures forall i :: lo <= i < |vs| ==> v.end <= vs[i].start
    ensures forall i :: 0 <= i < |vs| ==> !Meets(vs[i], v.start, v.end)
  {
    PlugInorder(path, Node(Nil, v, Nil));
    SingleInorder(v);
    assert hi == lo;
  }

  /** vma_insert's descent: the place for v, or a VMA in the way. */
  method Link(t: Tree, v: Vma) returns (r: Option<Tree>, ghost at: nat)
    requires Ordered(Inorder(t)) && v.start < v.end
    ensures r.None? <==> exists i :: 0 <= i < |Inorder(t)| && Meets(Inorder(t)[i], v.start, v.end)
    ensures r.Some? ==> at <= |Inorder(t)| && Inorder(r.value) == Inserted(Inorder(t), at, v)
    ensures r.Some? ==> (forall i :: 0 <= i < at ==> Inorder(t)[i].end <= v.start)
                        && (forall i :: at <= i < |Inorder(t)| ==> v.end <= Inorder(t)[i].start)
  {
    hide Inorder, Plug, Descent, Inserted;
    var node, path := t, Top;
    ghost var vs := Inorder(t);
    ghost var lo: nat, hi: nat := 0, |vs|;
    DescentBegins(t, v);
    at := 0;
    while node.Node?
      invariant Descent(vs, v, node, path, lo, hi)
      decreases node
    {
      var q := node.vma;
      DescentWindow(vs, v, node, path, lo, hi);
      ghost var m := Window(vs, node, lo, hi);
      if v.end <= q.start {
        DescentLeft(vs, v, node, path, lo, hi, m);
        path := Left(path, q, node.right);
        node := node.left;
        hi := m;
      } else if v.start >= q.end {
        DescentRight(vs, v, node, path, lo, hi, m);
        path := Right(path, node.left, q);
        node := node.right;
        lo := m + 1;
      } else {
        assert Meets(vs[m], v.start, v.end);
        return None, 0;
      }
    }
    DescentEnds(vs, v, path, lo, hi);
    return Some(Plug(path, Node(Nil, v, Nil))), lo;
  }

  lemma DescentBegins(t: Tree, v: Vma)
    ensures Descent(Inorder(t), v, t, Top, 0, |Inorder(t)|)
  {
  }

  lemma DescentWindow(vs: seq<Vma>, v: Vma, node: Tree, path: Path, lo: nat, hi: nat)
    requires Descent(vs, v, node, path, lo, hi)
    ensures lo <= hi <= |vs| && Inorder(node) == vs[lo..hi]
  {
  }

  lemma SingleInorder(v: Vma)
    ensures Inorder(Node(Nil, v, Nil)) == [v]
  {
  }

  lemma LeftEnds(p: Path, v: Vma, r: Tree, vs: seq<Vma>, lo: nat, m: nat, hi: nat)
    requires lo <= m < hi <= |vs| && PreOf(p) == vs[..lo] && PostOf(p) == vs[hi..]
    requires vs[m] == v && Inorder(r) == vs[m + 1..hi]
    ensures PreOf(Left(p, v, r)) == vs[..lo] && PostOf(Left(p, v, r)) == vs[m..]
  {
  }

  lemma RightEnds(p: Path, l: Tree, v: Vma, vs: seq<Vma>, lo: nat, m: nat, hi: nat)
    requires lo <= m < hi <= |vs| && PreOf(p) == vs[..lo] && PostOf(p) == vs[hi..]
    requires vs[m] == v && Inorder(l) == vs[lo..m]
    ensures PreOf(Right(p, l, v)) == vs[..m + 1] && PostOf(Right(p, l, v)) == vs[hi..]
  {
  }

  function Join(l: Tree, r: Tree): Tree {
    if l.Nil? then r else Node(l.left, l.vma, Join(l.right, r))
  }

  lemma {:induction false} JoinInorder(l: Tree, r: Tree)
    ensures Inorder(Join(l, r)) == Inorder(l) + Inorder(r)
  {
    if l.Node? {
      JoinInorder(l.right, r);
      assert Inorder(l.left) + [l.vma] + (Inorder(l.right) + Inorder(r)) == Inorder(l) + Inorder(r);
    }
  }

  /** The tree without one node; the shape rb_erase gives it is not modelled here. */
  function Without(t: Tree, v: Vma): Tree {
    if t.Nil? then Nil
    else if v == t.vma then Join(t.left, t.right)
    else if v.start < t.vma.start then Node(Without(t.left, v), t.vma, t.right)
    else Node(t.left, t.vma, Without(t.right, v))
  }

  /** The tree with the flags of one VMA changed in place. */
  function Reflagged(t: Tree, v: Vma, flags: nat): Tree {
    if t.Nil? then Nil
    else if v == t.vma then t.(vma := v.(flags := flags))
    else if v.start < t.vma.start then t.(left := Reflagged(t.left, v, flags))
    else t.(right := Reflagged(t.right, v, flags))
  }

  /** On which side of a node an element is. */
  lemma Side(vs: seq<Vma>, m: nat, i: nat)
    requires Ordered(vs) && m < |vs| && i < |vs|
    ensures vs[i] == vs[m] <==> i == m
    ensures vs[i].start < vs[m].start <==> i < m
  {
    if i < m { assert vs[i].end <= vs[m].start; }
    if m < i { assert vs[m].end <= vs[i].start; }
  }

  lemma OrderedSlice(vs: seq<Vma>, lo: nat, hi: nat)
    requires Ordered(vs) && lo <= hi <= |vs|
    ensures Ordered(vs[lo..hi])
  {
  }

  lemma RemovedLeft(l: seq<Vma>, v: Vma, r: seq<Vma>, i: nat)
    requires i < |l|
    ensures Removed(l + [v] + r, i) == Removed(l, i) + [v] + r
  {
  }

  lemma RemovedRight(l: seq<Vma>, v: Vma, r: seq<Vma>, i: nat)
    requires i < |r|
    ensures Removed(l + [v] + r, |l| + 1 + i) == l + [v] + Removed(r, i)
  {
  }

  lemma RemovedMiddle(l: seq<Vma>, v: Vma, r: seq<Vma>)
    ensures Removed(l + [v] + r, |l|) == l + r
  {
  }

  lemma {:induction false} WithoutInorder(t: Tree, v: Vma, i: nat)
    requires Ordered(Inorder(t)) && i < |Inorder(t)| && Inorder(t)[i] == v
    ensures Inorder(Without(t, v)) == Removed(Inorder(t), i)
  {
    hide Ordered, Removed;
    var vs := Inorder(t);
    var l, r := Inorder(t.left), Inorder(t.right);
    var m := Window(vs, t, 0, |vs|);
    Side(vs, m, i);
    OrderedSlice(vs, 0, m);
    OrderedSlice(vs, m + 1, |vs|);
    if i == m {
      JoinInorder(t.left, t.right);
      RemovedMiddle(l, v, r);
    } else if i < m {
      WithoutInorder(t.left, v, i);
      RemovedLeft(l, t.vma, r, i);
    } else {
      WithoutInorder(t.right, v, i - m - 1);
      RemovedRight(l, t.vma, r, i - m - 1);
    }
  }

  lemma ReplaceLeft(l: seq<Vma>, v: Vma, r: seq<Vma>, i: nat, w: Vma)
    requires i < |l|
    ensures (l + [v] + r)[i := w] == l[i := w] + [v] + r
  {
  }

  lemma ReplaceRight(l: seq<Vma>, v: Vma, r: seq<Vma>, i: nat, w: Vma)
    requires i < |r|
    ensures (l + [v] + r)[|l| + 1 + i := w] == l + [v] + r[i := w]
  {
  }

  lemma {:induction false} ReflaggedInorder(t: Tree, v: Vma, flags: nat, i: nat)
    requires Ordered(Inorder(t)) && i < |Inorder(t)| && Inorder(t)[i] == v
    ensures Inorder(Reflagged(t, v, flags)) == Inorder(t)[i := v.(flags := flags)]
  {
    hide Ordered;
    var vs := Inorder(t);
    var l, r := Inorder(t.left), Inorder(t.right);
    var m := Window(vs, t, 0, |vs|);
    Side(vs, m, i);
    OrderedSlice(vs, 0, m);
    OrderedSlice(vs, m + 1, |vs|);
    var w := v.(flags := flags);
    if i == m {
      assert vs[i := w] == l + [w] + r;
    } else if i < m {
      ReflaggedInorder(t.left, v, flags, i);
      ReplaceLeft(l, t.vma, r, i, w);
    } else {
      ReflaggedInorder(t.right, v, flags, i - m - 1);
      ReplaceRight(l, t.vma, r, i - m - 1, w);
    }
  }

  // ---------------------------------------------------------------------------------------------
  // Splitting, unmapping and protecting, on the in-order sequence
  // ---------------------------------------------------------------------------------------------

  function Max(a: nat, b: nat): nat {
    if a < b then b else a
  }

  function Min(a: nat, b: nat): nat {
    if a < b then a else b
  }

  function LeftOf(v: Vma, a: nat): Vma {
    var w := v.(end := a);
    if v.file.None? then w else w.(fstart := Min(a, v.fstart), fend := Min(a, v.fend))
  }

  function RightOf(v: Vma, a: nat): Vma
    requires v.start <= a
  {
    var w := v.(start := a);
    if v.file.None? then w
    else w.(offset := v.offset + (a - v.start), fstart := Max(a, v.fstart), fend := Max(a, v.fend))
  }

  ghost function SplitAt(vs: seq<Vma>, i: nat, a: nat): seq<Vma>
    requires i < |vs| && vs[i].start <= a
  {
    vs[..i] + [LeftOf(vs[i], a), RightOf(vs[i], a)] + vs[i + 1..]
  }

  /** Both halves of a split VMA say of each address what the whole said. */
  lemma HalvesAgree(v: Vma, a: nat, x: nat)
    requires v.start < a < v.end && v.Has(x)
    ensures x < a ==> LeftOf(v, a).Has(x) && InfoAt(LeftOf(v, a), x) == InfoAt(v, x)
    ensures x >= a ==> RightOf(v, a).Has(x) && InfoAt(RightOf(v, a), x) == InfoAt(v, x)
  {
  }

  lemma SplitOrdered(vs: seq<Vma>, i: nat, a: nat)
    requires Ordered(vs) && i < |vs| && vs[i].start < a < vs[i].end && Aligned(a)
    ensures Ordered(SplitAt(vs, i, a))
  {
  }

  /** A split changes nothing at any address. */
  lemma SplitView(vs: seq<Vma>, i: nat, a: nat, x: nat)
    requires Ordered(vs) && i < |vs| && vs[i].start < a < vs[i].end && Aligned(a)
    ensures View(SplitAt(vs, i, a), x) == View(vs, x)
  {
    hide View, LeftOf, RightOf;
    var ws := SplitAt(vs, i, a);
    var l, r := LeftOf(vs[i], a), RightOf(vs[i], a);
    SplitOrdered(vs, i, a);
    assert vs == vs[..i] + [vs[i]] + vs[i + 1..];
    ViewMiddle(vs[..i], vs[i], vs[i + 1..], x);
    assert ws == vs[..i] + [l] + ([r] + vs[i + 1..]);
    ViewMiddle(vs[..i], l, [r] + vs[i + 1..], x);
    assert vs[..i] + ([r] + vs[i + 1..]) == vs[..i] + [r] + vs[i + 1..];
    OrderedDrop(ws, i);
    assert Removed(ws, i) == vs[..i] + [r] + vs[i + 1..];
    ViewMiddle(vs[..i], r, vs[i + 1..], x);
    HalfBounds(vs[i], a);
    if vs[i].Has(x) { HalvesAgree(vs[i], a, x); }
  }

  lemma HalfBounds(v: Vma, a: nat)
    requires v.start <= a
    ensures LeftOf(v, a).start == v.start && LeftOf(v, a).end == a
    ensures RightOf(v, a).start == a && RightOf(v, a).end == v.end
  {
  }

  lemma OrderedDrop(vs: seq<Vma>, i: nat)
    requires Ordered(vs) && i < |vs|
    ensures Ordered(Removed(vs, i))
  {
  }

  /** No VMA crosses either end of the range: those from lo to hi lie in it, the others outside. */
  ghost predicate Cut(vs: seq<Vma>, lo: nat, hi: nat, start: nat, end: nat) {
    && lo <= hi <= |vs|
    && (forall i :: 0 <= i < lo ==> vs[i].end <= start)
    && (forall i :: lo <= i < hi ==> start <= vs[i].start && vs[i].end <= end)
    && (forall i :: hi <= i < |vs| ==> end <= vs[i].start)
  }

  /** Dropping the VMAs of a cut range empties exactly that range. */
  lemma UnmapView(vs: seq<Vma>, lo: nat, hi: nat, start: nat, end: nat, x: nat)
    requires Ordered(vs) && Cut(vs, lo, hi, start, end)
    ensures View(vs[..lo] + vs[hi..], x) == if start <= x < end then None else View(vs, x)
  {
    hide View;
    assert vs == vs[..lo] + vs[lo..hi] + vs[hi..];
    ViewAppend(vs[..lo] + vs[lo..hi], vs[hi..], x);
    ViewAppend(vs[..lo], vs[lo..hi], x);
    ViewAppend(vs[..lo], vs[hi..], x);
    if start <= x < end {
      ViewNone(vs[..lo], x);
      ViewNone(vs[hi..], x);
    } else {
      ViewNone(vs[lo..hi], x);
    }
  }

  /** The VMAs from lo to hi got new flags. */
  ghost predicate Changed(vs: seq<Vma>, ws: seq<Vma>, lo: nat, hi: nat, flags: nat) {
    && |ws| == |vs|
    && (forall i :: 0 <= i < |vs| ==> ws[i] == if lo <= i < hi then vs[i].(flags := flags) else vs[i])
  }

  function WithFlags(o: Option<Info>, flags: nat): Option<Info> {
    if o.None? then None else Some(o.value.(flags := flags))
  }

  /** New flags on a run of VMAs without a hole change exactly the flags of its addresses. */
  lemma ProtectView(vs: seq<Vma>, ws: seq<Vma>, lo: nat, hi: nat, flags: nat, start: nat, top: nat, x: nat)
    requires Ordered(vs) && flags <= VM_ALL && Changed(vs, ws, lo, hi, flags) && Cut(vs, lo, hi, start, top)
    ensures View(ws, x) == if start <= x < top then WithFlags(View(vs, x), flags) else View(vs, x)
  {
    hide View, Aligned;
    ViewNone(vs, x);
    ViewNone(ws, x);
    if i :| 0 <= i < |vs| && vs[i].Has(x) {
      ViewAt(vs, i, x);
      ChangedOrdered(vs, ws, lo, hi, flags);
      ViewAt(ws, i, x);
    }
  }

  lemma ChangedOrdered(vs: seq<Vma>, ws: seq<Vma>, lo: nat, hi: nat, flags: nat)
    requires Ordered(vs) && flags <= VM_ALL && Changed(vs, ws, lo, hi, flags)
    ensures Ordered(ws)
  {
    hide Aligned;
  }

  lemma InsertedOrdered(vs: seq<Vma>, at: nat, v: Vma)
    requires Ordered(vs) && at <= |vs| && v.Proper()
    requires forall i :: 0 <= i < at ==> vs[i].end <= v.start
    requires forall i :: at <= i < |vs| ==> v.end <= vs[i].start
    ensures Ordered(Inserted(vs, at, v))
  {
    var ws := Inserted(vs, at, v);
    assert forall k :: 0 <= k < |ws| ==> ws[k] == if k < at then vs[k] else if k == at then v else vs[k - 1];
  }

  lemma InsertedView(vs: seq<Vma>, at: nat, v: Vma)
    requires Ordered(vs) && at <= |vs| && v.Proper()
    requires forall i :: 0 <= i < at ==> vs[i].end <= v.start
    requires forall i :: at <= i < |vs| ==> v.end <= vs[i].start
    ensures Ordered(Inserted(vs, at, v))
    ensures forall x: nat :: View(Inserted(vs, at, v), x) == if v.Has(x) then Some(InfoAt(v, x)) else View(vs, x)
  {
    hide View;
    InsertedOrdered(vs, at, v);
    assert vs == vs[..at] + vs[at..];
    forall x: nat ensures View(Inserted(vs, at, v), x) == if v.Has(x) then Some(InfoAt(v, x)) else View(vs, x) {
      ViewMiddle(vs[..at], v, vs[at..], x);
    }
  }

  lemma RemovedView(vs: seq<Vma>, at: nat)
    requires Ordered(vs) && at < |vs|
    ensures forall x: nat :: View(Removed(vs, at), x) == if vs[at].Has(x) then None else View(vs, x)
  {
    hide View;
    assert vs == vs[..at] + [vs[at]] + vs[at + 1..];
    forall x: nat ensures View(Removed(vs, at), x) == if vs[at].Has(x) then None else View(vs, x) {
      ViewMiddle(vs[..at], vs[at], vs[at + 1..], x);
    }
  }

  lemma InsertSides(vs: seq<Vma>, i: nat, v: Vma)
    requires i <= |vs| && Ordered(Inserted(vs, i, v))
    ensures v.start < v.end && forall k :: 0 <= k < |vs| ==> vs[k].start < vs[k].end
    ensures forall k :: 0 <= k < i ==> vs[k].end <= v.start
    ensures forall k :: i <= k < |vs| ==> v.end <= vs[k].start
  {
    var ws := Inserted(vs, i, v);
    assert ws[i] == v;
    assert forall k :: 0 <= k < i ==> ws[k] == vs[k];
    assert forall k :: i <= k < |vs| ==> ws[k + 1] == vs[k];
  }

  /** The order leaves one place for a VMA. */
  lemma InsertPlace(vs: seq<Vma>, i: nat, j: nat, v: Vma)
    requires i <= |vs| && j <= |vs| && Ordered(Inserted(vs, i, v)) && Ordered(Inserted(vs, j, v))
    ensures i == j
  {
    InsertSides(vs, i, v);
    InsertSides(vs, j, v);
    assert i < |vs| ==> v.end <= vs[i].start;
    assert j < |vs| ==> v.end <= vs[j].start;
  }

  lemma LeftFits(vs: seq<Vma>, at: nat, a: nat)
    requires Ordered(vs) && at < |vs| && vs[at].start < a < vs[at].end && Aligned(a)
    ensures var us := Removed(vs, at);
      && at <= |us| && LeftOf(vs[at], a).Proper()
      && (forall u :: u in us ==> !Meets(u, vs[at].start, a))
      && Ordered(Inserted(us, at, LeftOf(vs[at], a)))
  {
  }

  lemma RightFits(vs: seq<Vma>, at: nat, a: nat)
    requires Ordered(vs) && at < |vs| && vs[at].start < a < vs[at].end && Aligned(a)
    ensures var us := Inserted(Removed(vs, at), at, LeftOf(vs[at], a));
      && at + 1 <= |us| && RightOf(vs[at], a).Proper()
      && (forall u :: u in us ==> !Meets(u, a, vs[at].end))
      && Inserted(us, at + 1, RightOf(vs[at], a)) == SplitAt(vs, at, a)
      && Ordered(SplitAt(vs, at, a))
  {
    SplitOrdered(vs, at, a);
  }

  /** No VMA crosses x. */
  ghost predicate Clean(vs: seq<Vma>, x: nat) {
    forall i :: 0 <= i < |vs| ==> !(vs[i].start < x < vs[i].end)
  }

  /** There is no memory to split a VMA that crosses an end of the range. */
  ghost predicate NoRoom(vs: seq<Vma>, start: nat, end: nat, leftOk: bool, rightOk: bool) {
    (!Clean(vs, start) && !leftOk) || (!Clean(vs, end) && !rightOk)
  }

  /** What vma_find at a bound tells about crossing it from below. */
  lemma CleanStart(vs: seq<Vma>, v: Option<Vma>, x: nat)
    requires Ordered(vs)
    requires v.Some? ==> v.value in vs && v.value.Has(x)
    requires v.None? ==> View(vs, x).None?
    ensures Clean(vs, x) <==> v.None? || v.value.start == x
  {
    ViewNone(vs, x);
    if v.Some? {
      var i :| 0 <= i < |vs| && vs[i] == v.value;
      forall j | 0 <= j < |vs| && j != i ensures !vs[j].Has(x) {
        if j < i { assert vs[j].end <= vs[i].start; } else { assert vs[i].end <= vs[j].start; }
      }
    }
  }

  lemma CleanEnd(vs: seq<Vma>, v: Option<Vma>, x: nat)
    requires Ordered(vs) && x > 0
    requires v.Some? ==> v.value in vs && v.value.Has(x - 1)
    requires v.None? ==> View(vs, x - 1).None?
    ensures Clean(vs, x) <==> v.None? || v.value.end == x
  {
    ViewNone(vs, x - 1);
    if v.Some? {
      var i :| 0 <= i < |vs| && vs[i] == v.value;
      forall j | 0 <= j < |vs| && j != i ensures !vs[j].Has(x - 1) {
        if j < i { assert vs[j].end <= vs[i].start; } else { assert vs[i].end <= vs[j].start; }
      }
    }
  }

  lemma SplitCleanAt(vs: seq<Vma>, i: nat, a: nat)
    requires Ordered(vs) && i < |vs| && vs[i].start < a < vs[i].end
    ensures Clean(SplitAt(vs, i, a), a)
  {
    hide Aligned, LeftOf, RightOf, SplitAt;
    HalfBounds(vs[i], a);
    SplitElements(vs, i, a);
    assert forall k :: 0 <= k < i ==> vs[k].end <= vs[i].start;
    assert forall k :: i < k < |vs| ==> vs[i].end <= vs[k].start;
  }

  lemma SplitCleanElsewhere(vs: seq<Vma>, i: nat, a: nat, x: nat)
    requires i < |vs| && vs[i].start < a < vs[i].end && x != a
    ensures Clean(SplitAt(vs, i, a), x) <==> Clean(vs, x)
  {
    hide LeftOf, RightOf, SplitAt;
    var ws := SplitAt(vs, i, a);
    HalfBounds(vs[i], a);
    SplitElements(vs, i, a);
    if Clean(ws, x) {
      assert !(ws[i].start < x < ws[i].end) && !(ws[i + 1].start < x < ws[i + 1].end);
      forall k | 0 <= k < |vs| ensures !(vs[k].start < x < vs[k].end) {
        if k > i { assert ws[k + 1] == vs[k]; }
      }
    }
  }

  lemma SplitClean(vs: seq<Vma>, i: nat, a: nat, x: nat)
    requires Ordered(vs) && i < |vs| && vs[i].start < a < vs[i].end && Aligned(a)
    ensures Clean(SplitAt(vs, i, a), a)
    ensures x != a ==> (Clean(SplitAt(vs, i, a), x) <==> Clean(vs, x))
  {
    hide Clean, SplitAt;
    SplitCleanAt(vs, i, a);
    if x != a { SplitCleanElsewhere(vs, i, a, x); }
  }

  lemma SplitElements(vs: seq<Vma>, i: nat, a: nat)
    requires i < |vs| && vs[i].start <= a
    ensures var ws := SplitAt(vs, i, a);
      && |ws| == |vs| + 1 && ws[i] == LeftOf(vs[i], a) && ws[i + 1] == RightOf(vs[i], a)
      && (forall k :: 0 <= k < i ==> ws[k] == vs[k])
      && (forall k :: i < k < |vs| ==> ws[k + 1] == vs[k])
      && (forall k :: i + 1 < k < |ws| ==> ws[k] == vs[k - 1])
  {
  }

  lemma CutExists(vs: seq<Vma>, start: nat, end: nat) returns (lo: nat, hi: nat)
    requires Ordered(vs) && start < end && Clean(vs, start) && Clean(vs, end)
    ensures Cut(vs, lo, hi, start, end)
  {
    lo := 0;
    while lo < |vs| && vs[lo].end <= start
      invariant lo <= |vs| && forall i :: 0 <= i < lo ==> vs[i].end <= start
    {
      lo := lo + 1;
    }
    hi := lo;
    while hi < |vs| && vs[hi].end <= end
      invariant lo <= hi <= |vs| && forall i :: lo <= i < hi ==> start <= vs[i].start && vs[i].end <= end
    {
      hi := hi + 1;
    }
  }

  // ---------------------------------------------------------------------------------------------
  // The address space
  // ---------------------------------------------------------------------------------------------

  /** Every present leaf lies in a VMA and was entered with its flags. */
  ghost predicate LeavesOk(vs: seq<Vma>, leaves: map<nat, nat>) {
    forall p :: p in leaves ==> Aligned(p) && View(vs, p).Some? && leaves[p] == View(vs, p).value.flags
  }

  ghost function Outside(leaves: map<nat, nat>, start: nat, end: nat): map<nat, nat> {
    map p | p in leaves && !(start <= p < end) :: leaves[p]
  }

  ghost function Repainted(leaves: map<nat, nat>, start: nat, end: nat, flags: nat): map<nat, nat> {
    map p | p in leaves :: if start <= p < end then flags else leaves[p]
  }

  ghost predicate InRun(vs: seq<Vma>, lo: nat, hi: nat, p: nat) {
    exists k :: lo <= k < hi && k < |vs| && vs[k].Has(p)
  }

  ghost function Unrun(leaves: map<nat, nat>, vs: seq<Vma>, lo: nat, hi: nat): map<nat, nat> {
    map p | p in leaves && !InRun(vs, lo, hi, p) :: leaves[p]
  }

  lemma RunStep(leaves: map<nat, nat>, vs: seq<Vma>, lo: nat, j: nat)
    requires lo <= j < |vs|
    ensures Outside(Unrun(leaves, vs, lo, j), vs[j].start, vs[j].end) == Unrun(leaves, vs, lo, j + 1)
  {
  }

  lemma RunAll(leaves: map<nat, nat>, vs: seq<Vma>, lo: nat, hi: nat, start: nat, end: nat)
    requires Ordered(vs) && Cut(vs, lo, hi, start, end) && LeavesOk(vs, leaves)
    ensures Unrun(leaves, vs, lo, hi) == Outside(leaves, start, end)
    ensures LeavesOk(vs[..lo] + vs[hi..], Outside(leaves, start, end))
  {
    hide View;
    forall p | p in leaves ensures InRun(vs, lo, hi, p) <==> start <= p < end {
      ViewNone(vs, p);
    }
    forall p | p in leaves && !(start <= p < end) ensures View(vs[..lo] + vs[hi..], p) == View(vs, p) {
      UnmapView(vs, lo, hi, start, end, p);
    }
  }

  lemma LeavesSame(vs: seq<Vma>, ws: seq<Vma>, leaves: map<nat, nat>)
    requires LeavesOk(vs, leaves) && forall x: nat :: View(ws, x) == View(vs, x)
    ensures LeavesOk(ws, leaves)
  {
  }

  lemma RunNone(leaves: map<nat, nat>, vs: seq<Vma>, lo: nat)
    ensures Unrun(leaves, vs, lo, lo) == leaves
  {
  }

  lemma RunAligned(leaves: map<nat, nat>, vs: seq<Vma>, lo: nat, j: nat)
    requires LeavesOk(vs, leaves)
    ensures forall p :: p in Unrun(leaves, vs, lo, j) ==> Aligned(p)
  {
  }

  /** unmap_range in its loop: it has dropped the VMAs from lo to j, and their leaves. */
  ghost predicate Dropping(vs: seq<Vma>, was: map<nat, nat>, lo: nat, hi: nat, start: nat, end: nat, j: nat,
                           ws: seq<Vma>, leaves: map<nat, nat>)
  {
    && Ordered(vs) && LeavesOk(vs, was) && Cut(vs, lo, hi, start, end) && start < end
    && lo <= j <= hi && ws == vs[..lo] + vs[j..] && leaves == Unrun(was, vs, lo, j)
  }

  lemma DropBegins(vs: seq<Vma>, was: map<nat, nat>, lo: nat, hi: nat, start: nat, end: nat)
    requires Ordered(vs) && LeavesOk(vs, was) && Cut(vs, lo, hi, start, end) && start < end
    ensures Dropping(vs, was, lo, hi, start, end, lo, vs, was)
  {
    assert vs == vs[..lo] + vs[lo..];
    RunNone(was, vs, lo);
  }

  /** The first VMA that meets the range is the next one of it. */
  lemma DropNext(vs: seq<Vma>, was: map<nat, nat>, lo: nat, hi: nat, start: nat, end: nat, j: nat,
                 ws: seq<Vma>, leaves: map<nat, nat>, r: Option<Vma>, at: nat)
    requires Dropping(vs, was, lo, hi, start, end, j, ws, leaves) && FirstMeets(ws, start, end, r, at)
    ensures r.Some? ==> j < hi <= |vs| && at == lo < |ws| && r.value == vs[j] == ws[at] && r.value.Proper()
    ensures r.None? ==> j == hi
    ensures forall p :: p in leaves ==> Aligned(p)
  {
    hide LeavesOk, View, Unrun, Aligned;
    RunAligned(was, vs, lo, j);
    if at < |ws| { DroppedAt(vs, lo, j, ws, at); }
    if lo < |ws| { DroppedAt(vs, lo, j, ws, lo); }
  }

  lemma DroppedAt(vs: seq<Vma>, lo: nat, j: nat, ws: seq<Vma>, i: nat)
    requires lo <= j <= |vs| && ws == vs[..lo] + vs[j..] && i < |ws|
    ensures ws[i] == if i < lo then vs[i] else vs[i - lo + j]
  {
  }

  lemma DropStep(vs: seq<Vma>, was: map<nat, nat>, lo: nat, hi: nat, start: nat, end: nat, j: nat,
                 ws: seq<Vma>, leaves: map<nat, nat>)
    requires Dropping(vs, was, lo, hi, start, end, j, ws, leaves) && j < hi
    ensures |ws| > lo
    ensures Dropping(vs, was, lo, hi, start, end, j + 1, Removed(ws, lo), Outside(leaves, vs[j].start, vs[j].end))
  {
    RunStep(was, vs, lo, j);
    hide LeavesOk, View, Unrun, Outside;
    assert Removed(ws, lo) == vs[..lo] + vs[j + 1..];
  }

  lemma DropEnds(vs: seq<Vma>, was: map<nat, nat>, lo: nat, hi: nat, start: nat, end: nat,
                 ws: seq<Vma>, leaves: map<nat, nat>)
    requires Dropping(vs, was, lo, hi, start, end, hi, ws, leaves)
    ensures leaves == Outside(was, start, end) && LeavesOk(ws, leaves)
    ensures forall x: nat :: View(ws, x) == if start <= x < end then None else View(vs, x)
  {
    RunAll(was, vs, lo, hi, start, end);
    hide View, LeavesOk, Unrun, Outside;
    forall x: nat ensures View(ws, x) == if start <= x < end then None else View(vs, x) {
      UnmapView(vs, lo, hi, start, end, x);
    }
  }

  /** VMA i begins where the one before it in the range ends. */
  ghost predicate Follows(vs: seq<Vma>, lo: nat, i: nat, start: nat) {
    lo <= i < |vs| && vs[i].start == if i == lo then start else vs[i - 1].end
  }

  /** protect_range in its loop: the VMAs from lo to j fill the range up to cur without a hole, and have new flags. */
  ghost predicate Painting(vs: seq<Vma>, was: map<nat, nat>, lo: nat, hi: nat, start: nat, end: nat, flags: nat,
                           j: nat, cur: nat, ws: seq<Vma>, leaves: map<nat, nat>)
  {
    && Ordered(vs) && LeavesOk(vs, was) && Cut(vs, lo, hi, start, end) && start <= cur <= end && flags <= VM_ALL
    && lo <= j <= hi && Changed(vs, ws, lo, j, flags) && leaves == Repainted(was, start, cur, flags)
    && cur == (if j == lo then start else vs[j - 1].end)
    && (forall i :: lo <= i < j ==> Follows(vs, lo, i, start))
  }

  lemma PaintNothing(was: map<nat, nat>, start: nat, flags: nat)
    ensures Repainted(was, start, start, flags) == was
  {
  }

  lemma PaintBegins(vs: seq<Vma>, was: map<nat, nat>, lo: nat, hi: nat, start: nat, end: nat, flags: nat)
    requires Ordered(vs) && LeavesOk(vs, was) && Cut(vs, lo, hi, start, end) && start < end && flags <= VM_ALL
    ensures lo <= hi && Painting(vs, was, lo, hi, start, end, flags, lo, start, vs, was)
    ensures forall p :: p in was ==> Aligned(p)
  {
    PaintNothing(was, start, flags);
  }

  lemma PaintedBelow(vs: seq<Vma>, lo: nat, j: nat, start: nat, cur: nat)
    requires Ordered(vs) && lo <= j <= |vs| && cur == (if j == lo then start else vs[j - 1].end)
    ensures forall i :: lo <= i < j ==> vs[i].end <= cur
  {
    forall i | lo <= i < j ensures vs[i].end <= cur {
      if i < j - 1 { assert vs[i].end <= vs[j - 1].start && vs[j - 1].Proper(); }
    }
  }

  /** The VMA at the current address is the next one of the range, and begins there; or there is a hole. */
  lemma PaintNext(vs: seq<Vma>, was: map<nat, nat>, lo: nat, hi: nat, start: nat, end: nat, flags: nat,
                  j: nat, cur: nat, ws: seq<Vma>, leaves: map<nat, nat>, v: Option<Vma>)
    requires Painting(vs, was, lo, hi, start, end, flags, j, cur, ws, leaves) && cur < end
    requires v.Some? ==> v.value in ws && v.value.Has(cur)
    requires v.None? <==> View(ws, cur).None?
    ensures v.None? ==> View(vs, cur).None?
    ensures v.Some? ==> j < hi && j < |ws| == |vs| && v.value == vs[j] == ws[j] && vs[j].start == cur && vs[j].Proper()
                        && vs[j].end <= end
  {
    hide View, LeavesOk, Repainted, Aligned;
    ViewNone(vs, cur);
    ViewNone(ws, cur);
    if v.Some? {
      var k :| 0 <= k < |ws| && ws[k] == v.value;
      PaintedBelow(vs, lo, j, start, cur);
      assert j <= k < hi;
      assert cur <= vs[j].start by { if j > lo { assert vs[j - 1].end <= vs[j].start; } }
      assert vs[j].Proper() && vs[j].end > cur;
    }
  }

  lemma PaintStep(vs: seq<Vma>, was: map<nat, nat>, lo: nat, hi: nat, start: nat, end: nat, flags: nat,
                  j: nat, cur: nat, ws: seq<Vma>, leaves: map<nat, nat>)
    requires Painting(vs, was, lo, hi, start, end, flags, j, cur, ws, leaves)
    requires j < hi && j < |ws| && vs[j].start == cur
    ensures var ws' := ws[j := vs[j].(flags := flags)];
      && Painting(vs, was, lo, hi, start, end, flags, j + 1, vs[j].end, ws', Repainted(leaves, cur, vs[j].end, flags))
      && Ordered(ws')
    ensures forall p :: p in Repainted(leaves, cur, vs[j].end, flags) ==> Aligned(p)
  {
    assert Repainted(Repainted(was, start, cur, flags), cur, vs[j].end, flags)
        == Repainted(was, start, vs[j].end, flags);
    hide View, Repainted;
  }

  lemma PaintEnds(vs: seq<Vma>, was: map<nat, nat>, lo: nat, hi: nat, start: nat, end: nat, flags: nat,
                  j: nat, cur: nat, ws: seq<Vma>, leaves: map<nat, nat>)
    requires Painting(vs, was, lo, hi, start, end, flags, j, cur, ws, leaves)
    ensures LeavesOk(ws, leaves) && leaves == Repainted(was, start, cur, flags)
    ensures forall x: nat :: View(ws, x) == if start <= x < cur then WithFlags(View(vs, x), flags) else View(vs, x)
    ensures forall x: nat :: start <= x < cur ==> View(vs, x).Some?
  {
    hide View;
    assert Cut(vs, lo, j, start, cur) by {
      forall i | j <= i < |vs| ensures cur <= vs[i].start {
        if j > lo { assert vs[j - 1].end <= vs[i].start; }
      }
    }
    forall x: nat ensures View(ws, x) == if start <= x < cur then WithFlags(View(vs, x), flags) else View(vs, x) {
      ProtectView(vs, ws, lo, j, flags, start, cur, x);
    }
    forall x: nat | start <= x < cur ensures View(vs, x).Some? {
      NoHole(vs, lo, j, start, cur, x);
    }
  }

  lemma {:induction false} NoHole(vs: seq<Vma>, lo: nat, j: nat, start: nat, cur: nat, x: nat)
    requires lo <= j <= |vs| && start <= x < cur && cur == (if j == lo then start else vs[j - 1].end)
    requires forall i :: lo <= i < j ==> Follows(vs, lo, i, start)
    ensures View(vs, x).Some?
    decreases j
  {
    var i := j - 1;
    assert Follows(vs, lo, i, start);
    if x < vs[i].start {
      NoHole(vs, lo, i, start, vs[i].start, x);
    } else {
      ViewNone(vs, x);
      assert vs[i].Has(x);
    }
  }

  predicate StackOk(bottom: nat) {
    UVADDR_START + PAGE <= bottom <= USTACK_TOP && Aligned(bottom)
  }

  /** range_allowed. */
  predicate Allowed(start: nat, end: nat, bottom: nat)
    requires StackOk(bottom)
  {
    UVADDR_START <= start && end <= USTACK_TOP && (end <= bottom - PAGE || start >= bottom)
  }

  ghost predicate Free(vs: seq<Vma>, b: nat, len: nat) {
    forall i :: 0 <= i < |vs| ==> !Meets(vs[i], b, b + len)
  }

  /** A place below the stack guard for a mapping. */
  ghost predicate Fits(vs: seq<Vma>, b: nat, len: nat, bottom: nat)
    requires StackOk(bottom)
  {
    UVADDR_START <= b && b + len <= bottom - PAGE && Free(vs, b, len)
  }

  function AlignDown(x: nat): nat {
    x - x % PAGE
  }

  function AlignUp(x: nat): (r: nat)
    ensures Aligned(r) && x <= r < x + PAGE
  {
    (x + PAGE - 1) / PAGE * PAGE
  }

  lemma AlignedPage(x: nat)
    requires Aligned(x) && x >= PAGE
    ensures Aligned(x - PAGE)
  {
  }

  lemma AlignedBelow(x: nat, len: nat)
    requires Aligned(x) && Aligned(len) && len <= x
    ensures Aligned(x - len)
  {
  }

  /** The search of find_unmapped below the stack guard: the highest place, or 0 only if there is none. */
  method HighestGap(t: Tree, len: nat, bottom: nat) returns (r: nat)
    requires Ordered(Inorder(t)) && StackOk(bottom) && len > 0 && Aligned(len)
    ensures Aligned(r)
    ensures r != 0 ==> Fits(Inorder(t), r, len, bottom)
    ensures forall b: nat :: Fits(Inorder(t), b, len, bottom) ==> r != 0 && b <= r
  {
    hide Inorder, Aligned;
    var vs := Inorder(t);
    AlignedPage(bottom);
    var top := bottom - PAGE;
    var i := |vs|;
    while i > 0
      invariant 0 <= i <= |vs| && UVADDR_START <= top <= bottom - PAGE && Aligned(top)
      invariant forall k :: i <= k < |vs| ==> top <= vs[k].start
      invariant forall b: nat :: Fits(vs, b, len, bottom) ==> b + len <= top
    {
      i := i - 1;
      var v := vs[i];
      if v.start >= top {
        continue;
      }
      if v.end <= top && len <= top - v.end {
        assert forall k :: 0 <= k < i ==> vs[k].end <= v.start;
        assert Fits(vs, top - len, len, bottom);
        AlignedBelow(top, len);
        return top - len;
      }
      forall b: nat | Fits(vs, b, len, bottom) ensures b + len <= v.start {
        assert !Meets(vs[i], b, b + len);
      }
      top := v.start;
    }
    if len <= top - UVADDR_START {
      assert Fits(vs, top - len, len, bottom);
      AlignedBelow(top, len);
      return top - len;
    }
    AlignedBelow(top, top);
    return 0;
  }

  /** find_unmapped. */
  method FindUnmapped(t: Tree, hint: nat, len: nat, bottom: nat) returns (r: nat)
    requires Ordered(Inorder(t)) && StackOk(bottom) && len > 0 && Aligned(len)
    ensures Aligned(r)
    ensures r != 0 ==> Free(Inorder(t), r, len) && Allowed(r, r + len, bottom)
    ensures var h := AlignDown(hint);
      if Allowed(h, h + len, bottom) && Free(Inorder(t), h, len) then r == h
      else
        && (r != 0 ==> Fits(Inorder(t), r, len, bottom))
        && (forall b: nat :: Fits(Inorder(t), b, len, bottom) ==> r != 0 && b <= r)
  {
    hide Inorder, FirstMeets;
    var h := AlignDown(hint);
    if h < UVADDR_END && len <= UVADDR_END - h && Allowed(h, h + len, bottom) {
      var found, at := FindIntersection(t, h, h + len);
      MeetsNone(Inorder(t), h, len, found, at);
      if found.None? {
        return h;
      }
    }
    r := HighestGap(t, len, bottom);
  }

  lemma MeetsNone(vs: seq<Vma>, b: nat, len: nat, r: Option<Vma>, at: nat)
    requires FirstMeets(vs, b, b + len, r, at) && len > 0
    ensures r.None? <==> Free(vs, b, len)
  {
    if r.Some? { assert Meets(vs[at], b, b + len); }
  }

  const U64_MAX: nat := 0xFFFF_FFFF_FFFF_FFFF

  /** range_end. */
  function RangeEnd(start: nat, len: nat, bottom: nat): (r: Result<nat>)
    requires StackOk(bottom)
    ensures r.Ok? ==> Aligned(start) && Aligned(r.value) && start < r.value && Allowed(start, r.value, bottom)
    ensures r.Ok? ==> start + len <= r.value < start + len + PAGE
    ensures r.Ok? <==> Aligned(start) && 0 < len && Allowed(start, start + AlignUp(len), bottom)
    ensures r == Err(ENOMEM) <==> Aligned(start) && 0 < len && start + AlignUp(len) > UVADDR_END
    ensures r.Err? ==> r.error == EINVAL || r.error == ENOMEM
  {
    if !Aligned(start) then Err(EINVAL)
    else if len == 0 then Err(EINVAL)
    else if len > U64_MAX - (PAGE - 1) then Err(ENOMEM)
    else
      var n := AlignUp(len);
      if start >= UVADDR_END || n > UVADDR_END - start then Err(ENOMEM)
      else if !Allowed(start, start + n, bottom) then Err(EINVAL)
      else Ok(start + n)
  }

  /** vm_prot: writing implies reading. */
  function VmProt(prot: nat): nat
    requires prot <= VM_ALL
  {
    (if prot % 2 == 1 || prot / 2 % 2 == 1 then 1 else 0) + (if prot / 2 % 2 == 1 then 2 else 0) + prot / 4 * 4
  }

  /** A range with nothing at any address meets no VMA. */
  lemma EmptyRange(vs: seq<Vma>, start: nat, end: nat)
    requires Ordered(vs) && start < end && forall x: nat :: start <= x < end ==> View(vs, x).None?
    ensures forall u :: u in vs ==> !Meets(u, start, end)
  {
    hide View;
    forall u | u in vs ensures !Meets(u, start, end) {
      var i :| 0 <= i < |vs| && vs[i] == u;
      ViewNone(vs, Max(u.start, start));
      assert u.Proper();
    }
  }

  /** Leaves stay right when a mapping appears where there was none. */
  lemma LeavesInserted(vs: seq<Vma>, ws: seq<Vma>, leaves: map<nat, nat>, v: Vma)
    requires LeavesOk(vs, leaves) && (forall x: nat :: v.Has(x) ==> View(vs, x).None?)
    requires forall x: nat :: View(ws, x) == if v.Has(x) then Some(InfoAt(v, x)) else View(vs, x)
    ensures LeavesOk(ws, leaves)
  {
  }

  lemma FreeRange(vs: seq<Vma>, b: nat, len: nat)
    requires Free(vs, b, len)
    ensures forall x: nat :: b <= x < b + len ==> View(vs, x).None?
  {
    hide View;
    forall x: nat | b <= x < b + len ensures View(vs, x).None? {
      ViewNone(vs, x);
      assert forall i :: 0 <= i < |vs| ==> !Meets(vs[i], b, b + len);
    }
  }

  /** The bits of a protection and of the flags of a VMA: VM_READ is PROT_READ, VM_WRITE is PROT_WRITE, VM_EXEC is
      PROT_EXEC. */
  predicate Reads(f: nat) {
    f % 2 == 1
  }

  predicate Writes(f: nat) {
    f / 2 % 2 == 1
  }

  predicate Executes(f: nat) {
    f / 4 % 2 == 1
  }

  /** The flags grant what was asked for, and reading where writing was. */
  ghost predicate Granted(flags: nat, prot: nat) {
    && flags <= VM_ALL
    && (Reads(flags) <==> Reads(prot) || Writes(prot))
    && (Writes(flags) <==> Writes(prot))
    && (Executes(flags) <==> Executes(prot))
  }

  lemma VmProtGrants(prot: nat)
    requires prot <= VM_ALL
    ensures Granted(VmProt(prot), prot)
  {
  }

  lemma AlignedSum(x: nat, y: nat)
    requires Aligned(x) && Aligned(y)
    ensures Aligned(x + y)
  {
  }

  lemma AlignUpUnique(x: nat, n: nat)
    requires Aligned(n) && x <= n < x + PAGE
    ensures n == AlignUp(x)
  {
  }

  lemma AlignUpTwice(x: nat)
    ensures AlignUp(AlignUp(x)) == AlignUp(x)
  {
  }

  class Mm {
    var tree: Tree
    /** The present user leaves and the flags they were last entered or protected with. */
    var leaves: map<nat, nat>
    var brk: nat
    const startBrk: nat
    /** USTACK_BOTTOM, which depends on the configured stack size. */
    const bottom: nat

    ghost predicate Valid()
      reads this
    {
      Ordered(Vmas()) && LeavesOk(Vmas(), leaves) && StackOk(bottom)
    }

    ghost function Vmas(): seq<Vma>
      reads this`tree
    {
      Inorder(tree)
    }

    ghost function At(x: nat): Option<Info>
      reads this`tree
    {
      View(Vmas(), x)
    }

    constructor (bottom: nat, startBrk: nat)
      requires StackOk(bottom)
      ensures Valid() && forall x: nat :: At(x) == None
      ensures this.bottom == bottom && this.startBrk == startBrk == brk
    {
      tree, leaves, brk, this.startBrk, this.bottom := Nil, map[], startBrk, startBrk, bottom;
    }

    /** vma_insert: takes the VMA if it is well formed and meets no other. */
    method Insert(v: Vma) returns (r: Result<()>, ghost at: nat)
      requires Ordered(Vmas())
      modifies this`tree
      ensures Ordered(Vmas())
      ensures r == Err(EINVAL) <==> !v.Proper()
      ensures r == Err(EEXIST) <==> v.Proper() && exists u :: u in old(Vmas()) && Meets(u, v.start, v.end)
      ensures r.Err? ==> tree == old(tree) && (r.error == EINVAL || r.error == EEXIST)
      ensures r.Ok? ==> at <= |old(Vmas())| && Vmas() == Inserted(old(Vmas()), at, v)
      ensures r.Ok? ==> forall x: nat :: At(x) == if v.Has(x) then Some(InfoAt(v, x)) else old(At(x))
    {
      hide Inorder, View;
      at := 0;
      if v.start < UVADDR_START || v.end > UVADDR_END || v.start >= v.end || !Aligned(v.start) || !Aligned(v.end)
         || v.flags > VM_ALL {
        return Err(EINVAL), 0;
      }
      ghost var vs := Vmas();
      var linked;
      linked, at := Link(tree, v);
      if linked.None? {
        return Err(EEXIST), 0;
      }
      tree := linked.value;
      InsertedView(vs, at, v);
      return Ok(()), at;
    }

    /** vma_remove. */
    method Remove(v: Vma, ghost at: nat)
      requires Ordered(Vmas()) && at < |Vmas()| && Vmas()[at] == v
      modifies this`tree
      ensures Ordered(Vmas()) && Vmas() == Removed(old(Vmas()), at)
      ensures forall x: nat :: At(x) == if v.Has(x) then None else old(At(x))
    {
      hide Inorder, View;
      WithoutInorder(tree, v, at);
      OrderedDrop(Vmas(), at);
      RemovedView(Vmas(), at);
      tree := Without(tree, v);
    }

    /** vma_split. */
    method Split(v: Vma, a: nat, ghost at: nat)
      requires Ordered(Vmas()) && at < |Vmas()| && Vmas()[at] == v && v.start < a < v.end && Aligned(a)
      modifies this`tree
      ensures Ordered(Vmas()) && Vmas() == SplitAt(old(Vmas()), at, a)
      ensures forall x: nat :: At(x) == old(At(x))
    {
      hide Inorder, View, Ordered, Inserted, Removed, SplitAt;
      ghost var vs := Vmas();
      var right := v.(start := a);
      if right.file.Some? {
        right := right.(offset := right.offset + (a - v.start), fstart := Max(a, right.fstart),
                        fend := Max(a, right.fend));
      }
      LeftFits(vs, at, a);
      RightFits(vs, at, a);
      Remove(v, at);
      var left := v.(end := a);
      if left.file.Some? {
        left := left.(fstart := Min(a, left.fstart), fend := Min(a, left.fend));
      }
      ghost var us := Vmas();
      var r, i := Insert(left);
      assert r.Ok?;
      ghost var ws := Vmas();
      InsertPlace(us, i, at, left);
      r, i := Insert(right);
      assert r.Ok?;
      InsertPlace(ws, i, at + 1, right);
      forall x: nat ensures At(x) == View(vs, x) {
        SplitView(vs, at, a, x);
      }
    }

    /** split_range: cuts the map at both ends of the range, or finds no memory and changes nothing. */
    method SplitRange(start: nat, end: nat, leftOk: bool, rightOk: bool)
      returns (r: Result<()>, ghost lo: nat, ghost hi: nat)
      requires Ordered(Vmas()) && start < end && Aligned(start) && Aligned(end)
      modifies this`tree
      ensures Ordered(Vmas()) && forall x: nat :: At(x) == old(At(x))
      ensures (r == Err(ENOMEM) && tree == old(tree)) || (r == Ok(()) && Cut(Vmas(), lo, hi, start, end))
      ensures r.Err? <==> NoRoom(old(Vmas()), start, end, leftOk, rightOk)
    {
      hide Inorder, View, Clean, Cut, Ordered, SplitAt;
      lo, hi := 0, 0;
      var first := Find(tree, start);
      var last := Find(tree, end - 1);
      CleanStart(Vmas(), first, start);
      CleanEnd(Vmas(), last, end);
      var left := first.Some? && first.value.start < start;
      if left && !leftOk { return Err(ENOMEM), 0, 0; }
      var right := last.Some? && end < last.value.end;
      if right && !rightOk { return Err(ENOMEM), 0, 0; }
      if left {
        ghost var i :| 0 <= i < |Vmas()| && Vmas()[i] == first.value;
        SplitClean(Vmas(), i, start, end);
        Split(first.value, start, i);
      }
      if right {
        last := Find(tree, end - 1);
        CleanEnd(Vmas(), last, end);
        ghost var i :| 0 <= i < |Vmas()| && Vmas()[i] == last.value;
        SplitClean(Vmas(), i, end, start);
        Split(last.value, end, i);
      }
      lo, hi := CutExists(Vmas(), start, end);
      return Ok(()), lo, hi;
    }

    /** The loop of unmap_range over the pages of one VMA. */
    method UnmapPages(v: Vma)
      requires v.Proper() && forall p :: p in leaves ==> Aligned(p)
      modifies this`leaves
      ensures leaves == Outside(old(leaves), v.start, v.end)
    {
      var a := v.start;
      while a < v.end
        invariant v.start <= a <= v.end && Aligned(a)
        invariant leaves == Outside(old(leaves), v.start, a)
        decreases v.end - a
      {
        leaves := leaves - {a};
        a := a + PAGE;
      }
    }

    /** unmap_range: empties exactly the range, or finds no memory and changes nothing. */
    method UnmapRange(start: nat, end: nat, leftOk: bool, rightOk: bool) returns (r: Result<()>)
      requires Valid() && start < end && Aligned(start) && Aligned(end)
      modifies this`tree, this`leaves
      ensures Valid()
      ensures r == Ok(()) || (r == Err(ENOMEM) && tree == old(tree) && leaves == old(leaves))
      ensures r.Err? <==> NoRoom(old(Vmas()), start, end, leftOk, rightOk)
      ensures r.Ok? ==> forall x: nat :: At(x) == if start <= x < end then None else old(At(x))
      ensures r.Ok? ==> leaves == Outside(old(leaves), start, end)
    {
      hide Inorder, View, Outside, Dropping, FirstMeets, LeavesOk, Ordered, Cut;
      ghost var lo: nat, hi: nat, at: nat;
      ghost var vs0 := Vmas();
      r, lo, hi := SplitRange(start, end, leftOk, rightOk);
      if r.Err? { return; }
      ghost var vs, was := Vmas(), leaves;
      ghost var j: nat := lo;
      forall x: nat ensures View(vs, x) == View(vs0, x) {
        assert At(x) == old(At(x));
      }
      LeavesSame(vs0, vs, was);
      DropBegins(vs, was, lo, hi, start, end);
      var found;
      found, at := FindIntersection(tree, start, end);
      DropNext(vs, was, lo, hi, start, end, j, Vmas(), leaves, found, at);
      while found.Some?
        invariant Ordered(Vmas()) && Dropping(vs, was, lo, hi, start, end, j, Vmas(), leaves)
        invariant found.Some? ==> j < hi <= |vs| && at == lo < |Vmas()| && found.value == vs[j] && found.value.Proper()
                                  && Vmas()[at] == found.value
        invariant found.None? ==> j == hi
        invariant forall p :: p in leaves ==> Aligned(p)
        decreases hi - j
      {
        DropStep(vs, was, lo, hi, start, end, j, Vmas(), leaves);
        Remove(found.value, at);
        UnmapPages(found.value);
        j := j + 1;
        found, at := FindIntersection(tree, start, end);
        DropNext(vs, was, lo, hi, start, end, j, Vmas(), leaves, found, at);
      }
      DropEnds(vs, was, lo, hi, start, end, Vmas(), leaves);
    }

    /** The loop of protect_range over the pages of one VMA. */
    method ProtectPages(start: nat, end: nat, flags: nat) returns (a: nat)
      requires start <= end && Aligned(start) && Aligned(end) && forall p :: p in leaves ==> Aligned(p)
      modifies this`leaves
      ensures a == end && leaves == Repainted(old(leaves), start, end, flags)
    {
      a := start;
      assert leaves == Repainted(leaves, start, start, flags);
      while a < end
        invariant start <= a <= end && Aligned(a)
        invariant leaves == Repainted(old(leaves), start, a, flags)
        decreases end - a
      {
        if a in leaves {
          leaves := leaves[a := flags];
        }
        a := a + PAGE;
      }
    }

    /** protect_range: gives new flags to exactly the addresses from start up to the first hole or end. */
    method ProtectRange(start: nat, end: nat, flags: nat, leftOk: bool, rightOk: bool)
      returns (r: Result<()>, ghost top: nat)
      requires Valid() && start < end && Aligned(start) && Aligned(end) && flags <= VM_ALL
      modifies this`tree, this`leaves
      ensures Valid() && start <= top <= end
      ensures r.Err? ==> r.error == ENOMEM
      ensures r.Ok? <==> !NoRoom(old(Vmas()), start, end, leftOk, rightOk)
                         && forall x: nat :: start <= x < end ==> old(At(x)).Some?
      ensures r.Ok? <==> top == end
      ensures NoRoom(old(Vmas()), start, end, leftOk, rightOk) ==> top == start && tree == old(tree)
      ensures top < end ==> old(At(top)) == None || (top == start && tree == old(tree) && leaves == old(leaves))
      ensures forall x: nat :: start <= x < top ==> old(At(x)).Some?
      ensures forall x: nat :: At(x) == if start <= x < top then WithFlags(old(At(x)), flags) else old(At(x))
      ensures leaves == Repainted(old(leaves), start, top, flags)
    {
      hide Inorder, View, Repainted, Painting, LeavesOk, Ordered, Cut;
      top := start;
      ghost var lo: nat, hi: nat;
      ghost var vs0 := Vmas();
      r, lo, hi := SplitRange(start, end, leftOk, rightOk);
      ghost var vs, was := Vmas(), leaves;
      forall x: nat ensures View(vs, x) == View(vs0, x) {
        assert At(x) == old(At(x));
      }
      LeavesSame(vs0, vs, was);
      if r.Err? {
        PaintNothing(was, start, flags);
        return;
      }
      var cur := start;
      ghost var j: nat := lo;
      PaintBegins(vs, was, lo, hi, start, end, flags);
      while cur < end
        invariant start <= cur <= end && Aligned(cur) && lo <= j <= hi
        invariant Ordered(Vmas()) && Painting(vs, was, lo, hi, start, end, flags, j, cur, Vmas(), leaves)
        invariant forall p :: p in leaves ==> Aligned(p)
        decreases end - cur
      {
        var v := Find(tree, cur);
        PaintNext(vs, was, lo, hi, start, end, flags, j, cur, Vmas(), leaves, v);
        if v.None? {
          r := Err(ENOMEM);
          break;
        }
        ReflaggedInorder(tree, v.value, flags, j);
        PaintStep(vs, was, lo, hi, start, end, flags, j, cur, Vmas(), leaves);
        tree := Reflagged(tree, v.value, flags);
        cur := ProtectPages(cur, v.value.end, flags);
        j := j + 1;
      }
      PaintEnds(vs, was, lo, hi, start, end, flags, j, cur, Vmas(), leaves);
      top := cur;
      assert r.Err? ==> old(At(top)) == None;
    }

    /** Enters an anonymous VMA in an empty range; the assertion of sys_mmap that this cannot fail. */
    method Place(start: nat, end: nat, flags: nat)
      requires Valid() && UVADDR_START <= start < end <= UVADDR_END && Aligned(start) && Aligned(end) && flags <= VM_ALL
      requires forall x: nat :: start <= x < end ==> At(x) == None
      modifies this`tree
      ensures Valid()
      ensures forall x: nat :: At(x) == if start <= x < end then Some(Info(flags, None)) else old(At(x))
    {
      hide Inorder, View, LeavesOk;
      ghost var vs := Vmas();
      var v := Vma(start, end, flags, None, 0, 0, 0);
      forall x: nat | start <= x < end ensures View(vs, x).None? {
        assert At(x) == None;
      }
      EmptyRange(vs, start, end);
      var r, at := Insert(v);
      assert r.Ok?;
      forall x: nat ensures View(Vmas(), x) == if v.Has(x) then Some(InfoAt(v, x)) else View(vs, x) {
        assert At(x) == if v.Has(x) then Some(InfoAt(v, x)) else old(At(x));
      }
      LeavesInserted(vs, Vmas(), leaves, v);
    }

    /** sys_mmap: on success exactly the returned range is mapped anew, and unless it was asked for with MAP_FIXED it
        was empty before; on failure nothing changes. */
    method Mmap(addr: nat, length: nat, prot: nat, flags: nat, offset: nat, memOk: bool, leftOk: bool, rightOk: bool)
      returns (r: Result<nat>)
      requires Valid()
      modifies this`tree, this`leaves
      ensures Valid()
      ensures r.Err? ==> tree == old(tree) && leaves == old(leaves) && (r.error == EINVAL || r.error == ENOMEM)
      ensures r.Ok? ==> prot <= VM_ALL && Aligned(r.value) && Allowed(r.value, r.value + AlignUp(length), bottom)
      ensures r.Ok? ==>
                forall x: nat :: r.value <= x < r.value + AlignUp(length) ==>
                  && At(x).Some? && At(x).value.file.None? && At(x).value.flags <= VM_ALL
                  && (Reads(At(x).value.flags) <==> Reads(prot) || Writes(prot))
                  && (Writes(At(x).value.flags) <==> Writes(prot))
                  && (Executes(At(x).value.flags) <==> Executes(prot))
      ensures r.Ok? ==>
                (forall x: nat :: !(r.value <= x < r.value + AlignUp(length)) ==> At(x) == old(At(x)))
      ensures r.Ok? && flags == 0x22 ==>
                && leaves == old(leaves)
                && forall x: nat :: r.value <= x < r.value + AlignUp(length) ==> old(At(x)) == None
      ensures r.Ok? && flags == 0x32 ==>
                r.value == addr && leaves == Outside(old(leaves), addr, addr + AlignUp(length))
      ensures r.Ok? <==>
                && (flags == 0x22 || flags == 0x32) && prot <= VM_ALL && Aligned(offset) && memOk
                && 0 < length <= UVADDR_END - UVADDR_START
                && var len := AlignUp(length);
                   if flags == 0x32 then
                     Aligned(addr) && Allowed(addr, addr + len, bottom)
                     && !NoRoom(old(Vmas()), addr, addr + len, leftOk, rightOk)
                   else
                     || (&& Allowed(AlignDown(addr), AlignDown(addr) + len, bottom)
                         && Free(old(Vmas()), AlignDown(addr), len))
                     || exists b: nat :: Fits(old(Vmas()), b, len, bottom)
      ensures r == Err(EINVAL) <==>
                || (flags != 0x22 && flags != 0x32) || prot > VM_ALL || !Aligned(offset) || length == 0
                || (flags == 0x32 && length <= UVADDR_END - UVADDR_START && memOk
                    && (!Aligned(addr) || (!Allowed(addr, addr + AlignUp(length), bottom)
                                           && addr + AlignUp(length) <= UVADDR_END)))
      ensures r.Ok? && flags == 0x22 ==>
                var h, len := AlignDown(addr), AlignUp(length);
                Allowed(h, h + len, bottom) && Free(old(Vmas()), h, len) ==> r.value == h
    {
      hide Inorder, View, LeavesOk, Ordered, VmProt, Outside, Clean, Reads, Writes, Executes, AlignUp, Aligned,
        AlignDown, Free;
      // MAP_PRIVATE | MAP_ANONYMOUS, with or without MAP_FIXED
      if (flags != 0x22 && flags != 0x32) || prot > VM_ALL || !Aligned(offset) || length == 0 {
        return Err(EINVAL);
      }
      if length > UVADDR_END - UVADDR_START {
        return Err(ENOMEM);
      }
      var len := AlignUp(length);
      if !memOk {
        return Err(ENOMEM);
      }
      VmProtGrants(prot);
      var start := addr;
      if flags == 0x32 {
        AlignUpTwice(length);
        var end := RangeEnd(addr, len, bottom);
        if end.Err? {
          return Err(end.error);
        }
        var u := UnmapRange(addr, end.value, leftOk, rightOk);
        if u.Err? {
          return Err(ENOMEM);
        }
      } else {
        start := FindUnmapped(tree, addr, len, bottom);
        if start == 0 {
          return Err(ENOMEM);
        }
        FreeRange(Vmas(), start, len);
        forall x: nat | start <= x < start + len ensures At(x) == None {
          assert View(Vmas(), x).None?;
        }
      }
      AlignedSum(start, len);
      Place(start, start + len, VmProt(prot));
      return Ok(start);
    }

    /** The break can go to addr: it is between its start and the stack guard; the pages to add are free, there is
        memory for them and they lie in user space; or there is memory to split what is dropped. */
    ghost predicate BrkMoves(vs: seq<Vma>, from: nat, addr: nat, memOk: bool, leftOk: bool, rightOk: bool)
      requires StackOk(bottom)
    {
      var a, b := AlignUp(from), AlignUp(addr);
      && startBrk <= addr <= bottom - PAGE
      && (a < b ==> Free(vs, a, b - a) && memOk && UVADDR_START <= a)
      && (b < a ==> !NoRoom(vs, b, a, leftOk, rightOk))
    }

    /** sys_munmap: the range is empty afterwards, or nothing changes. */
    method Munmap(start: nat, len: nat, leftOk: bool, rightOk: bool) returns (r: Result<()>)
      requires Valid()
      modifies this`tree, this`leaves
      ensures Valid() && (r.Err? ==> tree == old(tree) && leaves == old(leaves))
      ensures r.Ok? <==> Aligned(start) && 0 < len && Allowed(start, start + AlignUp(len), bottom)
                         && !NoRoom(old(Vmas()), start, start + AlignUp(len), leftOk, rightOk)
      ensures r.Ok? ==> forall x: nat :: At(x) == if start <= x < start + AlignUp(len) then None else old(At(x))
      ensures r.Ok? ==> leaves == Outside(old(leaves), start, start + AlignUp(len))
    {
      hide Inorder, View, LeavesOk, Ordered, Outside, Clean, Allowed;
      var end := RangeEnd(start, len, bottom);
      if end.Err? {
        return Err(end.error);
      }
      AlignUpUnique(len, end.value - start);
      r := UnmapRange(start, end.value, leftOk, rightOk);
    }

    /** sys_mprotect: the addresses of the range up to the first hole get exactly the permissions that are asked for,
        and reading where writing is; what they are mapped to stays. */
    method Mprotect(start: nat, len: nat, prot: nat, leftOk: bool, rightOk: bool)
      returns (r: Result<()>, ghost top: nat)
      requires Valid()
      modifies this`tree, this`leaves
      ensures Valid() && start <= top <= start + AlignUp(len)
      ensures r.Ok? <==>
                Aligned(start) && (len > 0 ==>
                  && prot <= VM_ALL && Allowed(start, start + AlignUp(len), bottom)
                  && !NoRoom(old(Vmas()), start, start + AlignUp(len), leftOk, rightOk)
                  && forall x: nat :: start <= x < start + AlignUp(len) ==> old(At(x)).Some?)
      ensures r.Ok? ==> top == start + AlignUp(len)
      ensures forall x: nat :: !(start <= x < top) ==> At(x) == old(At(x))
      ensures forall x: nat :: start <= x < top ==>
                && At(x).Some? && old(At(x)).Some? && At(x).value.file == old(At(x)).value.file
                && At(x).value.flags <= VM_ALL
                && (Reads(At(x).value.flags) <==> Reads(prot) || Writes(prot))
                && (Writes(At(x).value.flags) <==> Writes(prot))
                && (Executes(At(x).value.flags) <==> Executes(prot))
    {
      hide Inorder, View, LeavesOk, Ordered, Clean, Allowed, VmProt, Reads, Writes, Executes, Repainted;
      top := start;
      if !Aligned(start) {
        return Err(EINVAL), start;
      }
      if len == 0 {
        return Ok(()), start;
      }
      if prot > VM_ALL {
        return Err(EINVAL), start;
      }
      var end := RangeEnd(start, len, bottom);
      if end.Err? {
        return Err(end.error), start;
      }
      AlignUpUnique(len, end.value - start);
      VmProtGrants(prot);
      r, top := ProtectRange(start, end.value, VmProt(prot), leftOk, rightOk);
    }

    /** sys_brk: moves the break if it may go there, nothing is mapped in between and memory is found; otherwise the old
        one stays, with nothing changed. */
    method Brk(addr: nat, memOk: bool, leftOk: bool, rightOk: bool) returns (r: nat)
      requires Valid()
      modifies this`tree, this`leaves, this`brk
      ensures Valid() && r == brk
      ensures r == if BrkMoves(old(Vmas()), old(brk), addr, memOk, leftOk, rightOk) then addr else old(brk)
      ensures r != addr ==> tree == old(tree) && leaves == old(leaves)
      ensures r == addr != old(brk) ==>
                var a, b := AlignUp(old(brk)), AlignUp(addr);
                && (forall x: nat :: At(x) ==
                      if a <= x < b then Some(Info(3, None)) else if b <= x < a then None else old(At(x)))
                && (forall x: nat :: a <= x < b ==> old(At(x)) == None)
    {
      hide Inorder, View, LeavesOk, Ordered, Outside, FirstMeets, Clean, Free;
      if addr < startBrk || addr > bottom - PAGE {
        return brk;
      }
      var start, end := AlignUp(brk), AlignUp(addr);
      if end > start {
        var found, at := FindIntersection(tree, start, end);
        MeetsNone(Vmas(), start, end - start, found, at);
        if found.Some? {
          return brk;
        }
        FreeRange(Vmas(), start, end - start);
        if !memOk || start < UVADDR_START {
          return brk;
        }
        forall x: nat | start <= x < end ensures At(x) == None && old(At(x)) == None {
          assert View(Vmas(), x).None?;
        }
        Place(start, end, 3);
      } else if end < start {
        var u := UnmapRange(end, start, leftOk, rightOk);
        if u.Err? {
          return brk;
        }
      }
      label placed:
      brk := addr;
      forall x: nat ensures At(x) == old@placed(At(x)) {
      }
      return brk;
    }
  }
}
