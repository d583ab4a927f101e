/** The ext2 block map: fs/ext2/bmap.c.

    An inode has 12 direct pointers and one pointer each to a single, a double and a triple indirect block. Here a
    pointer tree is a value next to the disk: `Holds` says that the disk holds the tree. Every read of an indirect
    block, and every allocation and release of a block, may fail.
 */
module Bmap {
  import opened Arith
  import opened Balloc
  import opened Errno

  const NDIR: nat := 12
  const NBLOCKS: nat := 15

  // ---------------------------------------------------------------------------------------------
  // Logical blocks and paths
  // ---------------------------------------------------------------------------------------------

  function Pow(p: nat, d: nat): (r: nat)
    ensures p > 0 ==> r > 0
  {
    if d == 0 then 1 else p * Pow(p, d - 1)
  }

  /** The first logical block behind each pointer of the inode. */
  function Base(p: nat, i: nat): nat
    requires i <= NBLOCKS
  {
    if i <= NDIR then i else Base(p, i - 1) + Pow(p, i - NDIR)
  }

  function DepthOf(i: nat): nat {
    if i < NDIR then 0 else i - NDIR + 1
  }

  /** A path: a pointer of the inode, then an index into each indirect block. */
  predicate ValidPath(p: nat, path: seq<nat>) {
    && |path| > 0 && path[0] < NBLOCKS && |path| == DepthOf(path[0]) + 1
    && forall i :: 1 <= i < |path| ==> path[i] < p
  }

  /** The offset of a position among the leaves of a tree. */
  function Val(p: nat, s: seq<nat>): nat {
    if s == [] then 0 else s[0] * Pow(p, |s| - 1) + Val(p, s[1..])
  }

  function PathToBlock(p: nat, path: seq<nat>): nat
    requires ValidPath(p, path)
  {
    Base(p, path[0]) + Val(p, path[1..])
  }

  /** ext2_block_to_path. */
  function BlockToPath(p: nat, lbn: nat): Result<seq<nat>>
    requires p > 0
  {
    if lbn < NDIR then Ok([lbn])
    else if lbn - NDIR < p then Ok([12, lbn - NDIR])
    else if lbn - NDIR - p < Pow(p, 2) then Ok([13, Quot(lbn - NDIR - p, p), Rem(lbn - NDIR - p, p)])
    else
      var n := lbn - NDIR - p - Pow(p, 2);
      if n >= Pow(p, 3) then Err(EFBIG) else Ok([14, Quot(n, Pow(p, 2)), Rem(Quot(n, p), p), Rem(n, p)])
  }

  function Quot(n: nat, p: nat): nat
    requires p > 0
  {
    n / p
  }

  function Rem(n: nat, p: nat): nat
    requires p > 0
  {
    n % p
  }

  lemma PowValues(p: nat)
    ensures Pow(p, 0) == 1 && Pow(p, 1) == p && Pow(p, 2) == p * p && Pow(p, 3) == p * Pow(p, 2)
  {
    assert Pow(p, 1) == p * Pow(p, 0);
    assert Pow(p, 2) == p * Pow(p, 1);
  }

  lemma BaseValues(p: nat)
    ensures Base(p, 12) == 12 && Base(p, 13) == 12 + p && Base(p, 14) == 12 + p + Pow(p, 2)
    ensures Base(p, 15) == 12 + p + Pow(p, 2) + Pow(p, 3)
  {
    PowValues(p);
  }

  lemma ValValues(p: nat, a: nat, b: nat, c: nat)
    ensures Val(p, []) == 0 && Val(p, [c]) == c && Val(p, [b, c]) == b * p + c
    ensures Val(p, [a, b, c]) == a * Pow(p, 2) + (b * p + c)
  {
    PowValues(p);
    hide Pow;
    assert [c][1..] == [] && [b, c][1..] == [c] && [a, b, c][1..] == [b, c];
  }

  lemma MulMono(a: nat, b: nat, p: nat)
    requires a <= b
    ensures a * p <= b * p
  {
  }

  lemma DivBound(n: nat, p: nat, k: nat)
    requires p > 0 && n < k * p
    ensures n / p < k
  {
    DivModBack(n, p);
    if k <= n / p { MulMono(k, n / p, p); }
  }

  /** Two digits below p, and division gives them back. */
  lemma TwoDigits(p: nat, b: nat, c: nat)
    requires b < p && c < p
    ensures b * p + c < Pow(p, 2) && (b * p + c) / p == b && (b * p + c) % p == c
  {
    PowValues(p);
    hide Pow;
    DivMod(b, c, p);
    NextMultiple(b, p, p);
  }

  lemma Horner(p: nat, a: nat, b: nat, c: nat)
    ensures a * (p * p) + (b * p + c) == (a * p + b) * p + c
  {
    assert a * (p * p) == (a * p) * p;
  }

  lemma ThreeDigits(p: nat, a: nat, b: nat, c: nat)
    requires a < p && b < p && c < p
    ensures var n := a * Pow(p, 2) + (b * p + c);
      n < Pow(p, 3) && n / Pow(p, 2) == a && n / p % p == b && n % p == c
  {
    TwoDigits(p, b, c);
    PowValues(p);
    Horner(p, a, b, c);
    DivMod(a * p + b, c, p);
    DivMod(a, b, p);
    var q := Pow(p, 2);
    hide Pow;
    DivMod(a, b * p + c, q);
    NextMultiple(a, p, q);
  }

  lemma SplitTwo(p: nat, n: nat)
    requires p > 0 && n < Pow(p, 2)
    ensures n / p < p && n % p < p && n == n / p * p + n % p
  {
    PowValues(p);
    hide Pow;
    DivModBack(n, p);
    DivBound(n, p, p);
  }

  lemma SplitThree(p: nat, n: nat)
    requires p > 0 && n < Pow(p, 3)
    ensures n / Pow(p, 2) < p && n / p % p < p && n % p < p
    ensures n == n / Pow(p, 2) * Pow(p, 2) + (n / p % p * p + n % p)
  {
    PowValues(p);
    var q := Pow(p, 2);
    hide Pow;
    var a, m := n / q, n % q;
    DivModBack(n, q);
    DivBound(n, q, p);
    SplitTwo(p, m);
    ThreeDigits(p, a, m / p, m % p);
  }

  lemma DoublePath(p: nat, n: nat)
    requires p > 0 && n < Pow(p, 2)
    ensures var path := [13, Quot(n, p), Rem(n, p)];
      ValidPath(p, path) && PathToBlock(p, path) == Base(p, 13) + n
  {
    SplitTwo(p, n);
    ValValues(p, 0, n / p, n % p);
    hide Pow, Val, Base;
    assert [13, n / p, n % p][1..] == [n / p, n % p];
  }

  lemma TriplePath(p: nat, n: nat)
    requires p > 0 && n < Pow(p, 3)
    ensures var path := [14, Quot(n, Pow(p, 2)), Rem(Quot(n, p), p), Rem(n, p)];
      ValidPath(p, path) && PathToBlock(p, path) == Base(p, 14) + n
  {
    SplitThree(p, n);
    ValValues(p, n / Pow(p, 2), n / p % p, n % p);
    hide Pow, Val, Base;
    assert [14, n / Pow(p, 2), n / p % p, n % p][1..] == [n / Pow(p, 2), n / p % p, n % p];
  }

  lemma ShortPath(p: nat, n: nat)
    ensures n < NDIR ==> ValidPath(p, [n]) && PathToBlock(p, [n]) == n
    ensures n < p ==> ValidPath(p, [12, n]) && PathToBlock(p, [12, n]) == NDIR + n
  {
    ValValues(p, 0, 0, n);
    assert [n][1..] == [] && [12, n][1..] == [n];
    hide Pow;
  }

  /** Every logical block below 12 + p + p^2 + p^3 has a path, and the path leads back to it. */
  lemma PathOfBlock(p: nat, lbn: nat)
    requires p > 0
    ensures BlockToPath(p, lbn).Ok? <==> lbn < Base(p, NBLOCKS)
    ensures BlockToPath(p, lbn).Err? ==> BlockToPath(p, lbn).error == EFBIG
    ensures BlockToPath(p, lbn).Ok? ==>
              var path := BlockToPath(p, lbn).value; ValidPath(p, path) && PathToBlock(p, path) == lbn
  {
    hide Pow, Val, Base, ValidPath, PathToBlock, Quot, Rem;
    BaseValues(p);
    if lbn < NDIR {
      ShortPath(p, lbn);
    } else if lbn - NDIR < p {
      ShortPath(p, lbn - NDIR);
    } else if lbn - NDIR - p < Pow(p, 2) {
      DoublePath(p, lbn - NDIR - p);
    } else if lbn - NDIR - p - Pow(p, 2) < Pow(p, 3) {
      TriplePath(p, lbn - NDIR - p - Pow(p, 2));
    }
  }

  /** Every valid path is the path of exactly one logical block. */
  lemma BlockOfPath(p: nat, path: seq<nat>)
    requires p > 0 && ValidPath(p, path)
    ensures PathToBlock(p, path) < Base(p, NBLOCKS)
    ensures BlockToPath(p, PathToBlock(p, path)) == Ok(path)
  {
    BaseValues(p);
    PowValues(p);
    var s := path[1..];
    if path[0] < NDIR {
      ValValues(p, 0, 0, 0);
      assert s == [] && path == [path[0]];
    } else if path[0] == 12 {
      ValValues(p, 0, 0, path[1]);
      assert s == [path[1]] && path == [12, path[1]];
    } else if path[0] == 13 {
      ValValues(p, 0, path[1], path[2]);
      TwoDigits(p, path[1], path[2]);
      assert s == [path[1], path[2]] && path == [13, path[1], path[2]];
    } else {
      ValValues(p, path[1], path[2], path[3]);
      ThreeDigits(p, path[1], path[2], path[3]);
      assert s == [path[1], path[2], path[3]] && path == [14, path[1], path[2], path[3]];
    }
  }

  // ---------------------------------------------------------------------------------------------
  // Pointer trees
  // ---------------------------------------------------------------------------------------------

  /** Disk sectors of n blocks. */
  function Sectors(n: nat, k: nat): nat {
    n * k
  }

  lemma SectorsAdd(x: nat, y: nat, k: nat)
    ensures Sectors(x + y, k) == Sectors(x, k) + Sectors(y, k)
  {
  }

  lemma SectorsFew(k: nat)
    ensures Sectors(0, k) == 0 && Sectors(1, k) == k
  {
  }

  datatype Tree = Hole | Data(b: nat) | Ind(b: nat, kids: seq<Tree>)

  type Disk = map<nat, seq<nat>>

  function Root(t: Tree): nat {
    if t.Hole? then 0 else t.b
  }

  ghost predicate WellFormed(p: nat, d: nat, t: Tree)
    decreases d
  {
    match t
    case Hole => true
    case Data(b) => d == 0 && b != 0
    case Ind(b, kids) => d > 0 && b != 0 && |kids| == p && forall i :: 0 <= i < p ==> WellFormed(p, d - 1, kids[i])
  }

  /** All blocks of a tree, indirect ones too. */
  ghost function Blocks(t: Tree): set<nat> {
    match t
    case Hole => {}
    case Data(b) => {b}
    case Ind(b, kids) => {b} + set i, x | 0 <= i < |kids| && x in Blocks(kids[i]) :: x
  }

  ghost function BlocksAll(ts: seq<Tree>): set<nat> {
    set i, x | 0 <= i < |ts| && x in Blocks(ts[i]) :: x
  }

  /** No block occurs twice. */
  ghost predicate Distinct(t: Tree) {
    t.Ind? ==>
      && t.b !in BlocksAll(t.kids)
      && (forall i :: 0 <= i < |t.kids| ==> Distinct(t.kids[i]))
      && (forall i, j :: 0 <= i < j < |t.kids| ==> Blocks(t.kids[i]) !! Blocks(t.kids[j]))
  }

  ghost predicate DistinctAll(ts: seq<Tree>) {
    && (forall i :: 0 <= i < |ts| ==> Distinct(ts[i]))
    && (forall i, j :: 0 <= i < j < |ts| ==> Blocks(ts[i]) !! Blocks(ts[j]))
  }

  /** The disk holds the tree: each indirect block holds the pointers to its children. */
  ghost predicate Holds(c: Disk, t: Tree) {
    t.Ind? ==>
      && t.b in c && |c[t.b]| == |t.kids|
      && forall i :: 0 <= i < |t.kids| ==> c[t.b][i] == Root(t.kids[i]) && Holds(c, t.kids[i])
  }

  /** The block that a position of the tree maps to, 0 for none. */
  function At(t: Tree, path: seq<nat>): nat
    decreases |path|
  {
    if path == [] then Root(t)
    else if t.Ind? && path[0] < |t.kids| then At(t.kids[path[0]], path[1..])
    else 0
  }

  predicate Digits(p: nat, path: seq<nat>) {
    forall i :: 0 <= i < |path| ==> path[i] < p
  }

  lemma {:induction false} HoldsFrame(c: Disk, c2: Disk, t: Tree)
    requires Holds(c, t)
    requires forall x :: x in Blocks(t) && x in c ==> x in c2 && c2[x] == c[x]
    ensures Holds(c2, t)
  {
    if t.Ind? {
      forall i | 0 <= i < |t.kids| ensures Holds(c2, t.kids[i]) {
        assert forall x :: x in Blocks(t.kids[i]) ==> x in Blocks(t);
        HoldsFrame(c, c2, t.kids[i]);
      }
    }
  }

  lemma BlockOfOne(ts: seq<Tree>, x: nat) returns (j: nat)
    requires x in BlocksAll(ts)
    ensures j < |ts| && x in Blocks(ts[j])
  {
    j :| 0 <= j < |ts| && x in Blocks(ts[j]);
  }

  lemma ReplaceSet(ts: seq<Tree>, i: nat, t: Tree)
    requires i < |ts| && forall j :: 0 <= j < |ts| && j != i ==> Blocks(ts[j]) !! Blocks(ts[i])
    ensures BlocksAll(ts[i := t]) == (BlocksAll(ts) - Blocks(ts[i])) + Blocks(t)
  {
    hide Blocks;
    var us := ts[i := t];
    forall x | x in BlocksAll(us) ensures x in (BlocksAll(ts) - Blocks(ts[i])) + Blocks(t) {
      var j := BlockOfOne(us, x);
      if j != i { assert x in Blocks(ts[j]); }
    }
    forall x | x in (BlocksAll(ts) - Blocks(ts[i])) + Blocks(t) ensures x in BlocksAll(us) {
      if x in Blocks(t) {
        assert us[i] == t;
      } else {
        var j := BlockOfOne(ts, x);
        assert us[j] == ts[j];
      }
    }
  }

  /** What replacing one tree among several does to their blocks. */
  lemma ReplaceBlocks(ts: seq<Tree>, i: nat, t: Tree)
    requires i < |ts| && DistinctAll(ts) && Distinct(t)
    requires Blocks(t) !! (BlocksAll(ts) - Blocks(ts[i]))
    ensures DistinctAll(ts[i := t])
    ensures BlocksAll(ts[i := t]) == (BlocksAll(ts) - Blocks(ts[i])) + Blocks(t)
  {
    hide Blocks, Distinct;
    forall j | 0 <= j < |ts| && j != i ensures Blocks(ts[j]) !! Blocks(ts[i]) && Blocks(ts[j]) !! Blocks(t) {
      assert forall x :: x in Blocks(ts[j]) ==> x in BlocksAll(ts);
    }
    ReplaceSet(ts, i, t);
  }

  lemma BlocksInd(b: nat, kids: seq<Tree>)
    ensures Blocks(Ind(b, kids)) == {b} + BlocksAll(kids)
    ensures Distinct(Ind(b, kids)) <==> b !in BlocksAll(kids) && DistinctAll(kids)
  {
  }

  // ---------------------------------------------------------------------------------------------
  // A new branch
  // ---------------------------------------------------------------------------------------------

  function Holes(p: nat): (ts: seq<Tree>)
    ensures |ts| == p
  {
    seq(p, _ => Hole)
  }

  /** A branch of new blocks down to a position. */
  function Chain(p: nat, path: seq<nat>, blks: seq<nat>): Tree
    requires |blks| == |path| + 1 && Digits(p, path)
    decreases |path|
  {
    if path == [] then Data(blks[0])
    else Ind(blks[0], Holes(p)[path[0] := Chain(p, path[1..], blks[1..])])
  }

  /** The position is not mapped, and the branch has the length that is missing. */
  ghost predicate Missing(p: nat, t: Tree, path: seq<nat>, blks: seq<nat>)
    decreases |path|
  {
    if t.Hole? then |blks| == |path| + 1
    else path != [] && t.Ind? && |t.kids| == p && path[0] < p && Missing(p, t.kids[path[0]], path[1..], blks)
  }

  function Insert(p: nat, t: Tree, path: seq<nat>, blks: seq<nat>): Tree
    requires Digits(p, path) && Missing(p, t, path, blks)
    decreases |path|
  {
    if t.Hole? then Chain(p, path, blks)
    else Ind(t.b, t.kids[path[0] := Insert(p, t.kids[path[0]], path[1..], blks)])
  }

  ghost function Elems(s: seq<nat>): set<nat> {
    set x | x in s
  }

  predicate AllDifferent(s: seq<nat>) {
    forall i, j :: 0 <= i < j < |s| ==> s[i] != s[j]
  }

  lemma ElemsHead(s: seq<nat>)
    requires s != []
    ensures Elems(s) == {s[0]} + Elems(s[1..])
    ensures AllDifferent(s) ==> AllDifferent(s[1..]) && s[0] !in Elems(s[1..])
  {
  }

  lemma HolesFacts(p: nat)
    ensures DistinctAll(Holes(p)) && BlocksAll(Holes(p)) == {}
  {
  }

  lemma {:induction false} ChainBlocks(p: nat, path: seq<nat>, blks: seq<nat>)
    requires |blks| == |path| + 1 && Digits(p, path) && AllDifferent(blks) && 0 !in blks
    ensures Blocks(Chain(p, path, blks)) == Elems(blks) && Distinct(Chain(p, path, blks))
    ensures WellFormed(p, |path|, Chain(p, path, blks)) && Root(Chain(p, path, blks)) == blks[0]
    decreases |path|
  {
    ElemsHead(blks);
    if path != [] {
      ChainBlocks(p, path[1..], blks[1..]);
      HolesFacts(p);
      var sub := Chain(p, path[1..], blks[1..]);
      ReplaceBlocks(Holes(p), path[0], sub);
      BlocksInd(blks[0], Holes(p)[path[0] := sub]);
    }
  }

  lemma {:induction false} HoleAt(path: seq<nat>)
    ensures At(Hole, path) == 0
  {
  }

  lemma {:induction false} ChainAt(p: nat, path: seq<nat>, blks: seq<nat>, q: seq<nat>)
    requires |blks| == |path| + 1 == |q| + 1 && Digits(p, path)
    ensures At(Chain(p, path, blks), q) == if q == path then blks[|path|] else 0
    decreases |path|
  {
    if path != [] {
      ChainAt(p, path[1..], blks[1..], q[1..]);
      assert path == [path[0]] + path[1..] && q == [q[0]] + q[1..];
      HoleAt(q[1..]);
    }
  }

  /** Mapping one position leaves every other as it was. */
  lemma {:induction false} InsertAt(p: nat, t: Tree, path: seq<nat>, blks: seq<nat>, q: seq<nat>)
    requires Digits(p, path) && Missing(p, t, path, blks) && |q| == |path|
    ensures |blks| > 0 && At(Insert(p, t, path, blks), q) == if q == path then blks[|blks| - 1] else At(t, q)
    ensures At(t, path) == 0
    decreases |path|
  {
    if t.Hole? {
      ChainAt(p, path, blks, q);
      HoleAt(q);
      HoleAt(path);
    } else {
      InsertAt(p, t.kids[path[0]], path[1..], blks, q[1..]);
      assert path == [path[0]] + path[1..] && q == [q[0]] + q[1..];
    }
  }

  lemma {:induction false} InsertBlocks(p: nat, d: nat, t: Tree, path: seq<nat>, blks: seq<nat>)
    requires Digits(p, path) && Missing(p, t, path, blks) && AllDifferent(blks) && 0 !in blks
    requires WellFormed(p, d, t) && d == |path| && Distinct(t) && Blocks(t) !! Elems(blks)
    ensures Blocks(Insert(p, t, path, blks)) == Blocks(t) + Elems(blks) && Distinct(Insert(p, t, path, blks))
    ensures WellFormed(p, d, Insert(p, t, path, blks))
    ensures t.Ind? ==> Root(Insert(p, t, path, blks)) == t.b
    ensures t.Hole? ==> Root(Insert(p, t, path, blks)) == blks[0]
    decreases |path|
  {
    if t.Hole? {
      ChainBlocks(p, path, blks);
    } else {
      var k := path[0];
      KidBlocks(t, k);
      InsertBlocks(p, d - 1, t.kids[k], path[1..], blks);
      var sub := Insert(p, t.kids[k], path[1..], blks);
      BlocksInd(t.b, t.kids);
      ReplaceBlocks(t.kids, k, sub);
      BlocksInd(t.b, t.kids[k := sub]);
    }
  }

  lemma KidBlocks(t: Tree, k: nat)
    requires t.Ind? && k < |t.kids|
    ensures Blocks(t.kids[k]) <= Blocks(t)
  {
  }

  /** The disk holds the indirect blocks of a new branch, each with one pointer. */
  ghost predicate Chained(p: nat, c: Disk, path: seq<nat>, blks: seq<nat>) {
    |blks| == |path| + 1 && Digits(p, path) &&
    forall j :: 0 <= j < |path| ==> blks[j] in c && c[blks[j]] == OnePointer(p, path[j], blks[j + 1])
  }

  function Put(s: seq<nat>, i: nat, b: nat): seq<nat>
    requires i < |s|
  {
    s[i := b]
  }

  function OnePointer(p: nat, i: nat, b: nat): seq<nat>
    requires i < p
  {
    seq(p, k => 0)[i := b]
  }

  lemma {:induction false} ChainHolds(p: nat, c: Disk, path: seq<nat>, blks: seq<nat>)
    requires Chained(p, c, path, blks)
    ensures Holds(c, Chain(p, path, blks)) && Root(Chain(p, path, blks)) == blks[0]
    decreases |path|
  {
    if path != [] {
      assert Chained(p, c, path[1..], blks[1..]);
      ChainHolds(p, c, path[1..], blks[1..]);
      assert blks[0] in c && c[blks[0]] == OnePointer(p, path[0], blks[1]);
    }
  }

  /** The part of the tree that a path leads to. */
  function Sub(t: Tree, path: seq<nat>): Tree
    decreases |path|
  {
    if path == [] then t
    else if t.Ind? && path[0] < |t.kids| then Sub(t.kids[path[0]], path[1..])
    else Hole
  }

  lemma {:induction false} SubStep(t: Tree, path: seq<nat>, level: nat)
    requires level < |path|
    ensures var u := Sub(t, path[..level]);
      Sub(t, path[..level + 1]) == if u.Ind? && path[level] < |u.kids| then u.kids[path[level]] else Hole
    decreases level
  {
    if level > 0 && t.Ind? && path[0] < |t.kids| {
      SubStep(t.kids[path[0]], path[1..], level - 1);
      assert path[..level][1..] == path[1..][..level - 1] && path[..level + 1][1..] == path[1..][..level];
    } else if level == 0 {
      assert path[..1] == [path[0]] && path[..0] == [];
    }
  }

  lemma {:induction false} SubAt(t: Tree, path: seq<nat>)
    ensures At(t, path) == Root(Sub(t, path))
    decreases |path|
  {
    if path != [] && t.Ind? && path[0] < |t.kids| {
      SubAt(t.kids[path[0]], path[1..]);
    }
  }

  /** The walk came to a hole after `level` indirect blocks. */
  ghost predicate HoleAfter(p: nat, t: Tree, path: seq<nat>, level: nat) {
    && level <= |path| && Sub(t, path[..level]) == Hole && Digits(p, path)
    && forall l :: 0 <= l < level ==> Sub(t, path[..l]).Ind? && |Sub(t, path[..l]).kids| == p
  }

  lemma {:induction false} HoleMissing(p: nat, t: Tree, path: seq<nat>, level: nat, blks: seq<nat>)
    requires HoleAfter(p, t, path, level) && |blks| == |path| + 1 - level
    ensures Missing(p, t, path, blks)
    decreases level
  {
    assert path[..0] == [];
    if level > 0 {
      assert Sub(t, path[..0]).Ind?;
      HoleTail(p, t, path, level);
      HoleMissing(p, t.kids[path[0]], path[1..], level - 1, blks);
    }
  }

  lemma HoleTail(p: nat, t: Tree, path: seq<nat>, level: nat)
    requires HoleAfter(p, t, path, level) && level > 0
    ensures t.Ind? && |t.kids| == p && HoleAfter(p, t.kids[path[0]], path[1..], level - 1)
    ensures forall l :: 0 <= l < level ==> Sub(t.kids[path[0]], path[1..][..l]) == Sub(t, path[..l + 1])
  {
    assert path[..0] == [] && Sub(t, path[..0]).Ind?;
    forall l | 0 <= l < level ensures Sub(t.kids[path[0]], path[1..][..l]) == Sub(t, path[..l + 1]) {
      assert path[..l + 1][1..] == path[1..][..l];
    }
    assert path[1..][..level - 1] == path[..level][1..];
    forall l | 0 <= l < level - 1 ensures Sub(t.kids[path[0]], path[1..][..l]).Ind?
                                          && |Sub(t.kids[path[0]], path[1..][..l]).kids| == p {
      assert Sub(t, path[..l + 1]).Ind?;
    }
  }

  /** The disk after the branch is spliced in: the last indirect block of the walk has the new pointer, and nothing
      else of the tree changed. */
  ghost predicate Spliced(c: Disk, c2: Disk, t: Tree, path: seq<nat>, level: nat, b: nat) {
    && 0 < level <= |path|
    && var joint := Root(Sub(t, path[..level - 1]));
       && joint in c && joint in c2 && path[level - 1] < |c[joint]| && c2[joint] == c[joint][path[level - 1] := b]
       && forall x :: x in Blocks(t) && x in c && x != joint ==> x in c2 && c2[x] == c[x]
  }

  lemma OtherHolds(p: nat, c: Disk, c2: Disk, t: Tree, path: seq<nat>, level: nat, i: nat, b: nat)
    requires HoleAfter(p, t, path, level) && level > 0 && Holds(c, t) && Distinct(t)
    requires Spliced(c, c2, t, path, level, b)
    requires |path| > 0 && t.Ind? && path[0] < |t.kids| && i < |t.kids| && i != path[0]
    ensures Holds(c2, t.kids[i])
  {
    OtherKid(t, path, level, i);
    KidBlocks(t, i);
    HoldsFrame(c, c2, t.kids[i]);
  }

  /** Below the root the splice is a splice of the child that the path goes through. */
  lemma SplicedBelow(p: nat, c: Disk, c2: Disk, t: Tree, path: seq<nat>, level: nat, b: nat)
    requires HoleAfter(p, t, path, level) && level > 1 && Holds(c, t) && Distinct(t)
    requires Spliced(c, c2, t, path, level, b)
    ensures t.Ind? && |t.kids| == p && t.kids[path[0]].Ind? && t.b in c2 && c2[t.b] == c[t.b]
    ensures Spliced(c, c2, t.kids[path[0]], path[1..], level - 1, b)
  {
    hide Distinct, Holds;
    HoleTail(p, t, path, level);
    JointBelow(t, path, level);
    KidBlocks(t, path[0]);
    assert path[1..][..level - 2] == path[..level - 1][1..];
    assert path[1..][..0] == [] && Sub(t.kids[path[0]], path[1..][..0]).Ind?;
    RootHeld(c, t);
  }

  lemma RootHeld(c: Disk, t: Tree)
    requires t.Ind? && Holds(c, t)
    ensures t.b in c && t.b in Blocks(t) && |c[t.b]| == |t.kids|
    ensures forall i :: 0 <= i < |t.kids| ==> c[t.b][i] == Root(t.kids[i]) && Holds(c, t.kids[i])
    ensures forall i :: 0 <= i < |t.kids| && Distinct(t) ==> Distinct(t.kids[i])
  {
  }

  /** A child and its pointer are replaced. */
  lemma KidReplaced(c: Disk, c2: Disk, t: Tree, k: nat, u: Tree)
    requires t.Ind? && Holds(c, t) && k < |t.kids| && Holds(c2, u)
    requires t.b in c && |c[t.b]| == |t.kids| && t.b in c2 && c2[t.b] == c[t.b][k := Root(u)]
    requires forall i :: 0 <= i < |t.kids| && i != k ==> Holds(c2, t.kids[i])
    ensures Holds(c2, Ind(t.b, t.kids[k := u]))
  {
    RootHeld(c, t);
  }

  lemma {:induction false} InsertHolds(p: nat, c: Disk, c2: Disk, t: Tree, path: seq<nat>, level: nat, blks: seq<nat>)
    requires HoleAfter(p, t, path, level) && level > 0 && |blks| == |path| + 1 - level
    requires Holds(c, t) && Distinct(t) && Spliced(c, c2, t, path, level, blks[0])
    requires Chained(p, c2, path[level..], blks)
    requires Missing(p, t, path, blks)
    ensures Holds(c2, Insert(p, t, path, blks))
    decreases level
  {
    hide Distinct, Holds, Blocks, Chained;
    HoleTail(p, t, path, level);
    RootHeld(c, t);
    var k := path[0];
    var u := t.kids[k];
    if level == 1 {
      assert path[..0] == [] && path[1..][..0] == [];
      ChainHolds(p, c2, path[1..], blks);
    } else {
      SplicedBelow(p, c, c2, t, path, level, blks[0]);
      assert path[1..][level - 1..] == path[level..];
      InsertHolds(p, c, c2, u, path[1..], level - 1, blks);
    }
    forall i | 0 <= i < |t.kids| && i != k ensures Holds(c2, t.kids[i]) {
      OtherHolds(p, c, c2, t, path, level, i, blks[0]);
    }
    KidReplaced(c, c2, t, k, Insert(p, u, path[1..], blks));
  }

  lemma {:induction false} SubBlocks(t: Tree, path: seq<nat>)
    ensures Blocks(Sub(t, path)) <= Blocks(t)
    decreases |path|
  {
    if path != [] && t.Ind? && path[0] < |t.kids| {
      SubBlocks(t.kids[path[0]], path[1..]);
      KidBlocks(t, path[0]);
    }
  }

  /** The joint is in the tree that the path goes through. */
  lemma JointBelow(t: Tree, path: seq<nat>, level: nat)
    requires t.Ind? && |path| > 0 && path[0] < |t.kids| && 1 < level <= |path| && Sub(t, path[..level - 1]).Ind?
    requires Distinct(t)
    ensures Root(Sub(t, path[..level - 1])) in Blocks(t.kids[path[0]]) && Root(Sub(t, path[..level - 1])) != t.b
  {
    SubBlocks(t.kids[path[0]], path[..level - 1][1..]);
    BlocksInd(t.b, t.kids);
  }

  lemma OtherKid(t: Tree, path: seq<nat>, level: nat, i: nat)
    requires t.Ind? && Distinct(t) && |path| > 0 && path[0] < |t.kids| && i < |t.kids| && i != path[0]
    requires 0 < level <= |path| && Sub(t, path[..level - 1]).Ind?
    ensures Root(Sub(t, path[..level - 1])) !in Blocks(t.kids[i])
  {
    BlocksInd(t.b, t.kids);
    if level == 1 {
      assert path[..0] == [];
    } else {
      JointBelow(t, path, level);
      assert Blocks(t.kids[i]) !! Blocks(t.kids[path[0]]);
    }
  }

  // ---------------------------------------------------------------------------------------------
  // Trimming
  // ---------------------------------------------------------------------------------------------

  /** u is t without some positions from keep on; without all of them if the trim is done. The first position of the
      tree is logical block `first`. */
  ghost predicate Trimmed(p: nat, d: nat, t: Tree, u: Tree, first: nat, keep: nat, done: bool) {
    forall q: seq<nat> :: |q| == d && Digits(p, q) ==>
      if first + Val(p, q) < keep then At(u, q) == At(t, q)
      else At(u, q) == 0 || (!done && At(u, q) == At(t, q))
  }

  lemma {:induction false} ValBound(p: nat, q: seq<nat>)
    requires p > 0 && Digits(p, q)
    ensures Val(p, q) < Pow(p, |q|)
    decreases |q|
  {
    if q != [] {
      ValBound(p, q[1..]);
      NextMultiple(q[0], p, Pow(p, |q| - 1));
    }
  }

  lemma PowDiv(p: nat, d: nat)
    requires p > 0 && d > 0
    ensures Pow(p, d) / p == Pow(p, d - 1)
  {
    DivMod(Pow(p, d - 1), 0, p);
    assert Pow(p, d) == Pow(p, d - 1) * p + 0;
  }

  lemma TrimmedNothing(p: nat, d: nat, t: Tree, first: nat, keep: nat)
    requires p > 0 && (t == Hole || first + Pow(p, d) <= keep)
    ensures Trimmed(p, d, t, t, first, keep, true)
  {
    forall q: seq<nat> | |q| == d && Digits(p, q) ensures first + Val(p, q) < keep || At(t, q) == 0 {
      ValBound(p, q);
      if t == Hole { HoleAt(q); }
    }
  }

  lemma TrimmedLeaf(p: nat, t: Tree, first: nat, keep: nat)
    requires keep <= first
    ensures Trimmed(p, 0, t, Hole, first, keep, true)
  {
  }

  lemma TrimmedSame(p: nat, d: nat, t: Tree, first: nat, keep: nat)
    ensures Trimmed(p, d, t, t, first, keep, false)
  {
  }

  /** A tree is trimmed when its children are. */
  lemma TrimmedKids(p: nat, d: nat, b: nat, kids: seq<Tree>, ks: seq<Tree>, first: nat, keep: nat, done: bool)
    requires p > 0 && d > 0 && |kids| == |ks| == p
    requires forall i :: 0 <= i < p ==> Trimmed(p, d - 1, kids[i], ks[i], first + i * Pow(p, d - 1), keep, done)
    ensures Trimmed(p, d, Ind(b, kids), Ind(b, ks), first, keep, done)
  {
    forall q: seq<nat> | |q| == d && Digits(p, q)
      ensures if first + Val(p, q) < keep then At(Ind(b, ks), q) == At(Ind(b, kids), q)
              else At(Ind(b, ks), q) == 0 || (!done && At(Ind(b, ks), q) == At(Ind(b, kids), q))
    {
      var i := q[0];
      assert Trimmed(p, d - 1, kids[i], ks[i], first + i * Pow(p, d - 1), keep, done);
      assert |q[1..]| == d - 1 && Digits(p, q[1..]);
      assert Val(p, q) == i * Pow(p, d - 1) + Val(p, q[1..]);
    }
  }

  lemma TrimmedAway(p: nat, d: nat, t: Tree, b: nat, ks: seq<Tree>, first: nat, keep: nat, done: bool)
    requires |ks| == p && Trimmed(p, d, t, Ind(b, ks), first, keep, done) && d > 0
    requires forall i :: 0 <= i < p ==> ks[i] == Hole
    ensures Trimmed(p, d, t, Hole, first, keep, done)
  {
    forall q: seq<nat> | |q| == d && Digits(p, q) ensures At(Ind(b, ks), q) == At(Hole, q) == 0 {
      HoleAt(q);
      HoleAt(q[1..]);
    }
  }

  lemma TrimmedWeaker(p: nat, d: nat, t: Tree, u: Tree, first: nat, keep: nat)
    requires Trimmed(p, d, t, u, first, keep, true)
    ensures Trimmed(p, d, t, u, first, keep, false)
  {
  }

  /** What trimming a tree did: the tree that is left, the blocks given back, and the sectors counted off. */
  ghost predicate TrimDone(p: nat, d: nat, t: Tree, u: Tree, c: Disk, c2: Disk, used: set<nat>, used2: set<nat>,
                           n: nat, n2: nat, k: nat)
  {
    && WellFormed(p, d, u) && Holds(c2, u) && Distinct(u) && Blocks(u) <= Blocks(t)
    && used2 == used - (Blocks(t) - Blocks(u))
    && n2 + Sectors(|Blocks(t)|, k) == n + Sectors(|Blocks(u)|, k)
    && (forall x: nat :: x !in Blocks(t) ==> (x in c2 <==> x in c) && (x in c ==> c2[x] == c[x]))
  }

  /** The same for the children of a block in the loop over them. */
  ghost predicate KidsDone(p: nat, d: nat, b: nat, kids: seq<Tree>, ks: seq<Tree>, c: Disk, c2: Disk,
                           used: set<nat>, used2: set<nat>, n: nat, n2: nat, k: nat)
  {
    && d > 0 && b != 0 && |kids| == |ks| == p && b !in BlocksAll(kids) && DistinctAll(ks)
    && (forall i :: 0 <= i < p ==> WellFormed(p, d - 1, ks[i]) && Holds(c2, ks[i]) && Blocks(ks[i]) <= Blocks(kids[i]))
    && b in c2 && |c2[b]| == p && (forall i :: 0 <= i < p ==> c2[b][i] == Root(ks[i]))
    && used2 == used - (BlocksAll(kids) - BlocksAll(ks))
    && n2 + Sectors(|BlocksAll(kids)|, k) == n + Sectors(|BlocksAll(ks)|, k)
    && (forall x: nat :: x != b && x !in BlocksAll(kids) ==> (x in c2 <==> x in c) && (x in c ==> c2[x] == c[x]))
  }

  /** What a trim is called with. */
  ghost predicate TrimReady(p: nat, d: nat, t: Tree, c: Disk, used: set<nat>, n: nat, k: nat) {
    p > 0 && WellFormed(p, d, t) && Holds(c, t) && Distinct(t) && Blocks(t) <= used && n >= Sectors(|Blocks(t)|, k)
  }

  lemma KidsBegin(p: nat, d: nat, t: Tree, c: Disk, used: set<nat>, n: nat, k: nat)
    requires TrimReady(p, d, t, c, used, n, k) && t.Ind?
    ensures KidsDone(p, d, t.b, t.kids, t.kids, c, c, used, used, n, n, k)
    ensures d > 0 && t.b in c && t.b in used
  {
    BlocksInd(t.b, t.kids);
  }

  lemma CountKids(b: nat, kids: seq<Tree>, k: nat)
    requires b !in BlocksAll(kids)
    ensures Sectors(|Blocks(Ind(b, kids))|, k) == Sectors(|BlocksAll(kids)|, k) + k
  {
    BlocksInd(b, kids);
    hide Blocks, BlocksAll;
    SectorsAdd(|BlocksAll(kids)|, 1, k);
    SectorsFew(k);
    hide Sectors;
  }

  lemma SubsetCount(a: set<nat>, b: set<nat>, k: nat)
    requires a <= b
    ensures Sectors(|a|, k) <= Sectors(|b|, k)
  {
    assert |b| == |a| + |b - a|;
    SectorsAdd(|a|, |b - a|, k);
  }

  lemma KidReady(p: nat, d: nat, t: Tree, ks: seq<Tree>, c: Disk, c1: Disk, used: set<nat>, used1: set<nat>,
                 n: nat, n1: nat, k: nat, i: nat)
    requires TrimReady(p, d, t, c, used, n, k) && t.Ind? && i < p
    requires KidsDone(p, d, t.b, t.kids, ks, c, c1, used, used1, n, n1, k)
    ensures TrimReady(p, d - 1, ks[i], c1, used1, n1, k)
  {
    BlocksInd(t.b, t.kids);
    CountKids(t.b, t.kids, k);
    TreeIn(ks, i);
    SubsetCount(Blocks(ks[i]), BlocksAll(ks), k);
    assert Blocks(ks[i]) <= Blocks(t.kids[i]);
    TreeIn(t.kids, i);
    hide WellFormed, Holds, Distinct, Blocks;
  }

  lemma SetReplace(a: set<nat>, b: set<nat>, e: set<nat>, k: nat)
    requires e <= b <= a
    ensures (a - b) + e == a - (b - e)
    ensures Sectors(|a - (b - e)|, k) + Sectors(|b|, k) == Sectors(|a|, k) + Sectors(|e|, k)
  {
    assert (a - b) + e == a - (b - e);
    assert |a - b| == |a| - |b|;
    assert |(a - b) + e| == |a - b| + |e|;
    SectorsAdd(|a - b|, |e|, k);
    SectorsAdd(|a - b|, |b|, k);
  }

  lemma ReplaceCount(ts: seq<Tree>, i: nat, u: Tree, k: nat)
    requires i < |ts| && DistinctAll(ts) && Distinct(u) && Blocks(u) <= Blocks(ts[i])
    ensures DistinctAll(ts[i := u]) && BlocksAll(ts[i := u]) == BlocksAll(ts) - (Blocks(ts[i]) - Blocks(u))
    ensures Sectors(|BlocksAll(ts[i := u])|, k) + Sectors(|Blocks(ts[i])|, k)
            == Sectors(|BlocksAll(ts)|, k) + Sectors(|Blocks(u)|, k)
  {
    hide Blocks, BlocksAll, Distinct, DistinctAll, Sectors;
    TreeIn(ts, i);
    ReplaceBlocks(ts, i, u);
    SetReplace(BlocksAll(ts), Blocks(ts[i]), Blocks(u), k);
  }

  lemma UsedStep(used: set<nat>, all: set<nat>, a: set<nat>, b: set<nat>, e: set<nat>)
    requires e <= b <= a <= all <= used
    ensures (used - (all - a)) - (b - e) == used - (all - (a - (b - e)))
  {
  }

  lemma KidsStep(p: nat, d: nat, b: nat, kids: seq<Tree>, ks: seq<Tree>, c: Disk, c1: Disk, c2: Disk,
                 used: set<nat>, used1: set<nat>, used2: set<nat>, n: nat, n1: nat, n2: nat, k: nat, i: nat, u: Tree)
    requires KidsDone(p, d, b, kids, ks, c, c1, used, used1, n, n1, k) && i < p
    requires TrimDone(p, d - 1, ks[i], u, c1, c2, used1, used2, n1, n2, k)
    requires BlocksAll(kids) <= used
    ensures b in c2 && |c2[b]| == p
    ensures KidsDone(p, d, b, kids, ks[i := u], c, c2[b := Put(c2[b], i, Root(u))], used, used2, n, n2, k)
  {
    hide WellFormed, Holds, Distinct, DistinctAll, Blocks, BlocksAll, Sectors;
    ReplaceCount(ks, i, u, k);
    TreeIn(ks, i);
    KidsWithin(kids, ks);
    UsedStep(used, BlocksAll(kids), BlocksAll(ks), Blocks(ks[i]), Blocks(u));
    var us, c3 := ks[i := u], c2[b := Put(c2[b], i, Root(u))];
    KidsHold(p, d, b, ks, u, c1, c2, c3, i);
    assert n2 + Sectors(|BlocksAll(kids)|, k) == n + Sectors(|BlocksAll(us)|, k);
    assert used2 == used - (BlocksAll(kids) - BlocksAll(us));
    forall j | 0 <= j < p ensures WellFormed(p, d - 1, us[j]) && Holds(c3, us[j]) && Blocks(us[j]) <= Blocks(kids[j]) {
      assert us[j] == if j == i then u else ks[j];
      assert Blocks(ks[j]) <= Blocks(kids[j]);
    }
    assert forall x: nat :: x != b && x !in BlocksAll(kids) ==> (x in c3 <==> x in c) && (x in c ==> c3[x] == c[x]);
  }

  lemma KidsWithin(kids: seq<Tree>, ks: seq<Tree>)
    requires |kids| == |ks| && forall i :: 0 <= i < |ks| ==> Blocks(ks[i]) <= Blocks(kids[i])
    ensures BlocksAll(ks) <= BlocksAll(kids)
  {
  }

  /** The other children do not see the trim of one. */
  lemma KidsHold(p: nat, d: nat, b: nat, ks: seq<Tree>, u: Tree, c1: Disk, c2: Disk, c3: Disk, i: nat)
    requires |ks| == p && i < p && DistinctAll(ks) && b !in BlocksAll(ks) && b in c1 && |c1[b]| == p
    requires forall j :: 0 <= j < p ==> Holds(c1, ks[j]) && c1[b][j] == Root(ks[j])
    requires Holds(c2, u) && Blocks(u) <= Blocks(ks[i])
    requires forall x: nat :: x !in Blocks(ks[i]) ==> (x in c2 <==> x in c1) && (x in c1 ==> c2[x] == c1[x])
    requires b in c2 && |c2[b]| == p && c3 == c2[b := Put(c2[b], i, Root(u))]
    ensures c2[b] == c1[b]
    ensures Holds(c3, u) && forall j :: 0 <= j < p && j != i ==> Holds(c3, ks[j])
    ensures forall j :: 0 <= j < p ==> c3[b][j] == Root(ks[i := u][j])
  {
    hide Blocks, BlocksAll, Distinct, DistinctAll, Holds;
    TreeIn(ks, i);
    forall j | 0 <= j < p && j != i ensures Holds(c3, ks[j]) {
      TreeIn(ks, j);
      assert Blocks(ks[j]) !! Blocks(ks[i]);
      HoldsFrame(c1, c3, ks[j]);
    }
    HoldsFrame(c2, c3, u);
  }

  lemma IndOk(p: nat, d: nat, b: nat, ks: seq<Tree>, c: Disk)
    requires d > 0 && b != 0 && |ks| == p && b !in BlocksAll(ks) && DistinctAll(ks)
    requires forall i :: 0 <= i < p ==> WellFormed(p, d - 1, ks[i]) && Holds(c, ks[i])
    requires b in c && |c[b]| == p && (forall i :: 0 <= i < p ==> c[b][i] == Root(ks[i]))
    ensures WellFormed(p, d, Ind(b, ks)) && Holds(c, Ind(b, ks)) && Distinct(Ind(b, ks))
  {
    BlocksInd(b, ks);
  }

  lemma KidsEnd(p: nat, d: nat, t: Tree, ks: seq<Tree>, c: Disk, c2: Disk, used: set<nat>, used2: set<nat>,
                n: nat, n2: nat, k: nat)
    requires TrimReady(p, d, t, c, used, n, k) && t.Ind?
    requires KidsDone(p, d, t.b, t.kids, ks, c, c2, used, used2, n, n2, k)
    ensures TrimDone(p, d, t, Ind(t.b, ks), c, c2, used, used2, n, n2, k)
  {
    hide Sectors, BlocksAll, Blocks, WellFormed, Holds, Distinct, DistinctAll;
    KidsWithin(t.kids, ks);
    BlocksInd(t.b, t.kids);
    BlocksInd(t.b, ks);
    CountKids(t.b, t.kids, k);
    CountKids(t.b, ks, k);
    IndOk(p, d, t.b, ks, c2);
    assert Blocks(t) - Blocks(Ind(t.b, ks)) == BlocksAll(t.kids) - BlocksAll(ks);
  }

  lemma KidsFree(p: nat, d: nat, t: Tree, ks: seq<Tree>, c: Disk, c2: Disk, used: set<nat>, used2: set<nat>,
                 n: nat, n2: nat, k: nat)
    requires TrimReady(p, d, t, c, used, n, k) && t.Ind?
    requires KidsDone(p, d, t.b, t.kids, ks, c, c2, used, used2, n, n2, k)
    requires forall i :: 0 <= i < p ==> ks[i] == Hole
    ensures n2 >= k && TrimDone(p, d, t, Hole, c, c2, used, used2 - {t.b}, n, n2 - k, k)
  {
    hide Sectors, BlocksAll, Blocks, WellFormed, Holds, Distinct, DistinctAll;
    AllHoles(p, d, ks, c2);
    BlocksInd(t.b, t.kids);
    CountKids(t.b, t.kids, k);
    SectorsFew(k);
    assert Blocks(t) == {t.b} + BlocksAll(t.kids);
    assert used2 - {t.b} == used - (Blocks(t) - Blocks(Hole));
  }

  lemma AllHoles(p: nat, d: nat, ks: seq<Tree>, c: Disk)
    requires forall i :: 0 <= i < |ks| ==> ks[i] == Hole
    ensures BlocksAll(ks) == {} && Blocks(Hole) == {} && WellFormed(p, d, Hole) && Holds(c, Hole) && Distinct(Hole)
  {
  }

  // ---------------------------------------------------------------------------------------------
  // The inode
  // ---------------------------------------------------------------------------------------------

  /** The pointers of an inode and the disk hold a forest without a repeated block. */
  ghost predicate ForestOk(p: nat, c: Disk, data: seq<nat>, forest: seq<Tree>) {
    && |data| == |forest| == NBLOCKS && DistinctAll(forest)
    && forall i :: 0 <= i < NBLOCKS ==>
         WellFormed(p, DepthOf(i), forest[i]) && data[i] == Root(forest[i]) && Holds(c, forest[i])
  }

  /** The block that an inode maps a logical block to, 0 for none. */
  ghost function MappedIn(p: nat, forest: seq<Tree>, lbn: nat): nat
    requires p > 0 && |forest| == NBLOCKS
  {
    var path := BlockToPath(p, lbn);
    if path.Err? || path.value == [] || path.value[0] >= NBLOCKS then 0
    else At(forest[path.value[0]], path.value[1..])
  }

  /** One step of a walk down a tree that the disk holds. */
  lemma WalkStep(p: nat, c: Disk, t: Tree, path: seq<nat>, level: nat)
    requires p > 0 && WellFormed(p, |path|, t) && Holds(c, t) && level < |path| && path[level] < p
    requires WellFormed(p, |path| - level, Sub(t, path[..level])) && Holds(c, Sub(t, path[..level]))
    requires Root(Sub(t, path[..level])) != 0
    ensures var u, b := Sub(t, path[..level]), Root(Sub(t, path[..level]));
      && u.Ind? && |u.kids| == p && b in c && |c[b]| == p
      && c[b][path[level]] == Root(Sub(t, path[..level + 1]))
      && WellFormed(p, |path| - level - 1, Sub(t, path[..level + 1])) && Holds(c, Sub(t, path[..level + 1]))
  {
    SubStep(t, path, level);
  }

  lemma {:induction false} HoleBelow(t: Tree, path: seq<nat>, level: nat)
    requires level <= |path| && Sub(t, path[..level]) == Hole
    ensures At(t, path) == 0
    decreases |path| - level
  {
    if level == |path| {
      assert path[..level] == path;
      SubAt(t, path);
    } else {
      SubStep(t, path, level);
      HoleBelow(t, path, level + 1);
    }
  }

  /** The disk and the pointers after a branch was spliced in. */
  ghost predicate SplicedIn(c: Disk, c2: Disk, data: seq<nat>, data2: seq<nat>, forest: seq<Tree>, offs: seq<nat>,
                            level: nat, blks: seq<nat>)
    requires |forest| == |data| == NBLOCKS && |offs| > 0 && offs[0] < NBLOCKS && blks != [] && level < |offs|
  {
    if level == 0 then
      && data2 == data[offs[0] := blks[0]]
      && (forall x :: x in BlocksAll(forest) && x in c ==> x in c2 && c2[x] == c[x])
    else
      && data2 == data && Spliced(c, c2, forest[offs[0]], offs[1..], level, blks[0])
      && (forall x :: x in BlocksAll(forest) && x in c && x !in Blocks(forest[offs[0]]) ==> x in c2 && c2[x] == c[x])
  }

  lemma CreatedTree(p: nat, c: Disk, c2: Disk, data: seq<nat>, data2: seq<nat>, forest: seq<Tree>, offs: seq<nat>,
                    level: nat, blks: seq<nat>)
    requires ForestOk(p, c, data, forest) && ValidPath(p, offs) && level < |offs|
    requires HoleAfter(p, forest[offs[0]], offs[1..], level) && |blks| == |offs| - level
    requires AllDifferent(blks) && 0 !in blks && Elems(blks) !! BlocksAll(forest)
    requires Chained(p, c2, offs[level + 1..], blks)
    requires SplicedIn(c, c2, data, data2, forest, offs, level, blks)
    ensures Digits(p, offs[1..]) && Missing(p, forest[offs[0]], offs[1..], blks)
    ensures var t, u := forest[offs[0]], Insert(p, forest[offs[0]], offs[1..], blks);
      && Holds(c2, u) && WellFormed(p, DepthOf(offs[0]), u) && Distinct(u) && Blocks(u) == Blocks(t) + Elems(blks)
      && data2[offs[0]] == Root(u)
  {
    var t, path := forest[offs[0]], offs[1..];
    assert Digits(p, path);
    HoleMissing(p, t, path, level, blks);
    TreeIn(forest, offs[0]);
    InsertBlocks(p, |path|, t, path, blks);
    assert path[level..] == offs[level + 1..];
    assert path[..0] == [];
    if level == 0 {
      ChainHolds(p, c2, path, blks);
    } else {
      InsertHolds(p, c, c2, t, path, level, blks);
      assert Sub(t, path[..0]).Ind?;
    }
  }

  lemma TreeIn(ts: seq<Tree>, i: nat)
    requires i < |ts|
    ensures Blocks(ts[i]) <= BlocksAll(ts)
    ensures DistinctAll(ts) ==> Distinct(ts[i]) && forall j :: 0 <= j < |ts| && j != i ==>
              Blocks(ts[j]) !! Blocks(ts[i])
  {
  }

  lemma CreatedForest(p: nat, c: Disk, c2: Disk, data: seq<nat>, data2: seq<nat>, forest: seq<Tree>, offs: seq<nat>,
                      level: nat, blks: seq<nat>)
    requires ForestOk(p, c, data, forest) && ValidPath(p, offs) && level < |offs|
    requires HoleAfter(p, forest[offs[0]], offs[1..], level) && |blks| == |offs| - level
    requires AllDifferent(blks) && 0 !in blks && Elems(blks) !! BlocksAll(forest)
    requires Chained(p, c2, offs[level + 1..], blks)
    requires SplicedIn(c, c2, data, data2, forest, offs, level, blks)
    ensures Digits(p, offs[1..]) && Missing(p, forest[offs[0]], offs[1..], blks)
    ensures var forest2 := forest[offs[0] := Insert(p, forest[offs[0]], offs[1..], blks)];
      ForestOk(p, c2, data2, forest2) && BlocksAll(forest2) == BlocksAll(forest) + Elems(blks)
  {
    CreatedTree(p, c, c2, data, data2, forest, offs, level, blks);
    hide Blocks, BlocksAll, Distinct, DistinctAll, Holds, WellFormed, Spliced, Chained, HoleAfter;
    var i := offs[0];
    var u := Insert(p, forest[i], offs[1..], blks);
    TreeIn(forest, i);
    assert BlocksAll(forest) - Blocks(forest[i]) + (Blocks(forest[i]) + Elems(blks)) == BlocksAll(forest) + Elems(blks);
    ForestReplaced(p, c, c2, data, data2, forest, i, u);
  }

  /** One tree of the forest changes, and the disk changes in no other. */
  lemma ForestReplaced(p: nat, c: Disk, c2: Disk, data: seq<nat>, data2: seq<nat>, forest: seq<Tree>, i: nat, u: Tree)
    requires ForestOk(p, c, data, forest) && i < NBLOCKS && data2 == data[i := Root(u)]
    requires Holds(c2, u) && WellFormed(p, DepthOf(i), u) && Distinct(u)
    requires Blocks(u) !! (BlocksAll(forest) - Blocks(forest[i]))
    requires forall x :: x in BlocksAll(forest) && x in c && x !in Blocks(forest[i]) ==> x in c2 && c2[x] == c[x]
    ensures ForestOk(p, c2, data2, forest[i := u])
    ensures BlocksAll(forest[i := u]) == (BlocksAll(forest) - Blocks(forest[i])) + Blocks(u)
  {
    hide Blocks, BlocksAll, Distinct, DistinctAll, Holds, WellFormed;
    ReplaceBlocks(forest, i, u);
    TreeIn(forest, i);
    forall j | 0 <= j < NBLOCKS && j != i ensures Holds(c2, forest[j]) {
      TreeIn(forest, j);
      HoldsFrame(c, c2, forest[j]);
    }
  }

  lemma CreatedMap(p: nat, forest: seq<Tree>, lbn: nat, offs: seq<nat>, blks: seq<nat>, n: nat)
    requires p > 0 && |forest| == NBLOCKS && BlockToPath(p, lbn) == Ok(offs) && ValidPath(p, offs)
    requires Digits(p, offs[1..]) && Missing(p, forest[offs[0]], offs[1..], blks)
    ensures var forest2 := forest[offs[0] := Insert(p, forest[offs[0]], offs[1..], blks)];
      && blks != []
      && MappedIn(p, forest2, n) == if n == lbn then blks[|blks| - 1] else MappedIn(p, forest, n)
    ensures MappedIn(p, forest, lbn) == 0
  {
    hide BlockToPath, Insert, At, PathToBlock;
    PathOfBlock(p, n);
    PathOfBlock(p, lbn);
    InsertAt(p, forest[offs[0]], offs[1..], blks, offs[1..]);
    var q := BlockToPath(p, n);
    if q.Ok? && q.value[0] == offs[0] {
      InsertAt(p, forest[offs[0]], offs[1..], blks, q.value[1..]);
      if q.value[1..] == offs[1..] {
        assert q.value == [q.value[0]] + q.value[1..] && offs == [offs[0]] + offs[1..];
      }
    }
  }

  class Volume {
    const sup: Super
    /** Pointers in a block, and disk sectors in a block. */
    const ptrs: nat
    const sectors: nat
    /** The blocks as arrays of pointers, as the page cache sees them. */
    var disk: Disk

    constructor (sup: Super, ptrs: nat, sectors: nat, disk: Disk)
      ensures this.sup == sup && this.ptrs == ptrs && this.sectors == sectors && this.disk == disk
    {
      this.sup, this.ptrs, this.sectors, this.disk := sup, ptrs, sectors, disk;
    }
  }

  class Inode {
    const vol: Volume
    var data: seq<nat>
    var iBlocks: nat
    ghost var forest: seq<Tree>

    ghost predicate Valid()
      reads this, vol, vol.sup
    {
      && vol.ptrs > 0 && vol.sup.Valid()
      && ForestOk(vol.ptrs, vol.disk, data, forest)
      && BlocksAll(forest) <= vol.sup.Used()
      && iBlocks == Sectors(|BlocksAll(forest)|, vol.sectors)
    }

    ghost function Mapped(lbn: nat): nat
      requires vol.ptrs > 0 && |forest| == NBLOCKS
      reads this
    {
      MappedIn(vol.ptrs, forest, lbn)
    }

    /** A new inode maps nothing. */
    constructor (vol: Volume)
      requires vol.ptrs > 0 && vol.sup.Valid()
      ensures Valid() && this.vol == vol && forall lbn: nat :: Mapped(lbn) == 0
    {
      this.vol, iBlocks := vol, 0;
      data, forest := seq(NBLOCKS, _ => 0), Holes(NBLOCKS);
      new;
      HolesFacts(NBLOCKS);
    }

    /** ext2_get_branch: walks down to the data block or to the first missing pointer. `readOk` says which indirect
        blocks can be read. */
    method GetBranch(offs: seq<nat>, readOk: nat -> bool) returns (r: Result<nat>, chain: seq<nat>, phys: nat)
      requires Valid() && ValidPath(vol.ptrs, offs)
      ensures r.Err? ==> r.error == EIO
      ensures r.Err? <==> Dark(forest[offs[0]], offs[1..], readOk)
      ensures r.Ok? && phys != 0 ==> phys == At(forest[offs[0]], offs[1..])
      ensures r.Ok? && phys == 0 ==>
                && HoleAfter(vol.ptrs, forest[offs[0]], offs[1..], r.value) && |chain| == r.value
                && (r.value > 0 ==> chain[r.value - 1] == Root(Sub(forest[offs[0]], offs[1..][..r.value - 1])))
    {
      hide Sub, Holds, WellFormed, DistinctAll, BlocksAll;
      ghost var t, path := forest[offs[0]], offs[1..];
      var depth := |offs|;
      var level := 0;
      chain := [];
      phys := data[offs[0]];
      WalkBegins(t, path);
      while phys != 0 && level < depth - 1
        invariant 0 <= level <= |path| == depth - 1 && |chain| == level
        invariant phys == Root(Sub(t, path[..level]))
        invariant WellFormed(vol.ptrs, |path| - level, Sub(t, path[..level])) && Holds(vol.disk, Sub(t, path[..level]))
        invariant forall l :: 0 <= l < level ==> Sub(t, path[..l]).Ind? && |Sub(t, path[..l]).kids| == vol.ptrs
        invariant forall l :: 0 <= l < level ==> chain[l] == Root(Sub(t, path[..l]))
        invariant forall l :: 0 <= l < level ==> readOk(Root(Sub(t, path[..l])))
        decreases depth - level
      {
        WalkStep(vol.ptrs, vol.disk, t, path, level);
        if !readOk(phys) {
          return Err(EIO), chain, phys;
        }
        chain := chain + [phys];
        phys := vol.disk[phys][offs[level + 1]];
        level := level + 1;
      }
      RootHole(vol.ptrs, |path| - level, Sub(t, path[..level]));
      NotDark(t, path, level, readOk);
      if phys != 0 {
        assert path[..level] == path;
        SubAt(t, path);
      }
      return Ok(level), chain, phys;
    }

    /** ext2_bmap: fails only for a number that is too large or an indirect block on the way that cannot be read. */
    method Lookup(lbn: nat, readOk: nat -> bool) returns (r: Result<nat>)
      requires Valid()
      ensures r == Err(EFBIG) <==> lbn >= Base(vol.ptrs, NBLOCKS)
      ensures r == Err(EIO) <==> Blocked(vol.ptrs, forest, lbn, readOk)
      ensures r.Err? ==> r.error == EIO || r.error == EFBIG
      ensures r.Ok? ==> r.value == Mapped(lbn)
    {
      hide Sub, Holds, WellFormed, DistinctAll, BlocksAll, At, BlockToPath, Base;
      PathOfBlock(vol.ptrs, lbn);
      var found := BlockToPath(vol.ptrs, lbn);
      if found.Err? {
        return Err(found.error);
      }
      var offs := found.value;
      ghost var t, path := forest[offs[0]], offs[1..];
      WalkBegins(t, path);
      var phys := data[offs[0]];
      var i := 1;
      while i < |offs|
        invariant 1 <= i <= |offs| && phys == Root(Sub(t, path[..i - 1]))
        invariant WellFormed(vol.ptrs, |path| - (i - 1), Sub(t, path[..i - 1]))
        invariant Holds(vol.disk, Sub(t, path[..i - 1]))
        invariant forall l: nat :: l < i - 1 && Sub(t, path[..l]).Ind? ==> readOk(Sub(t, path[..l]).b)
      {
        if phys != 0 {
          WalkStep(vol.ptrs, vol.disk, t, path, i - 1);
          if !readOk(phys) {
            return Err(EIO);
          }
          phys := vol.disk[phys][offs[i]];
        } else {
          RootHole(vol.ptrs, |path| - (i - 1), Sub(t, path[..i - 1]));
          HoleStays(vol.ptrs, vol.disk, t, path, i - 1);
        }
        i := i + 1;
      }
      assert path[..i - 1] == path;
      SubAt(t, path);
      return Ok(phys);
    }

    /** The first loop of ext2_alloc_branch: as many new blocks as are needed. */
    method AllocBlocks(need: nat, descOk: nat -> bool, mapOk: nat -> bool) returns (r: Result<()>, blks: seq<nat>)
      requires vol.sup.Valid()
      modifies vol.sup
      ensures vol.sup.Valid()
      ensures AllDifferent(blks) && 0 !in blks && Elems(blks) !! old(vol.sup.Used())
      ensures vol.sup.Used() == old(vol.sup.Used()) + Elems(blks)
      ensures r.Ok? ==> |blks| == need <= old(vol.sup.free)
      ensures r.Err? ==> r.error == EIO || (r.error == ENOSPC && old(vol.sup.free) < need)
      ensures AllRead(|old(vol.sup.groups)|, descOk, mapOk) ==>
                r == if need <= old(vol.sup.free) then Ok(()) else Err(ENOSPC)
    {
      hide Super.Used, Super.Counts, Super.Shape;
      blks := [];
      while |blks| < need
        invariant vol.sup.Valid() && |blks| <= need
        invariant AllDifferent(blks) && 0 !in blks && Elems(blks) !! old(vol.sup.Used())
        invariant vol.sup.Used() == old(vol.sup.Used()) + Elems(blks)
        invariant vol.sup.free + |blks| == old(vol.sup.free) && |vol.sup.groups| == |old(vol.sup.groups)|
        decreases need - |blks|
      {
        ValidParts(vol.sup);
        var a, b := vol.sup.AllocBlock(0, descOk, mapOk);
        if a.Err? {
          return Err(a.error), blks;
        }
        ElemsPush(blks, b);
        blks := blks + [b];
      }
      return Ok(()), blks;
    }

    /** The last loop of ext2_alloc_branch: the indirect blocks of the branch, each with one pointer. */
    method WriteBranch(path: seq<nat>, blks: seq<nat>)
      requires Digits(vol.ptrs, path) && |blks| == |path| + 1 && AllDifferent(blks)
      modifies vol
      ensures Chained(vol.ptrs, vol.disk, path, blks)
      ensures forall x: nat :: x !in blks ==>
                (x in vol.disk <==> x in old(vol.disk)) && (x in vol.disk ==> vol.disk[x] == old(vol.disk)[x])
    {
      var i := 0;
      while i < |path|
        invariant 0 <= i <= |path|
        invariant forall j :: 0 <= j < i ==>
                    blks[j] in vol.disk && vol.disk[blks[j]] == OnePointer(vol.ptrs, path[j], blks[j + 1])
        invariant forall x: nat :: x !in blks ==>
                    (x in vol.disk <==> x in old(vol.disk)) && (x in vol.disk ==> vol.disk[x] == old(vol.disk)[x])
      {
        vol.disk := vol.disk[blks[i] := OnePointer(vol.ptrs, path[i], blks[i + 1])];
        i := i + 1;
      }
    }

    /** ext2_alloc_branch: new blocks for a branch, and its indirect blocks on the disk. */
    method AllocBranch(path: seq<nat>, readOk: nat -> bool, descOk: nat -> bool, mapOk: nat -> bool)
      returns (r: Result<()>, blks: seq<nat>)
      requires vol.sup.Valid() && Digits(vol.ptrs, path)
      modifies vol, vol.sup
      ensures vol.sup.Valid()
      ensures AllDifferent(blks) && 0 !in blks && Elems(blks) !! old(vol.sup.Used())
      ensures vol.sup.Used() == old(vol.sup.Used()) + Elems(blks)
      ensures r.Err? ==> vol.disk == old(vol.disk) && (r.error == EIO || r.error == ENOSPC)
      ensures r.Ok? ==> |path| + 1 <= old(vol.sup.free)
      ensures r == Err(ENOSPC) ==> old(vol.sup.free) < |path| + 1
      ensures AllRead(|old(vol.sup.groups)|, descOk, mapOk) && old(vol.sup.free) < |path| + 1 ==> r == Err(ENOSPC)
      ensures |path| + 1 <= old(vol.sup.free) && AllRead(|old(vol.sup.groups)|, descOk, mapOk) ==>
                Unharmed(old(vol.sup.Used()), readOk) ==> r.Ok?
      ensures r.Ok? ==> Chained(vol.ptrs, vol.disk, path, blks)
      ensures r.Ok? ==> forall x: nat :: x !in blks ==>
                (x in vol.disk <==> x in old(vol.disk)) && (x in vol.disk ==> vol.disk[x] == old(vol.disk)[x])
    {
      hide Super.Used, Super.Valid, AllRead, Chained, Digits, AllDifferent, Elems;
      r, blks := AllocBlocks(|path| + 1, descOk, mapOk);
      if r.Err? {
        return;
      }
      var i := 0;
      while i < |path|
        invariant 0 <= i <= |path|
      {
        if !readOk(blks[i]) {
          ElemsHas(blks, i);
          return Err(EIO), blks;
        }
        i := i + 1;
      }
      WriteBranch(path, blks);
    }

    /** ext2_free_branch: gives back every block whose release does not fail; `freeOk` says which those are. */
    method FreeBranch(blks: seq<nat>, freeOk: nat -> bool) returns (r: Result<()>)
      requires vol.sup.Valid() && AllDifferent(blks) && 0 !in blks && Elems(blks) <= vol.sup.Used()
      modifies vol.sup
      ensures vol.sup.Valid() && (r.Err? ==> r.error == EIO)
      ensures vol.sup.Used() == old(vol.sup.Used()) - Freed(blks, freeOk)
      ensures r.Ok? <==> Freed(blks, freeOk) == Elems(blks)
    {
      hide Super.Used, Super.Counts, Super.Shape;
      r := Ok(());
      var nr := |blks|;
      while nr > 0
        invariant 0 <= nr <= |blks| && vol.sup.Valid() && (r.Err? ==> r.error == EIO)
        invariant Elems(blks[..nr]) <= vol.sup.Used()
        invariant vol.sup.Used() == old(vol.sup.Used()) - Freed(blks[nr..], freeOk)
        invariant r.Ok? <==> Freed(blks[nr..], freeOk) == Elems(blks[nr..])
      {
        nr := nr - 1;
        ElemsCut(blks, nr);
        FreedCut(blks, nr, freeOk);
        var f := vol.sup.FreeBlock(blks[nr], freeOk(blks[nr]));
        if f.Err? && r.Ok? {
          r := f;
        }
      }
      assert blks[0..] == blks;
    }

    /** ext2_bmap_create: maps one logical block and leaves every other mapping alone; after a failure the file is as
        it was, and of the new blocks exactly those stay in use whose release failed as well. No block that anyone else
        uses is touched, whatever fails. A block that is mapped already is found if the way to it can be read; for a
        new one the free blocks must do, and it is got if nothing fails. */
    method Create(lbn: nat, readOk: nat -> bool, descOk: nat -> bool, mapOk: nat -> bool, freeOk: nat -> bool)
      returns (r: Result<nat>)
      requires Valid()
      modifies this, vol, vol.sup
      ensures Valid()
      ensures r == Err(EFBIG) <==> lbn >= Base(vol.ptrs, NBLOCKS)
      ensures r.Err? ==> r.error in {EFBIG, EIO, ENOSPC}
      ensures Blocked(vol.ptrs, old(forest), lbn, readOk) ==> r == Err(EIO)
      ensures lbn < Base(vol.ptrs, NBLOCKS) && !Blocked(vol.ptrs, old(forest), lbn, readOk) ==>
                if old(Mapped(lbn)) != 0 then r.Ok?
                else Supplied(Needed(vol.ptrs, old(forest), lbn), old(vol.sup.free),
                              AllRead(|old(vol.sup.groups)|, descOk, mapOk), Unharmed(old(vol.sup.Used()), readOk),
                              Unharmed(old(vol.sup.Used()), freeOk), r)
      ensures r.Err? ==> data == old(data) && forest == old(forest) && iBlocks == old(iBlocks)
      ensures r.Ok? ==> r.value != 0 && Mapped(lbn) == r.value
      ensures r.Ok? ==> forall n: nat :: n != lbn ==> Mapped(n) == old(Mapped(n))
      ensures r.Ok? && old(Mapped(lbn)) != 0 ==> r.value == old(Mapped(lbn)) && forest == old(forest)
      ensures r.Ok? && old(Mapped(lbn)) == 0 ==> r.value !in old(vol.sup.Used())
      ensures old(BlocksAll(forest)) <= BlocksAll(forest)
      ensures BlocksAll(forest) - old(BlocksAll(forest)) !! old(vol.sup.Used())
      ensures old(vol.sup.Used()) <= vol.sup.Used()
      ensures r.Ok? ==> vol.sup.Used() == old(vol.sup.Used()) + BlocksAll(forest)
      ensures r.Err? ==> forall b: nat :: b in vol.sup.Used() && b !in old(vol.sup.Used()) ==> !freeOk(b)
      ensures forall x: nat :: x in old(vol.sup.Used()) && x !in old(BlocksAll(forest)) && x in old(vol.disk) ==>
                x in vol.disk && vol.disk[x] == old(vol.disk)[x]
    {
      hide BlockToPath, Base, Sub, At, Holds, WellFormed, Distinct, DistinctAll, BlocksAll, Blocks, Insert, Chained,
        Elems,
        HoleAfter, Missing, ForestOk, Super.Used, Super.Valid, Dark, Absent, Supplied;
      var p := vol.ptrs;
      SizesOk(p, vol.disk, data, forest);
      PathOfBlock(p, lbn);
      var found := BlockToPath(p, lbn);
      if found.Err? {
        return Err(EFBIG);
      }
      var offs := found.value;
      var walk, chain, phys := GetBranch(offs, readOk);
      if walk.Err? {
        return Err(EIO);
      }
      if phys != 0 {
        return Ok(phys);
      }
      HoleLevel(p, forest[offs[0]], offs[1..], walk.value);
      AbsentAfter(p, forest[offs[0]], offs[1..], walk.value);
      r := CreateBranch(lbn, offs, walk.value, chain, readOk, descOk, mapOk, freeOk);
    }

    /** Gives back a branch that did not get all its blocks. */
    method Abandon(blks: seq<nat>, freeOk: nat -> bool, error: Error, ghost used0: set<nat>) returns (e: Error)
      requires vol.sup.Valid() && AllDifferent(blks) && 0 !in blks && BlocksAll(forest) <= used0
      requires Elems(blks) !! used0 && vol.sup.Used() == used0 + Elems(blks)
      modifies vol.sup
      ensures vol.sup.Valid() && (e == error || e == EIO)
      ensures Unharmed(used0, freeOk) ==> e == error
      ensures BlocksAll(forest) <= vol.sup.Used() && used0 <= vol.sup.Used()
      ensures forall b: nat :: b in vol.sup.Used() && b !in used0 ==> !freeOk(b)
    {
      hide BlocksAll, Elems, Freed, AllDifferent, Super.Used, Super.Valid;
      var f := FreeBranch(blks, freeOk);
      FreshOutside(BlocksAll(forest), used0, vol.sup.Used(), blks, freeOk);
      AllFreed(used0, blks, freeOk);
      return if f.Err? then f.error else error;
    }

    /** The rest of ext2_bmap_create, for a block that the walk found missing. */
    method CreateBranch(lbn: nat, offs: seq<nat>, level: nat, chain: seq<nat>, readOk: nat -> bool,
                        descOk: nat -> bool, mapOk: nat -> bool, freeOk: nat -> bool)
      returns (r: Result<nat>)
      requires Valid() && BlockToPath(vol.ptrs, lbn) == Ok(offs) && ValidPath(vol.ptrs, offs)
      requires HoleAfter(vol.ptrs, forest[offs[0]], offs[1..], level) && |chain| == level < |offs|
      requires level > 0 ==> chain[level - 1] == Root(Sub(forest[offs[0]], offs[1..][..level - 1]))
      modifies this, vol, vol.sup
      ensures Valid()
      ensures r.Err? ==> r.error in {EIO, ENOSPC}
      ensures Supplied(|offs| - level, old(vol.sup.free), AllRead(|old(vol.sup.groups)|, descOk, mapOk),
                       Unharmed(old(vol.sup.Used()), readOk), Unharmed(old(vol.sup.Used()), freeOk), r)
      ensures r.Err? ==> data == old(data) && forest == old(forest) && iBlocks == old(iBlocks)
      ensures r.Ok? ==> r.value != 0 && r.value !in old(vol.sup.Used())
      ensures old(Mapped(lbn)) == 0
      ensures r.Ok? ==> forall n: nat :: Mapped(n) == if n == lbn then r.value else old(Mapped(n))
      ensures old(BlocksAll(forest)) <= BlocksAll(forest)
      ensures BlocksAll(forest) - old(BlocksAll(forest)) !! old(vol.sup.Used())
      ensures old(vol.sup.Used()) <= vol.sup.Used()
      ensures r.Ok? ==> vol.sup.Used() == old(vol.sup.Used()) + BlocksAll(forest)
      ensures r.Err? ==> forall b: nat :: b in vol.sup.Used() && b !in old(vol.sup.Used()) ==> !freeOk(b)
      ensures forall x: nat :: x in old(vol.sup.Used()) && x !in old(BlocksAll(forest)) && x in old(vol.disk) ==>
                x in vol.disk && vol.disk[x] == old(vol.disk)[x]
    {
      hide BlockToPath, Sub, At, Holds, WellFormed, Distinct, DistinctAll, BlocksAll, Blocks, Insert, Chained, Elems,
        HoleAfter, Missing, ForestOk, Super.Used, Super.Valid, MappedIn, AllDifferent, Sectors, Put, Freed,
        AllRead, Unharmed, Supplied, Digits;
      var p := vol.ptrs;
      ghost var c, forest0, used0 := vol.disk, forest, vol.sup.Used();
      SizesOk(p, c, data, forest);
      HoleLevel(p, forest[offs[0]], offs[1..], level);
      HoleUnmapped(p, forest, lbn, offs, level);
      var a, blks := AllocBranch(offs[level + 1..], readOk, descOk, mapOk);
      if a.Err? {
        var e := Abandon(blks, freeOk, a.error, used0);
        SuppliedNot(|offs| - level, old(vol.sup.free), AllRead(|old(vol.sup.groups)|, descOk, mapOk),
                    Unharmed(used0, readOk), Unharmed(used0, freeOk), a.error, e);
        return Err(e);
      }
      ChainedSize(p, vol.disk, offs[level + 1..], blks);
      ghost var c1 := vol.disk;
      if level > 0 {
        JointFacts(p, c, data, forest, offs, level);
        JointOutside(forest, used0, blks, chain[level - 1]);
      }
      Splice(if level > 0 then Some(chain[level - 1]) else None, offs[level], blks[0], |blks|);
      CreateDone(p, c, c1, vol.disk, old(data), data, forest, offs, level, blks, used0, vol.sup.Used(), vol.sectors);
      forest := forest[offs[0] := Insert(p, forest[offs[0]], offs[1..], blks)];
      forall n: nat ensures Mapped(n) == if n == lbn then blks[|blks| - 1] else old(Mapped(n)) {
        CreatedMap(p, forest0, lbn, offs, blks, n);
      }
      SuppliedAll(|offs| - level, old(vol.sup.free), AllRead(|old(vol.sup.groups)|, descOk, mapOk),
                  Unharmed(used0, readOk), Unharmed(used0, freeOk), blks[|blks| - 1]);
      return Ok(blks[|blks| - 1]);
    }

    /** ext2_splice_branch. */
    method Splice(parent: Option<nat>, off: nat, blk: nat, need: nat)
      requires parent.None? ==> off < |data|
      requires parent.Some? ==> parent.value in vol.disk && off < |vol.disk[parent.value]|
      modifies this`data, this`iBlocks, vol
      ensures data == if parent.None? then old(data)[off := blk] else old(data)
      ensures vol.disk == if parent.None? then old(vol.disk)
                          else old(vol.disk)[parent.value := Put(old(vol.disk)[parent.value], off, blk)]
      ensures iBlocks == old(iBlocks) + Sectors(need, vol.sectors)
    {
      if parent.None? {
        data := data[off := blk];
      } else {
        vol.disk := vol.disk[parent.value := Put(vol.disk[parent.value], off, blk)];
      }
      iBlocks := iBlocks + Sectors(need, vol.sectors);
    }

    /** ext2_trim_branch: gives back the part of one tree from logical block keep on. It stops at the first failure,
        with a tree that is smaller or the same and everything counted. `readOk` says which indirect blocks can be
        read, `freeOk` which blocks can be given back. */
    method Trim(b: nat, d: nat, first: nat, span: nat, keep: nat, readOk: nat -> bool, freeOk: nat -> bool,
                ghost t: Tree)
      returns (r: Result<()>, nb: nat, ghost u: Tree)
      requires vol.sup.Valid() && b == Root(t) && span == Pow(vol.ptrs, d)
      requires TrimReady(vol.ptrs, d, t, vol.disk, vol.sup.Used(), iBlocks, vol.sectors)
      modifies this`iBlocks, vol, vol.sup
      ensures vol.sup.Valid() && nb == Root(u) && (r.Err? ==> r.error == EIO)
      ensures TrimDone(vol.ptrs, d, t, u, old(vol.disk), vol.disk, old(vol.sup.Used()), vol.sup.Used(),
                       old(iBlocks), iBlocks, vol.sectors)
      ensures Trimmed(vol.ptrs, d, t, u, first, keep, r.Ok?)
      ensures r.Ok? <==> Clear(vol.ptrs, d, t, first, keep, readOk, freeOk)
      ensures r.Ok? ==> (u == Hole <==> Goes(vol.ptrs, d, t, first, keep))
      decreases d, 1
    {
      hide Pow, TrimReady, TrimDone, KidsDone, Trimmed, Super.Used, Super.Shape, Super.Counts, Blocks, WellFormed;
      var p := vol.ptrs;
      ReadyFacts(p, d, t, vol.disk, vol.sup.Used(), iBlocks, vol.sectors);
      if b == 0 || first + span <= keep {
        TrimmedNothing(p, d, t, first, keep);
        return Ok(()), b, t;
      }
      ghost var ks: seq<Tree> := [];
      if d > 0 {
        if !readOk(b) {
          TrimmedSame(p, d, t, first, keep);
          return Err(EIO), b, t;
        }
        var empty;
        r, empty, ks := TrimKids(b, d, first, span, keep, readOk, freeOk, t);
        if r.Err? || !empty {
          KidsEnd(p, d, t, ks, old(vol.disk), vol.disk, old(vol.sup.Used()), vol.sup.Used(), old(iBlocks), iBlocks,
                  vol.sectors);
          return r, b, Ind(b, ks);
        }
        KidsEnd(p, d, t, ks, old(vol.disk), vol.disk, old(vol.sup.Used()), vol.sup.Used(), old(iBlocks), iBlocks,
                vol.sectors);
        KidsFree(p, d, t, ks, old(vol.disk), vol.disk, old(vol.sup.Used()), vol.sup.Used(), old(iBlocks), iBlocks,
                 vol.sectors);
        StillUsed(p, d, t, ks, old(vol.disk), vol.disk, old(vol.sup.Used()), vol.sup.Used(), old(iBlocks), iBlocks,
                  vol.sectors);
        TrimmedAway(p, d, t, b, ks, first, keep, true);
        TrimmedWeaker(p, d, t, Ind(b, ks), first, keep);
      } else {
        LeafFree(p, t, vol.disk, vol.sup.Used(), iBlocks, vol.sectors);
        TrimmedSame(p, d, t, first, keep);
        TrimmedLeaf(p, t, first, keep);
      }
      var f := vol.sup.FreeBlock(b, freeOk(b));
      if f.Err? {
        return Err(EIO), b, if d > 0 then Ind(b, ks) else t;
      }
      iBlocks := iBlocks - vol.sectors;
      return Ok(()), 0, Hole;
    }

    /** The loop of ext2_trim_branch over the pointers of an indirect block. */
    method TrimKids(b: nat, d: nat, first: nat, span: nat, keep: nat, readOk: nat -> bool, freeOk: nat -> bool,
                    ghost t: Tree)
      returns (r: Result<()>, empty: bool, ghost ks: seq<Tree>)
      requires vol.sup.Valid() && t.Ind? && b == t.b && d > 0 && span == Pow(vol.ptrs, d)
      requires TrimReady(vol.ptrs, d, t, vol.disk, vol.sup.Used(), iBlocks, vol.sectors)
      modifies this`iBlocks, vol, vol.sup
      ensures vol.sup.Valid() && (r.Err? ==> r.error == EIO)
      ensures KidsDone(vol.ptrs, d, b, t.kids, ks, old(vol.disk), vol.disk, old(vol.sup.Used()), vol.sup.Used(),
                       old(iBlocks), iBlocks, vol.sectors)
      ensures Trimmed(vol.ptrs, d, t, Ind(b, ks), first, keep, r.Ok?)
      ensures |ks| == vol.ptrs && (r.Ok? ==> (empty <==> forall i :: 0 <= i < |ks| ==> ks[i] == Hole))
      ensures r.Ok? <==> KidsClear(vol.ptrs, d, t.kids, first, keep, readOk, freeOk)
      ensures r.Ok? ==> (empty <==> KidsGo(vol.ptrs, d, t.kids, first, keep))
      decreases d, 0
    {
      hide Pow, TrimReady, TrimDone, KidsDone, Trimmed, Super.Used, Super.Valid, Blocks, WellFormed, BlocksAll;
      var p := vol.ptrs;
      ghost var c, used, n := vol.disk, vol.sup.Used(), iBlocks;
      ReadyFacts(p, d, t, c, used, n, vol.sectors);
      KidsBegin(p, d, t, c, used, n, vol.sectors);
      PowDiv(p, d);
      ks := t.kids;
      empty := true;
      var i := 0;
      while i < p
        invariant 0 <= i <= p && |ks| == |t.kids| == p && vol.sup.Valid()
        invariant KidsDone(p, d, b, t.kids, ks, c, vol.disk, used, vol.sup.Used(), n, iBlocks, vol.sectors)
        invariant forall j :: 0 <= j < i ==> Trimmed(p, d - 1, t.kids[j], ks[j], KidFirst(first, j, p, d), keep, true)
        invariant forall j :: i <= j < p ==> ks[j] == t.kids[j]
        invariant empty <==> forall j :: 0 <= j < i ==> ks[j] == Hole
        invariant forall j :: 0 <= j < i ==> Clear(p, d - 1, t.kids[j], KidFirst(first, j, p, d), keep, readOk, freeOk)
        invariant forall j :: 0 <= j < i ==>
                    (ks[j] == Hole <==> Goes(p, d - 1, t.kids[j], KidFirst(first, j, p, d), keep))
      {
        KidReady(p, d, t, ks, c, vol.disk, used, vol.sup.Used(), n, iBlocks, vol.sectors, i);
        KidSlot(p, d, b, t.kids, ks, c, vol.disk, used, vol.sup.Used(), n, iBlocks, vol.sectors, i);
        ghost var c1, used1, n1 := vol.disk, vol.sup.Used(), iBlocks;
        var e, nb;
        ghost var u;
        e, nb, u := Trim(vol.disk[b][i], d - 1, KidFirst(first, i, p, d), span / p, keep, readOk, freeOk,
                         ks[i]);
        KidsStep(p, d, b, t.kids, ks, c, c1, vol.disk, used, used1, vol.sup.Used(), n, n1, iBlocks, vol.sectors, i, u);
        vol.disk := vol.disk[b := Put(vol.disk[b], i, nb)];
        ks := ks[i := u];
        KidSlot(p, d, b, t.kids, ks, c, vol.disk, used, vol.sup.Used(), n, iBlocks, vol.sectors, i);
        if e.Err? {
          KidsPartly(p, d, t, ks, first, keep, i);
          return e, false, ks;
        }
        if vol.disk[b][i] != 0 {
          empty := false;
        }
        i := i + 1;
      }
      forall j | 0 <= j < p ensures Trimmed(p, d - 1, t.kids[j], ks[j], first + j * Pow(p, d - 1), keep, true) {
        assert KidFirst(first, j, p, d) == first + j * Pow(p, d - 1);
      }
      TrimmedKids(p, d, b, t.kids, ks, first, keep, true);
      return Ok(()), empty, ks;
    }

    /** ext2_truncate_blocks: after success exactly the blocks from keep on are unmapped; after a failure some of them
        may still be mapped, and no other mapping changed. What is given back is what is no longer reachable. It fails
        exactly if an indirect block that reaches past keep cannot be read or a block that must go not be given back. */
    method Truncate(keep: nat, readOk: nat -> bool, freeOk: nat -> bool) returns (r: Result<()>)
      requires Valid()
      modifies this, vol, vol.sup
      ensures Valid() && (r.Err? ==> r.error == EIO)
      ensures r.Ok? <==> forall i: nat :: i < NBLOCKS ==>
                Clear(vol.ptrs, DepthOf(i), old(forest)[i], Base(vol.ptrs, i), keep, readOk, freeOk)
      ensures forall n: nat :: n < keep ==> Mapped(n) == old(Mapped(n))
      ensures forall n: nat :: n >= keep ==> Mapped(n) == 0 || (r.Err? && Mapped(n) == old(Mapped(n)))
      ensures BlocksAll(forest) <= old(BlocksAll(forest))
      ensures vol.sup.Used() == old(vol.sup.Used()) - (old(BlocksAll(forest)) - BlocksAll(forest))
      ensures forall x: nat :: x !in old(BlocksAll(forest)) ==>
                (x in vol.disk <==> x in old(vol.disk)) && (x in vol.disk ==> vol.disk[x] == old(vol.disk)[x])
    {
      hide Pow, Base, Trimmed, AllTrimmed, Super.Used, Super.Valid, BlocksAll, ForestOk, Sectors, MappedIn, Clear;
      var p := vol.ptrs;
      ghost var c, used, forest0 := vol.disk, vol.sup.Used(), forest;
      SizesOk(p, c, data, forest);
      TruncateBegins(p, c, data, forest, keep);
      BaseAt(p);
      var i := 0;
      var first, span := NDIR, 1;
      while i < NBLOCKS
        invariant 0 <= i <= NBLOCKS && Valid() && |forest| == |forest0| == NBLOCKS
        invariant BlocksAll(forest) <= BlocksAll(forest0) <= used
        invariant vol.sup.Used() == used - (BlocksAll(forest0) - BlocksAll(forest))
        invariant forall x: nat :: x !in BlocksAll(forest0) ==>
                    (x in vol.disk <==> x in c) && (x in c ==> vol.disk[x] == c[x])
        invariant AllTrimmed(p, forest0, forest, keep, i)
        invariant forall j: nat :: j < i ==> Clear(p, DepthOf(j), forest0[j], Base(p, j), keep, readOk, freeOk)
        invariant if i < NDIR then first == NDIR && span == 1 else first == Base(p, i) && span == Pow(p, i - NDIR)
      {
        BaseStep(p, i);
        ghost var forest1, used1 := forest, vol.sup.Used();
        var e;
        if i < NDIR {
          e := TrimSlot(i, i, 1, keep, readOk, freeOk);
        } else {
          span := span * p;
          e := TrimSlot(i, first, span, keep, readOk, freeOk);
          first := first + span;
        }
        UsedLess(used, used1, BlocksAll(forest0), BlocksAll(forest1), BlocksAll(forest), vol.sup.Used());
        AllTrimmedStep(p, forest0, forest1, keep, i, forest[i], e.Ok?);
        if e.Err? {
          TruncatedMap(p, forest0, forest, keep, false);
          return e;
        }
        i := i + 1;
      }
      AllTrimmedEnd(p, forest0, forest, keep);
      TruncatedMap(p, forest0, forest, keep, true);
      return Ok(());
    }

    /** Trims the tree of one pointer of the inode. */
    method TrimSlot(i: nat, first: nat, span: nat, keep: nat, readOk: nat -> bool, freeOk: nat -> bool)
      returns (r: Result<()>)
      requires Valid() && i < NBLOCKS && first == Base(vol.ptrs, i) && span == Pow(vol.ptrs, DepthOf(i))
      modifies this, vol, vol.sup
      ensures Valid() && (r.Err? ==> r.error == EIO)
      ensures |forest| == |old(forest)| == NBLOCKS && forest == old(forest)[i := forest[i]]
      ensures Trimmed(vol.ptrs, DepthOf(i), old(forest)[i], forest[i], first, keep, r.Ok?)
      ensures r.Ok? <==> Clear(vol.ptrs, DepthOf(i), old(forest)[i], first, keep, readOk, freeOk)
      ensures BlocksAll(forest) <= old(BlocksAll(forest))
      ensures vol.sup.Used() == old(vol.sup.Used()) - (old(BlocksAll(forest)) - BlocksAll(forest))
      ensures forall x: nat :: x !in old(BlocksAll(forest)) ==>
                (x in vol.disk <==> x in old(vol.disk)) && (x in old(vol.disk) ==> vol.disk[x] == old(vol.disk)[x])
    {
      hide Pow, Base, TrimReady, TrimDone, Trimmed, Super.Used, Super.Valid, Blocks, BlocksAll, ForestOk, Sectors,
        DepthOf, Clear, Goes;
      ghost var c, used, n := vol.disk, vol.sup.Used(), iBlocks;
      SizesOk(vol.ptrs, c, data, forest);
      TreeReady(vol.ptrs, c, data, forest, i, used, vol.sectors);
      var nb;
      ghost var u;
      r, nb, u := Trim(data[i], DepthOf(i), first, span, keep, readOk, freeOk, forest[i]);
      SlotDone(vol.ptrs, c, vol.disk, data, forest, i, u, used, vol.sup.Used(), n, iBlocks, vol.sectors);
      data := data[i := nb];
      forest := forest[i := u];
    }
  }

  lemma UsedLess(used: set<nat>, used1: set<nat>, all: set<nat>, a: set<nat>, b: set<nat>, used2: set<nat>)
    requires b <= a <= all <= used && used1 == used - (all - a) && used2 == used1 - (a - b)
    ensures used2 == used - (all - b)
  {
  }

  /** The trees before pointer i are trimmed, the others are as they were. */
  ghost predicate AllTrimmed(p: nat, forest0: seq<Tree>, forest: seq<Tree>, keep: nat, i: nat) {
    && |forest0| == |forest| == NBLOCKS
    && (forall j :: 0 <= j < NBLOCKS ==> Trimmed(p, DepthOf(j), forest0[j], forest[j], Base(p, j), keep, j < i))
    && (forall j :: i <= j < NBLOCKS ==> forest[j] == forest0[j])
  }

  lemma TruncateBegins(p: nat, c: Disk, data: seq<nat>, forest: seq<Tree>, keep: nat)
    requires ForestOk(p, c, data, forest)
    ensures AllTrimmed(p, forest, forest, keep, 0)
  {
    hide Trimmed;
    forall j | 0 <= j < NBLOCKS ensures Trimmed(p, DepthOf(j), forest[j], forest[j], Base(p, j), keep, false) {
      TrimmedSame(p, DepthOf(j), forest[j], Base(p, j), keep);
    }
  }

  lemma AllTrimmedStep(p: nat, forest0: seq<Tree>, forest: seq<Tree>, keep: nat, i: nat, u: Tree, done: bool)
    requires AllTrimmed(p, forest0, forest, keep, i) && i < NBLOCKS
    requires Trimmed(p, DepthOf(i), forest[i], u, Base(p, i), keep, done)
    ensures done ==> AllTrimmed(p, forest0, forest[i := u], keep, i + 1)
    ensures forest[i] == forest0[i]
    ensures forall j :: 0 <= j < NBLOCKS ==>
              Trimmed(p, DepthOf(j), forest0[j], forest[i := u][j], Base(p, j), keep, done && j <= i)
  {
    hide Trimmed, Base;
    var forest2 := forest[i := u];
    forall j | 0 <= j < NBLOCKS
      ensures Trimmed(p, DepthOf(j), forest0[j], forest2[j], Base(p, j), keep, done && j <= i)
    {
      if j < i && !done { TrimmedWeaker(p, DepthOf(j), forest0[j], forest[j], Base(p, j), keep); }
    }
  }

  lemma AllTrimmedEnd(p: nat, forest0: seq<Tree>, forest: seq<Tree>, keep: nat)
    requires AllTrimmed(p, forest0, forest, keep, NBLOCKS)
    ensures |forest| == |forest0| == NBLOCKS
    ensures forall j :: 0 <= j < NBLOCKS ==> Trimmed(p, DepthOf(j), forest0[j], forest[j], Base(p, j), keep, true)
  {
  }

  /** The first block and the span of each pointer, as the loop computes them. */
  lemma BaseStep(p: nat, i: nat)
    requires i < NBLOCKS
    ensures i < NDIR ==> Base(p, i) == i && DepthOf(i) == 0 && Pow(p, 0) == 1
    ensures i >= NDIR ==> DepthOf(i) == i - NDIR + 1 && Pow(p, i - NDIR + 1) == Pow(p, i - NDIR) * p
                          && Base(p, i + 1) == Base(p, i) + Pow(p, i - NDIR + 1)
  {
  }

  lemma BaseAt(p: nat)
    ensures Base(p, NDIR) == NDIR && Pow(p, 0) == 1
  {
  }

  lemma TreeReady(p: nat, c: Disk, data: seq<nat>, forest: seq<Tree>, i: nat, used: set<nat>, k: nat)
    requires p > 0 && ForestOk(p, c, data, forest) && i < NBLOCKS && BlocksAll(forest) <= used
    ensures TrimReady(p, DepthOf(i), forest[i], c, used, Sectors(|BlocksAll(forest)|, k), k)
    ensures data[i] == Root(forest[i])
  {
    TreeIn(forest, i);
    SubsetCount(Blocks(forest[i]), BlocksAll(forest), k);
  }

  lemma ForestStep(p: nat, c: Disk, c2: Disk, data: seq<nat>, forest: seq<Tree>, i: nat, u: Tree,
                   used: set<nat>, used2: set<nat>, n: nat, n2: nat, k: nat)
    requires ForestOk(p, c, data, forest) && i < NBLOCKS
    requires TrimDone(p, DepthOf(i), forest[i], u, c, c2, used, used2, n, n2, k)
    requires n == Sectors(|BlocksAll(forest)|, k)
    ensures ForestOk(p, c2, data[i := Root(u)], forest[i := u])
    ensures BlocksAll(forest[i := u]) == BlocksAll(forest) - (Blocks(forest[i]) - Blocks(u))
    ensures n2 == Sectors(|BlocksAll(forest[i := u])|, k)
    ensures Blocks(u) <= Blocks(forest[i]) && used2 == used - (Blocks(forest[i]) - Blocks(u))
    ensures forall x: nat :: x !in Blocks(forest[i]) ==> (x in c2 <==> x in c) && (x in c ==> c2[x] == c[x])
  {
    hide Blocks, BlocksAll, Distinct, DistinctAll, WellFormed, Holds, Sectors;
    ReplaceCount(forest, i, u, k);
    var data2, forest2 := data[i := Root(u)], forest[i := u];
    forall j | 0 <= j < NBLOCKS
      ensures WellFormed(p, DepthOf(j), forest2[j]) && data2[j] == Root(forest2[j]) && Holds(c2, forest2[j])
    {
      TreeIn(forest, i);
      if j != i {
        assert Blocks(forest[j]) !! Blocks(forest[i]);
        HoldsFrame(c, c2, forest[j]);
      }
    }
  }

  lemma SlotDone(p: nat, c: Disk, c2: Disk, data: seq<nat>, forest: seq<Tree>, i: nat, u: Tree,
                 used: set<nat>, used2: set<nat>, n: nat, n2: nat, k: nat)
    requires ForestOk(p, c, data, forest) && i < NBLOCKS && BlocksAll(forest) <= used
    requires TrimDone(p, DepthOf(i), forest[i], u, c, c2, used, used2, n, n2, k)
    requires n == Sectors(|BlocksAll(forest)|, k)
    ensures ForestOk(p, c2, data[i := Root(u)], forest[i := u])
    ensures var all, all2 := BlocksAll(forest), BlocksAll(forest[i := u]);
      && n2 == Sectors(|all2|, k) && all2 <= all && all2 <= used2 && used2 == used - (all - all2)
      && forall x: nat :: x !in all ==> (x in c2 <==> x in c) && (x in c ==> c2[x] == c[x])
  {
    ForestStep(p, c, c2, data, forest, i, u, used, used2, n, n2, k);
    TreeIn(forest, i);
    hide *;
    UsedShrinks(used, BlocksAll(forest), Blocks(forest[i]), Blocks(u), BlocksAll(forest[i := u]), used2);
    FrameWider(c, c2, Blocks(forest[i]), BlocksAll(forest));
  }

  lemma UsedShrinks(used: set<nat>, all: set<nat>, b: set<nat>, e: set<nat>, all2: set<nat>, used2: set<nat>)
    requires e <= b <= all <= used && all2 == all - (b - e) && used2 == used - (b - e)
    ensures all2 <= all && all2 <= used2 && used2 == used - (all - all2)
  {
    assert all - all2 == b - e;
  }

  lemma FrameWider(c: Disk, c2: Disk, a: set<nat>, b: set<nat>)
    requires a <= b && forall x: nat :: x !in a ==> (x in c2 <==> x in c) && (x in c ==> c2[x] == c[x])
    ensures forall x: nat :: x !in b ==> (x in c2 <==> x in c) && (x in c ==> c2[x] == c[x])
  {
  }

  /** The trims of all trees, as logical blocks. */
  lemma TruncatedMap(p: nat, forest0: seq<Tree>, forest: seq<Tree>, keep: nat, done: bool)
    requires p > 0 && |forest| == |forest0| == NBLOCKS
    requires forall j :: 0 <= j < NBLOCKS ==> Trimmed(p, DepthOf(j), forest0[j], forest[j], Base(p, j), keep, done)
    ensures forall n: nat :: n < keep ==> MappedIn(p, forest, n) == MappedIn(p, forest0, n)
    ensures forall n: nat :: n >= keep ==>
              MappedIn(p, forest, n) == 0 || (!done && MappedIn(p, forest, n) == MappedIn(p, forest0, n))
  {
    hide BlockToPath, At, Val, Base;
    forall n: nat
      ensures if n < keep then MappedIn(p, forest, n) == MappedIn(p, forest0, n)
              else MappedIn(p, forest, n) == 0 || (!done && MappedIn(p, forest, n) == MappedIn(p, forest0, n))
    {
      PathOfBlock(p, n);
      var path := BlockToPath(p, n);
      if path.Ok? {
        var i, q := path.value[0], path.value[1..];
        assert |q| == DepthOf(i) && Digits(p, q);
        assert Trimmed(p, DepthOf(i), forest0[i], forest[i], Base(p, i), keep, done);
      }
    }
  }

  /** Nothing of the tree is left by trimming it at keep: it has no block, or it reaches past keep and all below it
      goes. */
  ghost predicate Goes(p: nat, d: nat, t: Tree, first: nat, keep: nat)
    decreases d, 1
  {
    t.Hole? || (first + Pow(p, d) > keep && (t.Ind? && d > 0 ==> KidsGo(p, d, t.kids, first, keep)))
  }

  ghost predicate KidsGo(p: nat, d: nat, kids: seq<Tree>, first: nat, keep: nat)
    requires d > 0
    decreases d, 0
  {
    forall i: nat :: i < |kids| ==> Goes(p, d - 1, kids[i], KidFirst(first, i, p, d), keep)
  }

  /** Nothing is in the way of trimming the tree at keep: every indirect block that reaches past keep can be read, and
      every block that goes can be given back. */
  ghost predicate Clear(p: nat, d: nat, t: Tree, first: nat, keep: nat, readOk: nat -> bool, freeOk: nat -> bool)
    decreases d, 1
  {
    t.Hole? || first + Pow(p, d) <= keep
    || (&& (t.Ind? && d > 0 ==> readOk(t.b) && KidsClear(p, d, t.kids, first, keep, readOk, freeOk))
        && (Goes(p, d, t, first, keep) ==> freeOk(t.b)))
  }

  ghost predicate KidsClear(p: nat, d: nat, kids: seq<Tree>, first: nat, keep: nat, readOk: nat -> bool,
                            freeOk: nat -> bool)
    requires d > 0
    decreases d, 0
  {
    forall i: nat :: i < |kids| ==> Clear(p, d - 1, kids[i], KidFirst(first, i, p, d), keep, readOk, freeOk)
  }

  /** If every block of the tree can be read and given back, nothing is in the way. */
  lemma {:induction false} NothingInTheWay(p: nat, d: nat, t: Tree, first: nat, keep: nat, readOk: nat -> bool,
                                           freeOk: nat -> bool)
    requires forall b: nat :: b in Blocks(t) ==> readOk(b) && freeOk(b)
    ensures Clear(p, d, t, first, keep, readOk, freeOk)
    decreases d
  {
    hide Pow, Goes;
    if t.Ind? && d > 0 {
      forall i: nat | i < |t.kids| ensures Clear(p, d - 1, t.kids[i], KidFirst(first, i, p, d), keep, readOk, freeOk) {
        KidBlocks(t, i);
        NothingInTheWay(p, d - 1, t.kids[i], KidFirst(first, i, p, d), keep, readOk, freeOk);
      }
    }
  }

  function KidFirst(first: nat, j: nat, p: nat, d: nat): nat
    requires d > 0
  {
    first + j * Pow(p, d - 1)
  }

  lemma ReadyFacts(p: nat, d: nat, t: Tree, c: Disk, used: set<nat>, n: nat, k: nat)
    requires TrimReady(p, d, t, c, used, n, k)
    ensures p > 0 && (Root(t) == 0 <==> t == Hole) && (t != Hole ==> (t.Ind? <==> d > 0) && t.b in used)
    ensures t.Ind? ==> |t.kids| == p && BlocksAll(t.kids) <= used
    ensures TrimDone(p, d, t, t, c, c, used, used, n, n, k)
    ensures Pow(p, 0) == 1
  {
    if t.Ind? { BlocksInd(t.b, t.kids); }
  }

  lemma StillUsed(p: nat, d: nat, t: Tree, ks: seq<Tree>, c: Disk, c2: Disk, used: set<nat>, used2: set<nat>,
                  n: nat, n2: nat, k: nat)
    requires TrimReady(p, d, t, c, used, n, k) && t.Ind?
    requires KidsDone(p, d, t.b, t.kids, ks, c, c2, used, used2, n, n2, k)
    ensures t.b in used2
  {
    BlocksInd(t.b, t.kids);
  }

  lemma LeafFree(p: nat, t: Tree, c: Disk, used: set<nat>, n: nat, k: nat)
    requires TrimReady(p, 0, t, c, used, n, k) && t != Hole
    ensures t.Data? && n >= k && TrimDone(p, 0, t, Hole, c, c, used, used - {t.b}, n, n - k, k)
  {
    assert Blocks(t) == {t.b} && Blocks(Hole) == {};
    SectorsFew(k);
  }

  lemma KidSlot(p: nat, d: nat, b: nat, kids: seq<Tree>, ks: seq<Tree>, c: Disk, c2: Disk,
                used: set<nat>, used2: set<nat>, n: nat, n2: nat, k: nat, i: nat)
    requires KidsDone(p, d, b, kids, ks, c, c2, used, used2, n, n2, k) && i < p
    ensures b in c2 && |c2[b]| == p && c2[b][i] == Root(ks[i]) && (Root(ks[i]) == 0 <==> ks[i] == Hole)
  {
  }

  /** The trim of the children stopped at one of them. */
  lemma KidsPartly(p: nat, d: nat, t: Tree, ks: seq<Tree>, first: nat, keep: nat, i: nat)
    requires p > 0 && d > 0 && t.Ind? && |t.kids| == |ks| == p && i < p
    requires forall j :: 0 <= j < i ==> Trimmed(p, d - 1, t.kids[j], ks[j], KidFirst(first, j, p, d), keep, true)
    requires Trimmed(p, d - 1, t.kids[i], ks[i], KidFirst(first, i, p, d), keep, false)
    requires forall j :: i < j < p ==> ks[j] == t.kids[j]
    ensures Trimmed(p, d, t, Ind(t.b, ks), first, keep, false)
  {
    hide Trimmed;
    forall j | 0 <= j < p ensures Trimmed(p, d - 1, t.kids[j], ks[j], first + j * Pow(p, d - 1), keep, false) {
      if j < i {
        TrimmedWeaker(p, d - 1, t.kids[j], ks[j], KidFirst(first, j, p, d), keep);
      } else if j > i {
        TrimmedSame(p, d - 1, t.kids[j], KidFirst(first, j, p, d), keep);
      }
    }
    TrimmedKids(p, d, t.b, t.kids, ks, first, keep, false);
  }

  lemma SizesOk(p: nat, c: Disk, data: seq<nat>, forest: seq<Tree>)
    requires ForestOk(p, c, data, forest)
    ensures |data| == |forest| == NBLOCKS
  {
  }

  lemma HoleLevel(p: nat, t: Tree, path: seq<nat>, level: nat)
    requires HoleAfter(p, t, path, level)
    ensures level <= |path| && Digits(p, path[level..])
  {
  }

  lemma ChainedSize(p: nat, c: Disk, path: seq<nat>, blks: seq<nat>)
    requires Chained(p, c, path, blks)
    ensures |blks| == |path| + 1
  {
  }

  lemma KeptForest(p: nat, c: Disk, c2: Disk, data: seq<nat>, forest: seq<Tree>)
    requires ForestOk(p, c, data, forest)
    requires forall x :: x in BlocksAll(forest) && x in c ==> x in c2 && c2[x] == c[x]
    ensures ForestOk(p, c2, data, forest)
  {
    forall i | 0 <= i < NBLOCKS ensures Holds(c2, forest[i]) {
      TreeIn(forest, i);
      HoldsFrame(c, c2, forest[i]);
    }
  }

  lemma {:induction false} SubHolds(c: Disk, t: Tree, path: seq<nat>)
    requires Holds(c, t)
    ensures Holds(c, Sub(t, path))
    decreases |path|
  {
    if path != [] && t.Ind? && path[0] < |t.kids| { SubHolds(c, t.kids[path[0]], path[1..]); }
  }

  /** The last indirect block of a walk belongs to the file, and holds pointers. */
  lemma JointFacts(p: nat, c: Disk, data: seq<nat>, forest: seq<Tree>, offs: seq<nat>, level: nat)
    requires ForestOk(p, c, data, forest) && ValidPath(p, offs) && 0 < level < |offs|
    requires HoleAfter(p, forest[offs[0]], offs[1..], level)
    ensures var joint := Root(Sub(forest[offs[0]], offs[1..][..level - 1]));
      && joint in Blocks(forest[offs[0]]) && joint in BlocksAll(forest) && joint in c && |c[joint]| == p
      && offs[level] < p && offs[level] == offs[1..][level - 1] && |forest| == NBLOCKS
  {
    var t, path := forest[offs[0]], offs[1..];
    SubHolds(c, t, path[..level - 1]);
    SubBlocks(t, path[..level - 1]);
    TreeIn(forest, offs[0]);
    assert Sub(t, path[..level - 1]).Ind?;
  }

  lemma SpliceDone(p: nat, c: Disk, c1: Disk, c2: Disk, data: seq<nat>, data2: seq<nat>, forest: seq<Tree>,
                   offs: seq<nat>, level: nat, blks: seq<nat>)
    requires ForestOk(p, c, data, forest) && ValidPath(p, offs) && level < |offs|
    requires HoleAfter(p, forest[offs[0]], offs[1..], level) && |blks| == |offs| - level
    requires AllDifferent(blks) && Elems(blks) !! BlocksAll(forest)
    requires Chained(p, c1, offs[level + 1..], blks)
    requires forall x: nat :: x !in blks ==> (x in c1 <==> x in c) && (x in c1 ==> c1[x] == c[x])
    requires level == 0 ==> c2 == c1 && data2 == data[offs[0] := blks[0]]
    requires level > 0 ==>
               var joint := Root(Sub(forest[offs[0]], offs[1..][..level - 1]));
               joint in c1 && offs[level] < |c1[joint]| && data2 == data
               && c2 == c1[joint := Put(c1[joint], offs[level], blks[0])]
    ensures SplicedIn(c, c2, data, data2, forest, offs, level, blks)
    ensures Chained(p, c2, offs[level + 1..], blks)
  {
    hide ForestOk, HoleAfter, Blocks, BlocksAll, Chained;
    assert forall x :: x in BlocksAll(forest) ==> x !in blks by {
      assert forall x :: x in blks ==> x in Elems(blks);
    }
    if level > 0 {
      JointFacts(p, c, data, forest, offs, level);
      TreeIn(forest, offs[0]);
      var joint := Root(Sub(forest[offs[0]], offs[1..][..level - 1]));
      ChainedElsewhere(p, c1, offs[level + 1..], blks, joint, c2[joint]);
    }
  }

  lemma ChainedElsewhere(p: nat, c: Disk, path: seq<nat>, blks: seq<nat>, b: nat, ptrs: seq<nat>)
    requires Chained(p, c, path, blks) && b !in blks
    ensures Chained(p, c[b := ptrs], path, blks)
  {
  }

  lemma HoleUnmapped(p: nat, forest: seq<Tree>, lbn: nat, offs: seq<nat>, level: nat)
    requires p > 0 && |forest| == NBLOCKS && BlockToPath(p, lbn) == Ok(offs) && ValidPath(p, offs)
    requires HoleAfter(p, forest[offs[0]], offs[1..], level)
    ensures MappedIn(p, forest, lbn) == 0
  {
    HoleBelow(forest[offs[0]], offs[1..], level);
  }

  /** Blocks that were not in use are not those of the file. */
  lemma FreshOutside(a: set<nat>, used0: set<nat>, used: set<nat>, blks: seq<nat>, freeOk: nat -> bool)
    requires a <= used0 && Elems(blks) !! used0 && used == used0 + Elems(blks) - Freed(blks, freeOk)
    ensures a <= used && used0 <= used && forall b: nat :: b in used && b !in used0 ==> !freeOk(b)
  {
    assert forall b: nat :: b in Freed(blks, freeOk) ==> b in Elems(blks);
  }

  lemma JointOutside(forest: seq<Tree>, used0: set<nat>, blks: seq<nat>, joint: nat)
    requires BlocksAll(forest) <= used0 && Elems(blks) !! used0 && joint in BlocksAll(forest)
    ensures joint !in blks
  {
    assert joint in blks ==> joint in Elems(blks);
  }

  lemma CreateDone(p: nat, c: Disk, c1: Disk, c2: Disk, data: seq<nat>, data2: seq<nat>, forest: seq<Tree>,
                   offs: seq<nat>, level: nat, blks: seq<nat>, used0: set<nat>, used: set<nat>, k: nat)
    requires ForestOk(p, c, data, forest) && ValidPath(p, offs) && level < |offs|
    requires HoleAfter(p, forest[offs[0]], offs[1..], level) && |blks| == |offs| - level
    requires AllDifferent(blks) && 0 !in blks && Elems(blks) !! used0 && BlocksAll(forest) <= used0
    requires used == used0 + Elems(blks)
    requires Chained(p, c1, offs[level + 1..], blks)
    requires forall x: nat :: x !in blks ==> (x in c1 <==> x in c) && (x in c1 ==> c1[x] == c[x])
    requires level == 0 ==> c2 == c1 && data2 == data[offs[0] := blks[0]]
    requires level > 0 ==>
               var joint := Root(Sub(forest[offs[0]], offs[1..][..level - 1]));
               joint in c1 && offs[level] < |c1[joint]| && data2 == data
               && c2 == c1[joint := Put(c1[joint], offs[level], blks[0])]
    ensures Digits(p, offs[1..]) && Missing(p, forest[offs[0]], offs[1..], blks)
    ensures var forest2 := forest[offs[0] := Insert(p, forest[offs[0]], offs[1..], blks)];
      && ForestOk(p, c2, data2, forest2) && BlocksAll(forest) <= BlocksAll(forest2) <= used
      && used0 <= used == used0 + BlocksAll(forest2) && BlocksAll(forest2) - BlocksAll(forest) !! used0
      && Sectors(|BlocksAll(forest2)|, k) == Sectors(|BlocksAll(forest)|, k) + Sectors(|blks|, k)
    ensures blks[|blks| - 1] != 0 && blks[|blks| - 1] !in used0
    ensures forall x: nat :: x in used0 && x !in BlocksAll(forest) && x in c ==> x in c2 && c2[x] == c[x]
  {
    hide Holds, WellFormed, Distinct, DistinctAll, BlocksAll, Blocks, Insert, Missing, Sub;
    assert forall x :: x in blks ==> x in Elems(blks);
    if level > 0 { JointFacts(p, c, data, forest, offs, level); }
    SpliceDone(p, c, c1, c2, data, data2, forest, offs, level, blks);
    CreatedForest(p, c, c2, data, data2, forest, offs, level, blks);
    CountUp(BlocksAll(forest), blks, k);
  }

  lemma CountUp(a: set<nat>, blks: seq<nat>, k: nat)
    requires AllDifferent(blks) && Elems(blks) !! a
    ensures Sectors(|a + Elems(blks)|, k) == Sectors(|a|, k) + Sectors(|blks|, k)
  {
    ElemsCount(blks);
    assert |a + Elems(blks)| == |a| + |blks|;
    SectorsAdd(|a|, |blks|, k);
  }

  lemma {:induction false} ElemsCount(s: seq<nat>)
    requires AllDifferent(s)
    ensures |Elems(s)| == |s|
  {
    if s != [] {
      ElemsHead(s);
      ElemsCount(s[1..]);
    }
  }

  lemma ElemsPush(s: seq<nat>, b: nat)
    requires AllDifferent(s) && b !in s
    ensures AllDifferent(s + [b]) && Elems(s + [b]) == Elems(s) + {b}
  {
  }

  lemma ElemsCut(s: seq<nat>, i: nat)
    requires i < |s| && AllDifferent(s)
    ensures s[i] in Elems(s) && Elems(s[..i + 1]) == Elems(s[..i]) + {s[i]} && s[i] !in Elems(s[..i])
    ensures Elems(s[i..]) == Elems(s[i + 1..]) + {s[i]}
  {
  }

  /** The blocks of a branch whose release does not fail. */
  ghost function Freed(blks: seq<nat>, freeOk: nat -> bool): set<nat> {
    set b | b in blks && freeOk(b)
  }

  lemma FreedCut(s: seq<nat>, i: nat, freeOk: nat -> bool)
    requires i < |s| && AllDifferent(s)
    ensures s[i] !in Freed(s[i + 1..], freeOk)
    ensures Freed(s[i..], freeOk) == Freed(s[i + 1..], freeOk) + if freeOk(s[i]) then {s[i]} else {}
    ensures Freed(s[i..], freeOk) == Elems(s[i..]) <==> freeOk(s[i]) && Freed(s[i + 1..], freeOk) == Elems(s[i + 1..])
    ensures Freed(s[i + 1..], freeOk) !! Elems(s[..i])
  {
    assert s[i..] == [s[i]] + s[i + 1..];
    assert forall b: nat :: b in Elems(s[i..]) <==> b == s[i] || b in Elems(s[i + 1..]);
    assert s[i] in Elems(s[i..]) && s[i] !in Elems(s[i + 1..]);
  }

  /** An indirect block on the way to a position cannot be read. */
  ghost predicate Dark(t: Tree, path: seq<nat>, readOk: nat -> bool) {
    exists l: nat :: l < |path| && Sub(t, path[..l]).Ind? && !readOk(Sub(t, path[..l]).b)
  }

  /** An indirect block on the way to logical block lbn cannot be read. */
  ghost predicate Blocked(p: nat, forest: seq<Tree>, lbn: nat, readOk: nat -> bool)
    requires p > 0 && |forest| == NBLOCKS
  {
    var path := BlockToPath(p, lbn);
    path.Ok? && path.value != [] && path.value[0] < NBLOCKS && Dark(forest[path.value[0]], path.value[1..], readOk)
  }

  /** The walk read its way to a hole or to the end. */
  lemma NotDark(t: Tree, path: seq<nat>, level: nat, readOk: nat -> bool)
    requires level <= |path| && (level < |path| ==> Sub(t, path[..level]) == Hole)
    requires forall l :: 0 <= l < level ==> Sub(t, path[..l]).Ind? && readOk(Root(Sub(t, path[..l])))
    ensures !Dark(t, path, readOk)
  {
    hide Sub;
    forall l: nat | level <= l < |path| ensures Sub(t, path[..l]) == Hole {
      HoleOn(t, path, level, l);
    }
  }

  lemma {:induction false} HoleOn(t: Tree, path: seq<nat>, level: nat, l: nat)
    requires level <= l < |path| && Sub(t, path[..level]) == Hole
    ensures Sub(t, path[..l]) == Hole
    decreases l
  {
    if l > level {
      HoleOn(t, path, level, l - 1);
      SubStep(t, path, l - 1);
    }
  }

  /** How many blocks a position lacks, the data block included. */
  ghost function Absent(t: Tree, path: seq<nat>): nat
    decreases |path|
  {
    if t.Hole? then |path| + 1
    else if path != [] && t.Ind? && path[0] < |t.kids| then Absent(t.kids[path[0]], path[1..])
    else 0
  }

  ghost function Needed(p: nat, forest: seq<Tree>, lbn: nat): nat
    requires p > 0 && |forest| == NBLOCKS
  {
    var path := BlockToPath(p, lbn);
    if path.Err? || path.value == [] || path.value[0] >= NBLOCKS then 0
    else Absent(forest[path.value[0]], path.value[1..])
  }

  lemma {:induction false} AbsentAfter(p: nat, t: Tree, path: seq<nat>, level: nat)
    requires HoleAfter(p, t, path, level)
    ensures Absent(t, path) == |path| + 1 - level
    decreases level
  {
    assert path[..0] == [];
    if level > 0 {
      assert Sub(t, path[..0]).Ind?;
      var kid, rest := t.kids[path[0]], path[1..];
      forall l: nat | l < level ensures Sub(kid, rest[..l]) == Sub(t, path[..l + 1]) {
        assert path[..l + 1][1..] == rest[..l];
      }
      AbsentAfter(p, kid, rest, level - 1);
    }
  }

  /** Every group can be read. */
  ghost predicate AllRead(n: nat, descOk: nat -> bool, mapOk: nat -> bool) {
    forall g: nat :: g < n ==> descOk(g) && mapOk(g)
  }

  /** Nothing fails on a block that was not in use. */
  ghost predicate Unharmed(used: set<nat>, ok: nat -> bool) {
    forall b: nat :: b !in used ==> ok(b)
  }

  /** The outcome of getting new blocks: success needs enough of them, and has them if nothing fails; no space is
      reported only if there are too few, and then it is unless a group, or a block given back, fails. */
  ghost predicate Supplied(need: nat, free: nat, groupsOk: bool, readsOk: bool, freesOk: bool, r: Result<nat>) {
    && (r.Ok? ==> need <= free)
    && (r == Err(ENOSPC) ==> free < need)
    && (need <= free && groupsOk && readsOk ==> r.Ok?)
    && (free < need && groupsOk && freesOk ==> r == Err(ENOSPC))
  }

  lemma SuppliedNot(need: nat, free: nat, groupsOk: bool, readsOk: bool, freesOk: bool, error: Error, e: Error)
    requires (e == error || e == EIO) && (freesOk ==> e == error)
    requires (error == ENOSPC ==> free < need) && (groupsOk && free < need ==> error == ENOSPC)
    requires !(need <= free && groupsOk && readsOk)
    ensures Supplied(need, free, groupsOk, readsOk, freesOk, Err(e))
  {
  }

  lemma SuppliedAll(need: nat, free: nat, groupsOk: bool, readsOk: bool, freesOk: bool, blk: nat)
    requires need <= free
    ensures Supplied(need, free, groupsOk, readsOk, freesOk, Ok(blk))
  {
  }

  lemma AllFreed(used: set<nat>, blks: seq<nat>, freeOk: nat -> bool)
    requires Elems(blks) !! used
    ensures Unharmed(used, freeOk) ==> Freed(blks, freeOk) == Elems(blks)
  {
    assert forall b :: b in blks ==> b in Elems(blks);
  }

  lemma ElemsHas(blks: seq<nat>, i: nat)
    requires i < |blks|
    ensures blks[i] in Elems(blks)
  {
  }

  lemma ValidParts(s: Super)
    requires s.Valid()
    ensures s.Sane() && s.free == Total(s.groups)
  {
  }

  lemma WalkBegins(t: Tree, path: seq<nat>)
    ensures path[..0] == [] && Sub(t, path[..0]) == t
  {
  }

  lemma RootHole(p: nat, d: nat, t: Tree)
    requires WellFormed(p, d, t)
    ensures Root(t) == 0 <==> t == Hole
  {
  }

  lemma HoleStays(p: nat, c: Disk, t: Tree, path: seq<nat>, level: nat)
    requires level < |path| && Sub(t, path[..level]) == Hole
    ensures Sub(t, path[..level + 1]) == Hole && WellFormed(p, |path| - level - 1, Hole) && Holds(c, Hole)
  {
    SubStep(t, path, level);
  }

  // ---------------------------------------------------------------------------------------------
  // Two files on one volume
  // ---------------------------------------------------------------------------------------------

  /** Two files of a volume without a common block. */
  ghost predicate Apart(a: Inode, b: Inode)
    reads a, b
  {
    a != b && a.vol == b.vol && BlocksAll(a.forest) !! BlocksAll(b.forest)
  }

  /** Growing one file, whatever fails on the way, leaves every mapping of another alone, and the files apart. */
  method CreateBeside(a: Inode, b: Inode, lbn: nat, readOk: nat -> bool, descOk: nat -> bool, mapOk: nat -> bool,
                      freeOk: nat -> bool)
    returns (r: Result<nat>)
    requires a.Valid() && b.Valid() && Apart(a, b)
    modifies a, a.vol, a.vol.sup
    ensures a.Valid() && b.Valid() && Apart(a, b)
    ensures forall n: nat :: b.Mapped(n) == old(b.Mapped(n))
  {
    hide ForestOk, BlocksAll, Super.Used, Super.Valid, MappedIn;
    ghost var c := b.vol.disk;
    r := a.Create(lbn, readOk, descOk, mapOk, freeOk);
    KeptForest(b.vol.ptrs, c, b.vol.disk, b.data, b.forest);
  }

  /** So does truncating it: nothing another file reaches is given back. */
  method TruncateBeside(a: Inode, b: Inode, keep: nat, readOk: nat -> bool, freeOk: nat -> bool)
    returns (r: Result<()>)
    requires a.Valid() && b.Valid() && Apart(a, b)
    modifies a, a.vol, a.vol.sup
    ensures a.Valid() && b.Valid() && Apart(a, b)
    ensures forall n: nat :: b.Mapped(n) == old(b.Mapped(n))
  {
    hide ForestOk, BlocksAll, Super.Used, Super.Valid, MappedIn;
    ghost var c := b.vol.disk;
    r := a.Truncate(keep, readOk, freeOk);
    KeptForest(b.vol.ptrs, c, b.vol.disk, b.data, b.forest);
  }
}
