/** The ext2 block allocator: fs/ext2/balloc.c.

    A file system is a row of block groups. Each has a bitmap and a count of its free blocks; the superblock counts the
    free blocks of all groups. Reading a descriptor or a bitmap may fail at any time.
 */
module Balloc {
  import opened Arith
  import opened Errno

  /** `bits[i]` says that block i of the group is in use. */
  datatype Group = Group(bits: seq<bool>, free: nat)

  function Zeros(bits: seq<bool>): nat {
    if bits == [] then 0 else (if bits[0] then 0 else 1) + Zeros(bits[1..])
  }

  function Total(groups: seq<Group>): nat {
    if groups == [] then 0 else groups[0].free + Total(groups[1..])
  }

  lemma {:induction false} ZerosSet(bits: seq<bool>, i: nat)
    requires i < |bits|
    ensures bits[i] ==> Zeros(bits[i := false]) == Zeros(bits) + 1
    ensures !bits[i] ==> Zeros(bits[i := true]) == Zeros(bits) - 1
  {
    if i > 0 {
      ZerosSet(bits[1..], i - 1);
      assert bits[i := false][1..] == bits[1..][i - 1 := false];
      assert bits[i := true][1..] == bits[1..][i - 1 := true];
    }
  }

  lemma {:induction false} ZerosAny(bits: seq<bool>)
    ensures Zeros(bits) > 0 <==> exists i :: 0 <= i < |bits| && !bits[i]
  {
    if bits != [] {
      ZerosAny(bits[1..]);
      if i :| 0 <= i < |bits| && !bits[i] {
        if i > 0 { assert !bits[1..][i - 1]; }
      }
      if j :| 0 <= j < |bits[1..]| && !bits[1..][j] {
        assert !bits[j + 1];
      }
    }
  }

  lemma {:induction false} TotalSet(groups: seq<Group>, g: nat, x: Group)
    requires g < |groups|
    ensures Total(groups[g := x]) == Total(groups) - groups[g].free + x.free
  {
    if g > 0 {
      TotalSet(groups[1..], g - 1, x);
      assert groups[g := x][1..] == groups[1..][g - 1 := x];
    }
  }

  lemma {:induction false} TotalAny(groups: seq<Group>)
    ensures Total(groups) > 0 <==> exists g :: 0 <= g < |groups| && groups[g].free > 0
  {
    if groups != [] {
      TotalAny(groups[1..]);
      if g :| 0 <= g < |groups| && groups[g].free > 0 {
        if g > 0 { assert groups[1..][g - 1].free > 0; }
      }
      if h :| 0 <= h < |groups[1..]| && groups[1..][h].free > 0 {
        assert groups[h + 1].free > 0;
      }
    }
  }

  /** The number of block i of group g. */
  function Number(first: nat, p: nat, g: nat, i: nat): nat {
    first + g * p + i
  }

  function GroupOf(first: nat, p: nat, b: nat): nat
    requires p > 0 && first <= b
  {
    (b - first) / p
  }

  function IndexOf(first: nat, p: nat, b: nat): nat
    requires p > 0 && first <= b
  {
    (b - first) % p
  }

  /** A block number determines its group and its bit, and they determine it. */
  lemma PlaceOf(first: nat, p: nat, g: nat, i: nat)
    requires i < p
    ensures first <= Number(first, p, g, i) && GroupOf(first, p, Number(first, p, g, i)) == g
    ensures IndexOf(first, p, Number(first, p, g, i)) == i
  {
    DivMod(g, i, p);
  }

  lemma NumberOf(first: nat, p: nat, b: nat)
    requires p > 0 && first <= b
    ensures Number(first, p, GroupOf(first, p, b), IndexOf(first, p, b)) == b && IndexOf(first, p, b) < p
  {
    DivModBack(b - first, p);
  }

  /** Groups follow each other without a gap. */
  lemma NextGroup(first: nat, p: nat, g: nat)
    ensures Number(first, p, g + 1, 0) == Number(first, p, g, p) && Number(first, p, 0, 0) == first
  {
  }

  lemma NumberIndex(first: nat, p: nat, g: nat, i: nat)
    ensures Number(first, p, g, i) == Number(first, p, g, 0) + i
  {
  }

  lemma LaterGroup(first: nat, p: nat, g: nat, h: nat)
    requires g < h
    ensures Number(first, p, g, p) <= Number(first, p, h, 0)
  {
    NextMultiple(g, h, p);
  }

  /** find_first_zero_bit. */
  method FirstZero(bits: seq<bool>) returns (i: nat)
    ensures i <= |bits| && (forall j :: 0 <= j < i ==> bits[j])
    ensures i < |bits| ==> !bits[i]
  {
    i := 0;
    while i < |bits| && bits[i]
      invariant i <= |bits| && forall j :: 0 <= j < i ==> bits[j]
    {
      i := i + 1;
    }
  }

  /** What one changed bit means for the blocks. */
  ghost predicate MarkedIn(groups: seq<Group>, first: nat, count: nat, p: nat, b: nat) {
    && p > 0 && first <= b < count
    && GroupOf(first, p, b) < |groups|
    && IndexOf(first, p, b) < |groups[GroupOf(first, p, b)].bits|
    && groups[GroupOf(first, p, b)].bits[IndexOf(first, p, b)]
  }

  lemma OneBit(gs: seq<Group>, hs: seq<Group>, first: nat, count: nat, p: nat, g: nat, i: nat, bit: bool)
    requires p > 0 && g < |gs| == |hs| && i < |gs[g].bits| <= p && Number(first, p, g, i) < count
    requires hs[g].bits == gs[g].bits[i := bit]
    requires forall h :: 0 <= h < |gs| && h != g ==> hs[h].bits == gs[h].bits
    ensures var b := Number(first, p, g, i);
      && first <= b && (MarkedIn(hs, first, count, p, b) <==> bit)
      && (MarkedIn(gs, first, count, p, b) <==> gs[g].bits[i])
      && forall x: nat :: x != b ==> (MarkedIn(hs, first, count, p, x) <==> MarkedIn(gs, first, count, p, x))
  {
    PlaceOf(first, p, g, i);
    forall x: nat | first <= x ensures Number(first, p, GroupOf(first, p, x), IndexOf(first, p, x)) == x {
      NumberOf(first, p, x);
    }
    hide Number, GroupOf, IndexOf;
  }

  /** The search gets to group g and cannot read its descriptor, or its bitmap if it counts a free block. */
  ghost predicate Unreadable(groups: seq<Group>, descOk: nat -> bool, mapOk: nat -> bool, g: nat) {
    && g < |groups| && (forall h: nat :: h < g ==> descOk(h) && groups[h].free == 0)
    && (!descOk(g) || (groups[g].free > 0 && !mapOk(g)))
  }

  class Super {
    const first: nat
    const count: nat
    const perGroup: nat
    const blockBits: nat
    var groups: seq<Group>
    var free: nat

    constructor (first: nat, count: nat, perGroup: nat, blockBits: nat, groups: seq<Group>, free: nat)
      ensures this.first == first && this.count == count && this.perGroup == perGroup && this.blockBits == blockBits
      ensures this.groups == groups && this.free == free
    {
      this.first, this.count, this.perGroup, this.blockBits := first, count, perGroup, blockBits;
      this.groups, this.free := groups, free;
    }

    /** The first block of a group. */
    function Start(g: nat): nat {
      Number(first, perGroup, g, 0)
    }

    /** The number of blocks in a group; the last one may be short. */
    function Size(g: nat): nat {
      if Start(g) >= count then 0 else if count - Start(g) < perGroup then count - Start(g) else perGroup
    }

    /** The geometry of a mounted file system: the groups cover its blocks, and none lies beyond. */
    ghost predicate Shape()
      reads this
    {
      && 0 < perGroup && count <= Start(|groups|)
      && forall g :: 0 <= g < |groups| ==> Start(g) < count && |groups[g].bits| == Size(g)
    }

    /** The counts agree with the bitmaps and with each other, and block 0 is never free. */
    ghost predicate Counts()
      reads this
    {
      && (forall g :: 0 <= g < |groups| ==> groups[g].free == Zeros(groups[g].bits))
      && free == Total(groups)
      && (first == 0 && 0 < |groups| && 0 < |groups[0].bits| ==> groups[0].bits[0])
    }

    /** What ext2_check_params looks for. */
    predicate Sane() {
      first < count && perGroup <= blockBits
    }

    ghost predicate Valid()
      reads this
    {
      Shape() && Counts() && Sane()
    }

    ghost predicate Marked(b: nat)
      reads this
    {
      MarkedIn(groups, first, count, perGroup, b)
    }

    /** The blocks in use, by the bitmaps. */
    ghost function Used(): set<nat>
      reads this
    {
      set b: nat | first <= b < count && Marked(b)
    }

    /** ext2_update_free: one count moves with the other. */
    method UpdateFree(g: nat, delta: int)
      requires g < |groups| && groups[g].free + delta >= 0 && free + delta >= 0
      modifies this
      ensures free == old(free) + delta
      ensures groups == old(groups)[g := old(groups)[g].(free := old(groups)[g].free + delta)]
    {
      groups := groups[g := groups[g].(free := groups[g].free + delta)];
      free := free + delta;
    }

    /** ext2_alloc_group_block. `mapOk` says that the bitmap can be read. */
    method AllocGroup(g: nat, mapOk: bool) returns (r: Result<nat>)
      requires Shape() && g < |groups| && groups[g].free > 0 && free > 0
      modifies this
      ensures Shape()
      ensures r.Err? ==> groups == old(groups) && free == old(free) && (r.error == EIO || r.error == EUCLEAN)
      ensures old(Counts()) ==> Counts() && r != Err(EUCLEAN)
      ensures r == Err(EIO) <==> !mapOk
      ensures r.Ok? ==> r.value != 0 && r.value !in old(Used()) && Used() == old(Used()) + {r.value}
      ensures r.Ok? ==> free == old(free) - 1 && |groups| == |old(groups)|
    {
      hide Number, MarkedIn, Zeros, Total;
      if !mapOk {
        return Err(EIO);
      }
      var bits := groups[g].bits;
      var bit := FirstZero(bits);
      ZerosAny(bits);
      NumberIndex(first, perGroup, g, bit);
      NextGroup(first, perGroup, 0);
      NumberIndex(first, perGroup, 0, perGroup);
      if g > 0 { LaterGroup(first, perGroup, 0, g); }
      if bit == |bits| || Start(g) + bit == 0 {
        return Err(EUCLEAN);
      }
      groups := groups[g := groups[g].(bits := bits[bit := true])];
      UpdateFree(g, -1);
      OneBit(old(groups), groups, first, count, perGroup, g, bit, true);
      ZerosSet(bits, bit);
      TotalSet(old(groups), g, groups[g]);
      assert groups == old(groups)[g := groups[g]];
      return Ok(Start(g) + bit);
    }

    /** ext2_alloc_block. `junk` is what the caller's variable holds before the call; `descOk` and `mapOk` say of which
        groups the descriptor and the bitmap can be read. With counts that agree, success means a free block, and no
        space is reported only when there is none. With a positive superblock count and no group that has a free block,
        the loop runs out and success is reported with nothing allocated. */
    method AllocBlock(junk: nat, descOk: nat -> bool, mapOk: nat -> bool) returns (r: Result<()>, blk: nat)
      requires Shape()
      modifies this
      ensures Shape() && (old(Counts()) ==> Counts())
      ensures r.Err? ==> groups == old(groups) && free == old(free) && r.error in {EIO, EUCLEAN, ENOSPC}
      ensures r.Err? ==> Used() == old(Used())
      ensures r == Err(ENOSPC) <==> Sane() && old(free) == 0
      ensures !Sane() ==> r == Err(EUCLEAN)
      ensures old(Valid()) ==> r != Err(EUCLEAN)
      ensures r.Ok? && Total(old(groups)) > 0 ==> blk != 0 && blk !in old(Used()) && Used() == old(Used()) + {blk}
      ensures r.Ok? && Total(old(groups)) > 0 ==> free == old(free) - 1 && |groups| == |old(groups)|
      ensures r.Ok? && Total(old(groups)) == 0 ==> blk == junk && groups == old(groups) && free == old(free)
      ensures r.Ok? && old(Counts()) ==> Total(old(groups)) > 0
      ensures r == Err(EIO) <==> Sane() && old(free) > 0 && exists g: nat :: Unreadable(old(groups), descOk, mapOk, g)
      ensures Total(old(groups)) == 0 && (forall g: nat :: g < |old(groups)| ==> descOk(g)) ==>
                (r.Ok? <==> Sane() && old(free) > 0)
    {
      hide Number, MarkedIn, Zeros, Total;
      blk := junk;
      if first >= count || perGroup > blockBits {
        return Err(EUCLEAN), junk;
      }
      if free == 0 {
        return Err(ENOSPC), junk;
      }
      TotalAny(groups);
      var g, start := 0, first;
      NextGroup(first, perGroup, 0);
      while start < count
        invariant 0 <= g <= |groups| && start == Start(g)
        invariant groups == old(groups) && free == old(free)
        invariant forall h: nat :: h < g ==> descOk(h) && groups[h].free == 0
        decreases |groups| - g
      {
        if !descOk(g) {
          assert Unreadable(old(groups), descOk, mapOk, g);
          return Err(EIO), junk;
        }
        assert groups[g].free > 0 && !mapOk(g) ==> Unreadable(old(groups), descOk, mapOk, g);
        if groups[g].free != 0 {
          var b := AllocGroup(g, mapOk(g));
          if b.Err? {
            return Err(b.error), junk;
          }
          return Ok(()), b.value;
        }
        NextGroup(first, perGroup, g);
        NumberIndex(first, perGroup, g, perGroup);
        g, start := g + 1, start + perGroup;
      }
      AllCovered(g);
      return Ok(()), junk;
    }

    /** A group past the last block is past the last group. */
    lemma AllCovered(g: nat)
      requires Shape() && g <= |groups| && Start(g) >= count
      ensures g == |groups|
    {
      assert g < |groups| ==> Start(g) < count;
    }

    /** ext2_free_block. `ioOk` says that the descriptor and the bitmap of its group can be read. */
    method FreeBlock(b: nat, ioOk: bool) returns (r: Result<()>)
      requires Shape() && b != 0 && b in Used()
      modifies this
      ensures Shape() && (old(Counts()) ==> Counts())
      ensures r.Err? ==> r.error == EIO && groups == old(groups) && free == old(free) && Used() == old(Used())
      ensures r.Ok? ==> Used() == old(Used()) - {b}
      ensures r.Ok? <==> ioOk
    {
      hide Number, Zeros, Total, GroupOf, IndexOf;
      var g, i := GroupOf(first, perGroup, b), IndexOf(first, perGroup, b);
      if !ioOk {
        return Err(EIO);
      }
      var bits := groups[g].bits;
      NumberOf(first, perGroup, b);
      if g == 0 && i == 0 { NextGroup(first, perGroup, 0); }
      groups := groups[g := groups[g].(bits := bits[i := false])];
      UpdateFree(g, 1);
      OneBit(old(groups), groups, first, count, perGroup, g, i, false);
      ZerosSet(bits, i);
      TotalSet(old(groups), g, groups[g]);
      assert groups == old(groups)[g := groups[g]];
      return Ok(());
    }
  }

  /** A file system of one block, which is in use, whose superblock counts one free block: ext2_alloc_block reports
      success although everything can be read, allocates nothing, and leaves the caller's variable as it was. */
  method SuccessWithoutBlock(junk: nat) returns (s: Super, r: Result<()>, blk: nat)
    ensures fresh(s) && s.Shape() && s.Sane() && s.Used() == {1} && s.free == 1 && Total(s.groups) == 0
    ensures r.Ok? && blk == junk
  {
    hide Number, MarkedIn, Total, Zeros;
    s := new Super(1, 2, 1, 1, [Group([true], 0)], 1);
    OneGroup(s.groups);
    assert s.Start(0) == 1 && s.Start(1) == 2;
    assert s.Size(0) == 1;
    assert s.Shape();
    assert s.Used() == {1};
    hide Super.Shape, Super.Counts;
    var yes := (g: nat) => true;
    assert forall g: nat :: yes(g);
    r, blk := s.AllocBlock(junk, yes, yes);
    assert s.groups == [Group([true], 0)];
  }

  lemma OneGroup(groups: seq<Group>)
    requires |groups| == 1 && groups[0] == Group([true], 0)
    ensures Total(groups) == 0 && Number(1, 1, 0, 0) == 1 && Number(1, 1, 1, 0) == 2
    ensures forall b: nat :: MarkedIn(groups, 1, 2, 1, b) <==> b == 1
  {
    hide GroupOf, IndexOf, Number;
    PlaceOf(1, 1, 0, 0);
    NextGroup(1, 1, 0);
    NumberIndex(1, 1, 0, 1);
    assert groups[1..] == [];
  }
}
