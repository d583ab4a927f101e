/** Powers of two and the bit tricks on page frame numbers, by recursion on the bits. */
module Bits {

  function Pow2(o: nat): (r: nat)
    ensures r > 0
  {
    if o == 0 then 1 else 2 * Pow2(o - 1)
  }

  /** pfn & ((1 << o) - 1) == 0 */
  predicate Aligned(p: nat, o: nat) {
    o == 0 || (p % 2 == 0 && Aligned(p / 2, o - 1))
  }

  /** pfn ^ (1 << o) */
  function Flip(p: nat, o: nat): nat {
    if o == 0 then (if p % 2 == 0 then p + 1 else p - 1) else 2 * Flip(p / 2, o - 1) + p % 2
  }

  function Min(a: nat, b: nat): nat {
    if a < b then a else b
  }

  lemma {:induction false} Pow2Monotone(a: nat, b: nat)
    requires a <= b
    ensures Pow2(a) <= Pow2(b) && (a < b ==> 2 * Pow2(a) <= Pow2(b))
  {
    if a < b {
      Pow2Monotone(a, b - 1);
    }
  }

  lemma {:induction false} AlignedMonotone(p: nat, a: nat, b: nat)
    requires a <= b && Aligned(p, b)
    ensures Aligned(p, a)
  {
    if a > 0 {
      AlignedMonotone(p / 2, a - 1, b - 1);
    }
  }

  /** A block and its buddy are the two halves of one block of the next order. */
  lemma {:induction false} Halves(p: nat, o: nat)
    requires Aligned(p, o)
    ensures Aligned(Flip(p, o), o) && Aligned(Min(p, Flip(p, o)), o + 1)
    ensures Flip(p, o) == p + Pow2(o) || p == Flip(p, o) + Pow2(o)
    ensures Flip(Flip(p, o), o) == p
    ensures Aligned(p, o + 1) <==> Flip(p, o) == p + Pow2(o)
  {
    if o > 0 {
      Halves(p / 2, o - 1);
    }
  }

  lemma {:induction false} UpperHalf(p: nat, o: nat)
    requires Aligned(p, o + 1)
    ensures Aligned(p, o) && Aligned(p + Pow2(o), o) && Flip(p, o) == p + Pow2(o) && Flip(p + Pow2(o), o) == p
  {
    AlignedMonotone(p, o, o + 1);
    Halves(p, o);
  }

  /** Aligned blocks are nested or apart. */
  lemma {:induction false} Nested(p: nat, a: nat, q: nat, b: nat)
    requires Aligned(p, a) && Aligned(q, b) && a <= b
    requires p < q + Pow2(b) && q < p + Pow2(a)
    ensures q <= p && p + Pow2(a) <= q + Pow2(b)
  {
    if a > 0 {
      Nested(p / 2, a - 1, q / 2, b - 1);
    }
  }
}

/** The buddy allocator of mm/buddy.c. */
module Buddy {
  import opened Bits
  import opened Errno
  import Memblock

  /** A block is named by its first page; `used` tells an allocated block from a free one. */
  datatype Block = Block(order: nat, used: bool)

  type Blocks = map<nat, Block>

  predicate Apart(p: nat, a: nat, q: nat, b: nat) {
    p + Pow2(a) <= q || q + Pow2(b) <= p
  }

  /** Page x lies in the block of order o at p. */
  predicate In(p: nat, o: nat, x: nat) {
    p <= x < p + Pow2(o)
  }

  ghost predicate Holds(bs: Blocks, p: nat, x: nat) {
    p in bs && In(p, bs[p].order, x)
  }

  ghost predicate Covered(bs: Blocks, x: nat) {
    exists p :: Holds(bs, p, x)
  }

  ghost predicate FreeAt(bs: Blocks, x: nat) {
    exists p :: Holds(bs, p, x) && !bs[p].used
  }

  ghost predicate IsFree(bs: Blocks, p: nat, o: nat) {
    p in bs && bs[p] == Block(o, false)
  }

  /** Blocks are aligned, below the maximal order, and do not overlap. */
  ghost predicate Tiled(bs: Blocks, maxOrder: nat) {
    && (forall p :: p in bs ==> bs[p].order < maxOrder && Aligned(p, bs[p].order))
    && (forall p, q :: p in bs && q in bs && p != q ==> Apart(p, bs[p].order, q, bs[q].order))
  }

  /** No two free buddies of the same order, except at the top. */
  ghost predicate Coalesced(bs: Blocks, maxOrder: nat) {
    forall p :: p in bs && !bs[p].used && bs[p].order + 1 < maxOrder ==> !IsFree(bs, Flip(p, bs[p].order), bs[p].order)
  }

  // ---------------------------------------------------------------------------------------------
  // The free blocks are determined by the free pages
  // ---------------------------------------------------------------------------------------------

  ghost predicate RunFree(bs: Blocks, p: nat, o: nat) {
    forall x :: In(p, o, x) ==> FreeAt(bs, x)
  }

  /** In a coalesced allocator every aligned run of free pages lies inside one free block. */
  lemma {:induction false} RunInBlock(bs: Blocks, maxOrder: nat, p: nat, o: nat) returns (q: nat)
    requires Tiled(bs, maxOrder) && Coalesced(bs, maxOrder)
    requires o < maxOrder && Aligned(p, o) && RunFree(bs, p, o)
    ensures q in bs && !bs[q].used && bs[q].order >= o && q <= p && p + Pow2(o) <= q + Pow2(bs[q].order)
    decreases o
  {
    if o == 0 {
      assert FreeAt(bs, p);
      q :| Holds(bs, q, p) && !bs[q].used;
    } else {
      UpperHalf(p, o - 1);
      var h := p + Pow2(o - 1);
      q := RunInBlock(bs, maxOrder, p, o - 1);
      var r := RunInBlock(bs, maxOrder, h, o - 1);
      if bs[q].order >= o {
        Nested(p, o, q, bs[q].order);
      } else if bs[r].order >= o {
        Nested(p, o, r, bs[r].order);
        q := r;
      } else {
        assert false;
      }
    }
  }

  ghost function FreeBlocks(bs: Blocks): map<nat, nat> {
    map p | p in bs && !bs[p].used :: bs[p].order
  }

  lemma {:induction false} Pow2Injective(a: nat, b: nat)
    requires Pow2(a) == Pow2(b)
    ensures a == b
  {
    if a < b {
      Pow2Monotone(a, b);
    } else if b < a {
      Pow2Monotone(b, a);
    }
  }

  lemma {:induction false} SameBlock(bs: Blocks, cs: Blocks, maxOrder: nat, p: nat)
    requires Tiled(bs, maxOrder) && Coalesced(bs, maxOrder) && Tiled(cs, maxOrder) && Coalesced(cs, maxOrder)
    requires forall x :: FreeAt(bs, x) <==> FreeAt(cs, x)
    requires p in bs && !bs[p].used
    ensures p in cs && !cs[p].used && cs[p].order == bs[p].order
  {
    var o := bs[p].order;
    assert RunFree(cs, p, o) by {
      forall x | In(p, o, x) ensures FreeAt(cs, x) {
        assert Holds(bs, p, x);
        assert FreeAt(bs, x);
      }
    }
    var q := RunInBlock(cs, maxOrder, p, o);
    assert RunFree(bs, q, cs[q].order) by {
      forall x | In(q, cs[q].order, x) ensures FreeAt(bs, x) {
        assert Holds(cs, q, x);
        assert FreeAt(cs, x);
      }
    }
    var r := RunInBlock(bs, maxOrder, q, cs[q].order);
    assert r == p;
    Pow2Injective(o, cs[q].order);
  }

  /** Two coalesced allocators with the same free pages have the same free blocks. */
  lemma Canonical(bs: Blocks, cs: Blocks, maxOrder: nat)
    requires Tiled(bs, maxOrder) && Coalesced(bs, maxOrder) && Tiled(cs, maxOrder) && Coalesced(cs, maxOrder)
    requires forall x :: FreeAt(bs, x) <==> FreeAt(cs, x)
    ensures FreeBlocks(bs) == FreeBlocks(cs)
  {
    forall p | p in FreeBlocks(bs) ensures p in FreeBlocks(cs) && FreeBlocks(cs)[p] == FreeBlocks(bs)[p] {
      SameBlock(bs, cs, maxOrder, p);
    }
    forall p | p in FreeBlocks(cs) ensures p in FreeBlocks(bs) {
      SameBlock(cs, bs, maxOrder, p);
    }
  }

  // ---------------------------------------------------------------------------------------------
  // Page descriptors and free lists
  // ---------------------------------------------------------------------------------------------

  datatype Flag = Reserved | InBuddy | PgTable | Allocated | Slab | Kmalloc

  const ORDER_NONE := -1

  datatype Page = Page(flags: set<Flag>, order: int, refs: nat)

  /** An interior page of a block, and a page as page_init leaves it. */
  const Plain := Page({}, ORDER_NONE, 0)
  const Pristine := Page({Reserved}, ORDER_NONE, 0)

  /** struct free_area. */
  datatype Area = Area(list: seq<nat>, nrFree: nat)

  ghost function Span(p: nat, o: nat): (s: set<nat>)
    ensures forall x :: x in s <==> In(p, o, x)
  {
    set x: nat | x < p + Pow2(o) && In(p, o, x)
  }

  /** What the descriptor of page x must look like; a loose page belongs to no block in the middle of an operation. */
  ghost predicate PageMatches(pg: Page, bs: Blocks, loose: set<nat>, x: nat) {
    if x in bs then
      if bs[x].used then
        Allocated in pg.flags && InBuddy !in pg.flags && Reserved !in pg.flags && pg.order == bs[x].order && pg.refs > 0
      else pg == Page({InBuddy}, bs[x].order, 0)
    else if Covered(bs, x) || x in loose then pg == Plain
    else Reserved in pg.flags && InBuddy !in pg.flags && Allocated !in pg.flags
  }

  ghost predicate PagesMatch(pages: seq<Page>, lo: nat, bs: Blocks, loose: set<nat>) {
    forall i :: 0 <= i < |pages| ==> PageMatches(pages[i], bs, loose, lo + i)
  }

  ghost predicate NoDup(s: seq<nat>) {
    forall i, j :: 0 <= i < j < |s| ==> s[i] != s[j]
  }

  ghost predicate AreaMatches(a: Area, bs: Blocks, o: nat) {
    a.nrFree == |a.list| && NoDup(a.list) && forall p :: p in a.list <==> IsFree(bs, p, o)
  }

  ghost predicate AreasMatch(areas: seq<Area>, bs: Blocks) {
    forall o :: 0 <= o < |areas| ==> AreaMatches(areas[o], bs, o)
  }

  ghost predicate InRange(bs: Blocks, loose: set<nat>, lo: nat, hi: nat) {
    && (forall p :: p in bs ==> lo <= p && p + Pow2(bs[p].order) <= hi)
    && (forall x :: x in loose ==> lo <= x < hi && !Covered(bs, x))
  }

  lemma CoveredAdd(bs: Blocks, p: nat, b: Block, x: nat)
    requires p !in bs
    ensures Covered(bs[p := b], x) <==> Covered(bs, x) || x in Span(p, b.order)
  {
    if Covered(bs, x) {
      var q :| Holds(bs, q, x);
      assert Holds(bs[p := b], q, x);
    }
    if x in Span(p, b.order) {
      assert Holds(bs[p := b], p, x);
    }
    if Covered(bs[p := b], x) {
      var q :| Holds(bs[p := b], q, x);
      assert q != p ==> Holds(bs, q, x);
    }
  }

  lemma CoveredRemove(bs: Blocks, maxOrder: nat, p: nat, x: nat)
    requires Tiled(bs, maxOrder) && p in bs
    ensures Covered(bs - {p}, x) <==> Covered(bs, x) && x !in Span(p, bs[p].order)
  {
    if Covered(bs - {p}, x) {
      var q :| Holds(bs - {p}, q, x);
      assert Holds(bs, q, x) && Apart(p, bs[p].order, q, bs[q].order);
    }
    if Covered(bs, x) && x !in Span(p, bs[p].order) {
      var q :| Holds(bs, q, x);
      assert Holds(bs - {p}, q, x);
    }
  }

  /** list_del of an entry. */
  function Without(s: seq<nat>, p: nat): seq<nat> {
    if s == [] then [] else if s[0] == p then s[1..] else [s[0]] + Without(s[1..], p)
  }

  lemma {:induction false} WithoutSpec(s: seq<nat>, p: nat)
    requires NoDup(s) && p in s
    ensures NoDup(Without(s, p)) && |Without(s, p)| == |s| - 1
    ensures forall q :: q in Without(s, p) <==> q in s && q != p
  {
    if s[0] != p {
      assert NoDup(s[1..]) && p in s[1..];
      WithoutSpec(s[1..], p);
      assert s[0] !in s[1..];
      assert forall q :: q in s <==> q == s[0] || q in s[1..];
      var r := Without(s[1..], p);
      assert Without(s, p) == [s[0]] + r;
      assert s[0] !in r;
    } else {
      assert forall q :: q in s <==> q == s[0] || q in s[1..];
      assert s[0] !in s[1..];
    }
  }

  lemma AddTiled(bs: Blocks, maxOrder: nat, p: nat, b: Block)
    requires Tiled(bs, maxOrder) && b.order < maxOrder && Aligned(p, b.order)
    requires forall x :: x in Span(p, b.order) ==> !Covered(bs, x)
    ensures p !in bs && Tiled(bs[p := b], maxOrder)
  {
    assert p in Span(p, b.order);
    assert p !in bs by {
      if p in bs {
        assert Holds(bs, p, p);
      }
    }
    forall q | q in bs ensures Apart(p, b.order, q, bs[q].order) {
      if !Apart(p, b.order, q, bs[q].order) {
        var x := if p < q then q else p;
        assert Holds(bs, q, x) && x in Span(p, b.order);
      }
    }
  }

  lemma AddPages(pages: seq<Page>, pages': seq<Page>, lo: nat, bs: Blocks, loose: set<nat>, p: nat, b: Block)
    requires PagesMatch(pages, lo, bs, loose) && p !in bs && lo <= p < lo + |pages|
    requires Span(p, b.order) <= loose
    requires forall x :: x in loose ==> !Covered(bs, x)
    requires |pages'| == |pages| && pages' == pages[p - lo := pages'[p - lo]]
    requires PageMatches(pages'[p - lo], bs[p := b], loose - Span(p, b.order), p)
    ensures PagesMatch(pages', lo, bs[p := b], loose - Span(p, b.order))
  {
    forall i | 0 <= i < |pages| ensures PageMatches(pages'[i], bs[p := b], loose - Span(p, b.order), lo + i) {
      CoveredAdd(bs, p, b, lo + i);
      assert PageMatches(pages[i], bs, loose, lo + i);
    }
  }

  lemma RemovePages(pages: seq<Page>, pages': seq<Page>, lo: nat, bs: Blocks, maxOrder: nat, loose: set<nat>, p: nat)
    requires Tiled(bs, maxOrder) && p in bs && lo <= p < lo + |pages| && PagesMatch(pages, lo, bs, loose)
    requires pages' == pages[p - lo := Plain]
    ensures PagesMatch(pages', lo, bs - {p}, loose + Span(p, bs[p].order))
  {
    forall i | 0 <= i < |pages'|
      ensures PageMatches(pages'[i], bs - {p}, loose + Span(p, bs[p].order), lo + i)
    {
      var x := lo + i;
      CoveredRemove(bs, maxOrder, p, x);
      assert PageMatches(pages[i], bs, loose, x);
      if x in Span(p, bs[p].order) {
        assert Holds(bs, p, x);
      }
      if x in bs && x != p {
        assert Apart(x, bs[x].order, p, bs[p].order);
      }
    }
  }

  lemma AddRange(bs: Blocks, loose: set<nat>, lo: nat, hi: nat, p: nat, b: Block)
    requires InRange(bs, loose, lo, hi) && p !in bs && Span(p, b.order) <= loose
    ensures InRange(bs[p := b], loose - Span(p, b.order), lo, hi)
  {
    assert p in Span(p, b.order) && p + Pow2(b.order) - 1 in Span(p, b.order);
    forall x | x in loose - Span(p, b.order) ensures !Covered(bs[p := b], x) {
      CoveredAdd(bs, p, b, x);
    }
  }

  lemma RemoveRange(bs: Blocks, maxOrder: nat, loose: set<nat>, lo: nat, hi: nat, p: nat)
    requires Tiled(bs, maxOrder) && InRange(bs, loose, lo, hi) && p in bs
    ensures InRange(bs - {p}, loose + Span(p, bs[p].order), lo, hi)
  {
    forall x | x in loose + Span(p, bs[p].order) ensures lo <= x < hi && !Covered(bs - {p}, x) {
      CoveredRemove(bs, maxOrder, p, x);
    }
  }

  lemma AddArea(areas: seq<Area>, bs: Blocks, p: nat, o: nat)
    requires AreasMatch(areas, bs) && p !in bs && o < |areas|
    ensures AreasMatch(areas[o := Area([p] + areas[o].list, areas[o].nrFree + 1)], bs[p := Block(o, false)])
  {
    var areas' := areas[o := Area([p] + areas[o].list, areas[o].nrFree + 1)];
    forall k | 0 <= k < |areas'| ensures AreaMatches(areas'[k], bs[p := Block(o, false)], k) {
      assert AreaMatches(areas[k], bs, k);
      assert !IsFree(bs, p, k);
      if k == o {
        var list, list' := areas[o].list, areas'[o].list;
        assert forall q :: q in list' <==> q == p || q in list;
        assert NoDup(list');
      }
    }
  }

  lemma RemoveArea(areas: seq<Area>, bs: Blocks, p: nat, o: nat)
    requires AreasMatch(areas, bs) && IsFree(bs, p, o) && o < |areas|
    ensures areas[o].nrFree > 0
    ensures AreasMatch(areas[o := Area(Without(areas[o].list, p), areas[o].nrFree - 1)], bs - {p})
  {
    assert AreaMatches(areas[o], bs, o);
    WithoutSpec(areas[o].list, p);
    var areas' := areas[o := Area(Without(areas[o].list, p), areas[o].nrFree - 1)];
    forall k | 0 <= k < |areas'| ensures AreaMatches(areas'[k], bs - {p}, k) {
      assert AreaMatches(areas[k], bs, k);
    }
  }

  /** Allocated blocks are on no list. */
  lemma UsedArea(areas: seq<Area>, bs: Blocks, cs: Blocks, p: nat)
    requires AreasMatch(areas, bs)
    requires forall q, o :: IsFree(bs, q, o) <==> IsFree(cs, q, o)
    ensures AreasMatch(areas, cs)
  {
    forall k | 0 <= k < |areas| ensures AreaMatches(areas[k], cs, k) {
      assert AreaMatches(areas[k], bs, k);
    }
  }

  ghost function UsedBlocks(bs: Blocks): map<nat, nat> {
    map p | p in bs && bs[p].used :: bs[p].order
  }

  lemma FreeAdd(bs: Blocks, p: nat, o: nat, x: nat)
    requires p !in bs
    ensures FreeAt(bs[p := Block(o, false)], x) <==> FreeAt(bs, x) || In(p, o, x)
  {
    if FreeAt(bs, x) {
      var q :| Holds(bs, q, x) && !bs[q].used;
      assert Holds(bs[p := Block(o, false)], q, x);
    }
    if In(p, o, x) {
      assert Holds(bs[p := Block(o, false)], p, x);
    }
    if FreeAt(bs[p := Block(o, false)], x) {
      var q :| Holds(bs[p := Block(o, false)], q, x) && !bs[p := Block(o, false)][q].used;
      assert q != p ==> Holds(bs, q, x);
    }
  }

  lemma FreeRemove(bs: Blocks, maxOrder: nat, p: nat, o: nat, x: nat)
    requires Tiled(bs, maxOrder) && IsFree(bs, p, o)
    ensures FreeAt(bs, x) <==> FreeAt(bs - {p}, x) || In(p, o, x)
    ensures !(FreeAt(bs - {p}, x) && In(p, o, x))
  {
    assert bs == (bs - {p})[p := Block(o, false)];
    FreeAdd(bs - {p}, p, o, x);
    if FreeAt(bs - {p}, x) {
      var q :| Holds(bs - {p}, q, x) && !bs[q].used;
      assert Apart(p, o, q, bs[q].order);
    }
  }

  /** Marking a block as allocated, or taking an allocated block out, does not concern the free pages. */
  lemma FreeUsed(bs: Blocks, p: nat, o: nat, x: nat)
    requires p !in bs
    ensures FreeAt(bs[p := Block(o, true)], x) <==> FreeAt(bs, x)
  {
    if FreeAt(bs, x) {
      var q :| Holds(bs, q, x) && !bs[q].used;
      assert Holds(bs[p := Block(o, true)], q, x);
    }
    if FreeAt(bs[p := Block(o, true)], x) {
      var q :| Holds(bs[p := Block(o, true)], q, x) && !bs[p := Block(o, true)][q].used;
      assert Holds(bs, q, x);
    }
  }

  lemma CoalescedRemove(bs: Blocks, maxOrder: nat, p: nat)
    requires Coalesced(bs, maxOrder)
    ensures Coalesced(bs - {p}, maxOrder)
  {
    forall q | q in bs - {p} && !(bs - {p})[q].used && (bs - {p})[q].order + 1 < maxOrder
      ensures !IsFree(bs - {p}, Flip(q, (bs - {p})[q].order), (bs - {p})[q].order)
    {
      assert !IsFree(bs, Flip(q, bs[q].order), bs[q].order);
    }
  }

  lemma CoalescedAdd(bs: Blocks, maxOrder: nat, p: nat, o: nat)
    requires Tiled(bs, maxOrder) && Coalesced(bs, maxOrder) && p !in bs && Aligned(p, o)
    requires o + 1 < maxOrder ==> !IsFree(bs, Flip(p, o), o)
    ensures Coalesced(bs[p := Block(o, false)], maxOrder)
  {
    var cs := bs[p := Block(o, false)];
    Halves(p, o);
    forall q | q in cs && !cs[q].used && cs[q].order + 1 < maxOrder
      ensures !IsFree(cs, Flip(q, cs[q].order), cs[q].order)
    {
      if q != p {
        Halves(q, bs[q].order);
        assert !IsFree(bs, Flip(q, bs[q].order), bs[q].order);
      }
    }
  }

  /** Two buddies side by side are one block of the next order. */
  lemma JoinSpans(p: nat, o: nat)
    requires Aligned(p, o)
    ensures Span(Min(p, Flip(p, o)), o + 1) == Span(p, o) + Span(Flip(p, o), o)
    ensures forall x :: In(Min(p, Flip(p, o)), o + 1, x) <==> In(p, o, x) || In(Flip(p, o), o, x)
    ensures Span(p, o) !! Span(Flip(p, o), o)
  {
    Halves(p, o);
  }

  lemma MergeStep(bs: Blocks, maxOrder: nat, loose: set<nat>, lo: nat, hi: nat, p: nat, o: nat)
    requires Tiled(bs, maxOrder) && Coalesced(bs, maxOrder) && InRange(bs, loose, lo, hi)
    requires Aligned(p, o) && IsFree(bs, Flip(p, o), o)
    ensures var b, q := Flip(p, o), Min(p, Flip(p, o));
            && Coalesced(bs - {b}, maxOrder) && UsedBlocks(bs - {b}) == UsedBlocks(bs)
            && Aligned(q, o + 1) && Span(q, o + 1) == Span(p, o) + Span(b, o) && loose !! Span(b, o)
    ensures forall x ::
              FreeAt(bs - {Flip(p, o)}, x) || In(Min(p, Flip(p, o)), o + 1, x) <==> FreeAt(bs, x) || In(p, o, x)
  {
    var b := Flip(p, o);
    Halves(p, o);
    JoinSpans(p, o);
    CoalescedRemove(bs, maxOrder, b);
    forall x ensures FreeAt(bs - {b}, x) || In(Min(p, b), o + 1, x) <==> FreeAt(bs, x) || In(p, o, x) {
      FreeRemove(bs, maxOrder, b, o, x);
    }
    forall x | x in Span(b, o) ensures x !in loose {
      assert Holds(bs, b, x);
    }
  }

  lemma MergeEnd(bs: Blocks, maxOrder: nat, p: nat, o: nat)
    requires Tiled(bs, maxOrder) && Coalesced(bs, maxOrder) && p !in bs && Aligned(p, o)
    requires o + 1 < maxOrder ==> !IsFree(bs, Flip(p, o), o)
    ensures Coalesced(bs[p := Block(o, false)], maxOrder) && UsedBlocks(bs[p := Block(o, false)]) == UsedBlocks(bs)
    ensures forall x :: FreeAt(bs[p := Block(o, false)], x) <==> FreeAt(bs, x) || In(p, o, x)
  {
    CoalescedAdd(bs, maxOrder, p, o);
    forall x ensures FreeAt(bs[p := Block(o, false)], x) <==> FreeAt(bs, x) || In(p, o, x) {
      FreeAdd(bs, p, o, x);
    }
  }

  ghost predicate HasRun(bs: Blocks, o: nat) {
    exists p :: Aligned(p, o) && RunFree(bs, p, o)
  }

  /** There is an aligned run of 2^k free pages exactly if there is a free block of order k or more. */
  lemma RunIffBlock(bs: Blocks, maxOrder: nat, k: nat)
    requires Tiled(bs, maxOrder) && Coalesced(bs, maxOrder) && k < maxOrder
    ensures HasRun(bs, k) <==> exists q :: q in bs && !bs[q].used && bs[q].order >= k
  {
    if HasRun(bs, k) {
      var p :| Aligned(p, k) && RunFree(bs, p, k);
      var q := RunInBlock(bs, maxOrder, p, k);
    }
    if q :| q in bs && !bs[q].used && bs[q].order >= k {
      BlockRun(bs, maxOrder, q, k);
    }
  }

  lemma BlockRun(bs: Blocks, maxOrder: nat, q: nat, k: nat)
    requires Tiled(bs, maxOrder) && q in bs && !bs[q].used && bs[q].order >= k
    ensures Aligned(q, k) && RunFree(bs, q, k)
  {
    AlignedMonotone(q, k, bs[q].order);
    Pow2Monotone(k, bs[q].order);
    forall x | In(q, k, x) ensures FreeAt(bs, x) {
      assert Holds(bs, q, x);
    }
  }

  /** Splitting: the upper half goes free while the lower half stays loose. */
  lemma SplitStep(bs: Blocks, maxOrder: nat, p: nat, o: nat, loose: set<nat>, lo: nat, hi: nat)
    requires Tiled(bs, maxOrder) && Coalesced(bs, maxOrder) && InRange(bs, loose, lo, hi)
    requires Aligned(p, o + 1) && Span(p, o + 1) <= loose
    ensures var h := p + Pow2(o);
            && Aligned(p, o) && Aligned(h, o) && Span(p, o + 1) == Span(p, o) + Span(h, o) && Span(p, o) !! Span(h, o)
            && Coalesced(bs[h := Block(o, false)], maxOrder) && UsedBlocks(bs[h := Block(o, false)]) == UsedBlocks(bs)
    ensures forall x ::
              FreeAt(bs[p + Pow2(o) := Block(o, false)], x) || In(p, o, x) <==> FreeAt(bs, x) || In(p, o + 1, x)
  {
    var h := p + Pow2(o);
    UpperHalf(p, o);
    JoinSpans(p, o);
    assert p in Span(p, o + 1) && h in Span(p, o + 1);
    assert p !in bs && h !in bs by {
      if p in bs { assert Holds(bs, p, p); }
      if h in bs { assert Holds(bs, h, h); }
    }
    MergeEnd(bs, maxOrder, h, o);
  }

  /** Marking the loose block as allocated. */
  lemma GiveUsed(bs: Blocks, maxOrder: nat, p: nat, o: nat)
    requires Coalesced(bs, maxOrder) && p !in bs
    ensures var cs := bs[p := Block(o, true)];
            && Coalesced(cs, maxOrder) && UsedBlocks(cs) == UsedBlocks(bs)[p := o]
            && (forall q, k :: IsFree(bs, q, k) <==> IsFree(cs, q, k))
            && (forall x :: FreeAt(cs, x) <==> FreeAt(bs, x))
  {
    var cs := bs[p := Block(o, true)];
    forall q | q in cs && !cs[q].used && cs[q].order + 1 < maxOrder
      ensures !IsFree(cs, Flip(q, cs[q].order), cs[q].order)
    {
      assert !IsFree(bs, Flip(q, bs[q].order), bs[q].order);
    }
    forall x ensures FreeAt(cs, x) <==> FreeAt(bs, x) {
      FreeUsed(bs, p, o, x);
    }
  }

  // ---------------------------------------------------------------------------------------------
  // Conservation
  // ---------------------------------------------------------------------------------------------

  ghost predicate UsedAt(used: map<nat, nat>, x: nat) {
    exists p :: p in used && In(p, used[p], x)
  }

  lemma OneHolder(bs: Blocks, maxOrder: nat, p: nat, q: nat, x: nat)
    requires Tiled(bs, maxOrder) && Holds(bs, p, x) && Holds(bs, q, x)
    ensures p == q
  {
  }

  /** A managed page is free or allocated, never both. */
  lemma FreeOrUsed(bs: Blocks, maxOrder: nat, x: nat)
    requires Tiled(bs, maxOrder)
    ensures Covered(bs, x) <==> FreeAt(bs, x) || UsedAt(UsedBlocks(bs), x)
    ensures !(FreeAt(bs, x) && UsedAt(UsedBlocks(bs), x))
  {
    if Covered(bs, x) {
      var p :| Holds(bs, p, x);
      assert bs[p].used ==> p in UsedBlocks(bs) && In(p, UsedBlocks(bs)[p], x);
    }
    if UsedAt(UsedBlocks(bs), x) {
      var p :| p in UsedBlocks(bs) && In(p, UsedBlocks(bs)[p], x);
      assert Holds(bs, p, x);
      if FreeAt(bs, x) {
        var q :| Holds(bs, q, x) && !bs[q].used;
        OneHolder(bs, maxOrder, p, q, x);
      }
    }
  }

  /** Moving one block from the free to the allocated pages, in either direction, keeps the managed pages. */
  lemma Conserved(bs: Blocks, cs: Blocks, maxOrder: nat, p: nat, o: nat)
    requires Tiled(bs, maxOrder) && Tiled(cs, maxOrder)
    requires p !in UsedBlocks(bs) && UsedBlocks(cs) == UsedBlocks(bs)[p := o]
    requires forall x :: FreeAt(bs, x) <==> FreeAt(cs, x) || In(p, o, x)
    ensures forall x :: Covered(bs, x) <==> Covered(cs, x)
  {
    forall x ensures Covered(bs, x) <==> Covered(cs, x) {
      FreeOrUsed(bs, maxOrder, x);
      FreeOrUsed(cs, maxOrder, x);
      UsedAdd(UsedBlocks(bs), p, o, x);
    }
  }

  lemma UsedAdd(used: map<nat, nat>, p: nat, o: nat, x: nat)
    requires p !in used
    ensures UsedAt(used[p := o], x) <==> UsedAt(used, x) || In(p, o, x)
  {
    var used' := used[p := o];
    if UsedAt(used, x) {
      var q :| q in used && In(q, used[q], x);
      assert q in used' && In(q, used'[q], x);
    }
    if In(p, o, x) {
      assert p in used' && In(p, used'[p], x);
    }
  }

  ghost function FreeSet(bs: Blocks, hi: nat): set<nat> {
    set x: nat | x < hi && FreeAt(bs, x)
  }

  ghost function CoveredSet(bs: Blocks, hi: nat): set<nat> {
    set x: nat | x < hi && Covered(bs, x)
  }

  ghost function UsedSet(bs: Blocks, hi: nat): set<nat> {
    set x: nat | x < hi && UsedAt(UsedBlocks(bs), x)
  }

  lemma FreePlusUsed(bs: Blocks, maxOrder: nat, hi: nat)
    requires Tiled(bs, maxOrder)
    ensures |FreeSet(bs, hi)| + |UsedSet(bs, hi)| == |CoveredSet(bs, hi)|
  {
    forall x: nat
      ensures Covered(bs, x) <==> FreeAt(bs, x) || UsedAt(UsedBlocks(bs), x)
      ensures !(FreeAt(bs, x) && UsedAt(UsedBlocks(bs), x))
    {
      FreeOrUsed(bs, maxOrder, x);
    }
    assert CoveredSet(bs, hi) == FreeSet(bs, hi) + UsedSet(bs, hi);
    assert FreeSet(bs, hi) !! UsedSet(bs, hi);
  }

  ghost function Interval(p: nat, n: nat): (s: set<nat>)
    ensures forall x :: x in s <==> p <= x < p + n
  {
    if n == 0 then {} else Interval(p, n - 1) + {p + n - 1}
  }

  lemma IntervalSize(p: nat, n: nat)
    ensures |Interval(p, n)| == n
  {
  }

  lemma SpanSize(p: nat, o: nat)
    ensures |Span(p, o)| == Pow2(o)
  {
    IntervalSize(p, Pow2(o));
    assert Span(p, o) == Interval(p, Pow2(o));
  }

  /** The pages of a list of blocks of order o. */
  ghost function ListPages(list: seq<nat>, o: nat): set<nat> {
    if list == [] then {} else ListPages(list[..|list| - 1], o) + Span(list[|list| - 1], o)
  }

  lemma {:induction false} ListPagesMember(list: seq<nat>, o: nat, x: nat)
    ensures x in ListPages(list, o) <==> exists i :: 0 <= i < |list| && In(list[i], o, x)
  {
    if list != [] {
      var rest := list[..|list| - 1];
      ListPagesMember(rest, o, x);
      if x in ListPages(rest, o) {
        var i :| 0 <= i < |rest| && In(rest[i], o, x);
        assert In(list[i], o, x);
      }
      if i :| 0 <= i < |list| && In(list[i], o, x) {
        assert i < |rest| ==> In(rest[i], o, x);
      }
    }
  }

  lemma ListPagesApart(bs: Blocks, maxOrder: nat, list: seq<nat>, o: nat, p: nat)
    requires Tiled(bs, maxOrder) && p !in list && IsFree(bs, p, o) && forall i :: 0 <= i < |list| ==>
               IsFree(bs, list[i], o)
    ensures ListPages(list, o) !! Span(p, o)
  {
    forall x | x in ListPages(list, o) && x in Span(p, o) ensures false {
      ListPagesMember(list, o, x);
      var i :| 0 <= i < |list| && In(list[i], o, x);
      OneHolder(bs, maxOrder, list[i], p, x);
    }
  }

  lemma Times(n: nat, c: nat)
    ensures (n + 1) * c == n * c + c
  {
  }

  lemma {:induction false} ListPagesSize(bs: Blocks, maxOrder: nat, list: seq<nat>, o: nat)
    requires Tiled(bs, maxOrder) && NoDup(list) && forall i :: 0 <= i < |list| ==> IsFree(bs, list[i], o)
    ensures |ListPages(list, o)| == |list| * Pow2(o)
  {
    hide Tiled;
    if list != [] {
      var rest, p := list[..|list| - 1], list[|list| - 1];
      ListPagesSize(bs, maxOrder, rest, o);
      SpanSize(p, o);
      ListPagesApart(bs, maxOrder, rest, o, p);
      Times(|rest|, Pow2(o));
    }
  }

  /** What snapshot() adds up. */
  function Total(areas: seq<Area>): nat {
    if areas == [] then 0 else Total(areas[..|areas| - 1]) + areas[|areas| - 1].nrFree * Pow2(|areas| - 1)
  }

  ghost predicate FreeBelow(bs: Blocks, k: nat, x: nat) {
    exists p :: Holds(bs, p, x) && !bs[p].used && bs[p].order < k
  }

  ghost function FreeSetBelow(bs: Blocks, k: nat, hi: nat): set<nat> {
    set x: nat | x < hi && FreeBelow(bs, k, x)
  }

  lemma {:induction false} TotalBelow(bs: Blocks, maxOrder: nat, hi: nat, areas: seq<Area>)
    requires Tiled(bs, maxOrder) && AreasMatch(areas, bs) && forall p :: p in bs ==> p + Pow2(bs[p].order) <= hi
    ensures Total(areas) == |FreeSetBelow(bs, |areas|, hi)|
  {
    hide Tiled;
    if areas == [] {
      assert FreeSetBelow(bs, 0, hi) == {};
    } else {
      var k, rest := |areas| - 1, areas[..|areas| - 1];
      TotalBelow(bs, maxOrder, hi, rest);
      assert AreaMatches(areas[k], bs, k);
      ListPagesSize(bs, maxOrder, areas[k].list, k);
      NextArea(bs, maxOrder, hi, areas[k].list, k);
    }
  }

  lemma NextArea(bs: Blocks, maxOrder: nat, hi: nat, list: seq<nat>, k: nat)
    requires Tiled(bs, maxOrder) && forall p :: p in bs ==> p + Pow2(bs[p].order) <= hi
    requires forall p :: p in list <==> IsFree(bs, p, k)
    ensures |FreeSetBelow(bs, k + 1, hi)| == |FreeSetBelow(bs, k, hi)| + |ListPages(list, k)|
  {
    var below, here, all := FreeSetBelow(bs, k, hi), ListPages(list, k), FreeSetBelow(bs, k + 1, hi);
    forall x: nat ensures x in all <==> x in below || x in here ensures !(x in below && x in here) {
      AreaPage(bs, maxOrder, hi, list, k, x);
    }
    assert all == below + here && below !! here;
  }

  lemma AreaPage(bs: Blocks, maxOrder: nat, hi: nat, list: seq<nat>, k: nat, x: nat)
    requires Tiled(bs, maxOrder) && forall p :: p in bs ==> p + Pow2(bs[p].order) <= hi
    requires forall p :: p in list <==> IsFree(bs, p, k)
    ensures x < hi && FreeBelow(bs, k + 1, x) <==> (x < hi && FreeBelow(bs, k, x)) || x in ListPages(list, k)
    ensures !(FreeBelow(bs, k, x) && x in ListPages(list, k))
  {
    ListPagesMember(list, k, x);
    if x in ListPages(list, k) {
      var i :| 0 <= i < |list| && In(list[i], k, x);
      assert list[i] in list && Holds(bs, list[i], x);
      if FreeBelow(bs, k, x) {
        var q :| Holds(bs, q, x) && !bs[q].used && bs[q].order < k;
        OneHolder(bs, maxOrder, list[i], q, x);
      }
    }
    if FreeBelow(bs, k, x) {
      var q :| Holds(bs, q, x) && !bs[q].used && bs[q].order < k;
      assert Holds(bs, q, x) && bs[q].order < k + 1;
    }
    if FreeBelow(bs, k + 1, x) && !FreeBelow(bs, k, x) {
      var q :| Holds(bs, q, x) && !bs[q].used && bs[q].order < k + 1;
      assert IsFree(bs, q, k) && q in list;
      var i :| 0 <= i < |list| && list[i] == q;
      assert In(list[i], k, x);
    }
  }

  /** The sum over the free lists is the number of free pages. */
  lemma TotalFree(bs: Blocks, maxOrder: nat, hi: nat, areas: seq<Area>)
    requires Tiled(bs, maxOrder) && AreasMatch(areas, bs) && |areas| == maxOrder
    requires forall p :: p in bs ==> p + Pow2(bs[p].order) <= hi
    ensures Total(areas) == |FreeSet(bs, hi)|
  {
    TotalBelow(bs, maxOrder, hi, areas);
    forall x: nat ensures FreeBelow(bs, maxOrder, x) <==> FreeAt(bs, x) {
      if FreeAt(bs, x) {
        var p :| Holds(bs, p, x) && !bs[p].used;
        assert bs[p].order < maxOrder;
      }
    }
    assert FreeSetBelow(bs, maxOrder, hi) == FreeSet(bs, hi);
  }

  lemma SameCoveredSet(bs: Blocks, cs: Blocks, hi: nat)
    requires forall x :: Covered(bs, x) <==> Covered(cs, x)
    ensures CoveredSet(bs, hi) == CoveredSet(cs, hi)
  {
  }

  lemma RunPages(bs: Blocks, p: nat, o: nat)
    requires RunFree(bs, p, o)
    ensures forall x :: In(p, o, x) ==> FreeAt(bs, x)
  {
  }

  /** Allocating a block and freeing it again restores the very same free blocks. */
  lemma AllocThenFree(bs: Blocks, cs: Blocks, ds: Blocks, maxOrder: nat, p: nat, o: nat)
    requires Tiled(bs, maxOrder) && Coalesced(bs, maxOrder) && Tiled(ds, maxOrder) && Coalesced(ds, maxOrder)
    requires RunFree(bs, p, o)
    requires forall x :: FreeAt(cs, x) <==> FreeAt(bs, x) && !In(p, o, x)
    requires forall x :: FreeAt(ds, x) <==> FreeAt(cs, x) || In(p, o, x)
    ensures FreeBlocks(ds) == FreeBlocks(bs)
  {
    forall x ensures FreeAt(ds, x) <==> FreeAt(bs, x) {
      RunPages(bs, p, o);
    }
    Canonical(bs, ds, maxOrder);
  }

  // ---------------------------------------------------------------------------------------------
  // Boot: releasing ranges
  // ---------------------------------------------------------------------------------------------

  /** The choice of release_range: the largest aligned block that fits before end. */
  ghost predicate Greedy(p: nat, o: nat, end: nat, maxOrder: nat) {
    o + 1 < maxOrder ==> !Aligned(p, o + 1) || p + Pow2(o + 1) > end
  }

  /** While [start, end) is released up to s: old blocks keep a gap, new ones were chosen greedily. */
  ghost predicate Releasing(bs: Blocks, maxOrder: nat, start: nat, s: nat, end: nat) {
    forall p :: p in bs && !bs[p].used ==>
      || p + Pow2(bs[p].order) < start
      || end < p
      || (start <= p && p + Pow2(bs[p].order) <= s && Greedy(p, bs[p].order, end, maxOrder))
  }

  /** A greedy choice never leaves two free buddies. */
  lemma GreedyStep(bs: Blocks, maxOrder: nat, start: nat, s: nat, end: nat, o: nat)
    requires Tiled(bs, maxOrder) && Coalesced(bs, maxOrder) && Releasing(bs, maxOrder, start, s, end)
    requires start <= s && o < maxOrder && Aligned(s, o) && s + Pow2(o) <= end && Greedy(s, o, end, maxOrder)
    requires s !in bs
    ensures Coalesced(bs[s := Block(o, false)], maxOrder)
    ensures Releasing(bs[s := Block(o, false)], maxOrder, start, s + Pow2(o), end)
  {
    Halves(s, o);
    CoalescedAdd(bs, maxOrder, s, o);
  }

  lemma SameUsed(bs: Blocks, p: nat, o: nat)
    requires p !in bs
    ensures UsedBlocks(bs[p := Block(o, false)]) == UsedBlocks(bs)
  {
  }

  lemma Cleared(was: seq<Page>, now: seq<Page>, lo: nat, bs: Blocks, start: nat, end: nat)
    requires PagesMatch(was, lo, bs, {}) && |now| == |was| && lo <= start <= end <= lo + |was|
    requires forall i :: 0 <= i < |was| && start <= lo + i < end ==> was[i] == Pristine && now[i] == Plain
    requires forall i :: 0 <= i < |was| && !(start <= lo + i < end) ==> now[i] == was[i]
    ensures PagesMatch(now, lo, bs, Interval(start, end - start))
    ensures forall x :: x in Interval(start, end - start) ==> !Covered(bs, x)
  {
    forall i | 0 <= i < |now| ensures PageMatches(now[i], bs, Interval(start, end - start), lo + i) {
      assert PageMatches(was[i], bs, {}, lo + i);
    }
    forall x | x in Interval(start, end - start) ensures !Covered(bs, x) {
      assert PageMatches(was[x - lo], bs, {}, x);
    }
  }

  lemma GrownAt(bs: Blocks, cs: Blocks, maxOrder: nat, start: nat, end: nat, x: nat)
    requires Tiled(bs, maxOrder) && Tiled(cs, maxOrder) && UsedBlocks(bs) == UsedBlocks(cs)
    requires FreeAt(cs, x) <==> FreeAt(bs, x) || start <= x < end
    ensures Covered(cs, x) <==> Covered(bs, x) || start <= x < end
  {
    FreeOrUsed(bs, maxOrder, x);
    FreeOrUsed(cs, maxOrder, x);
  }

  lemma GrownSet(bs: Blocks, cs: Blocks, start: nat, end: nat, hi: nat)
    requires start <= end <= hi && forall x: nat :: Covered(cs, x) <==> Covered(bs, x) || start <= x < end
    ensures CoveredSet(cs, hi) == CoveredSet(bs, hi) + Interval(start, end - start)
  {
  }

  /** Releasing a range manages that many more pages. */
  lemma Grown(bs: Blocks, cs: Blocks, maxOrder: nat, start: nat, end: nat, hi: nat)
    requires Tiled(bs, maxOrder) && Tiled(cs, maxOrder) && UsedBlocks(bs) == UsedBlocks(cs) && start <= end <= hi
    requires forall x: nat :: FreeAt(cs, x) <==> FreeAt(bs, x) || start <= x < end
    requires forall x :: x in Interval(start, end - start) ==> !Covered(bs, x)
    ensures |CoveredSet(cs, hi)| == |CoveredSet(bs, hi)| + (end - start)
  {
    hide Tiled, FreeAt, UsedBlocks, Covered;
    forall x: nat ensures Covered(cs, x) <==> Covered(bs, x) || start <= x < end {
      GrownAt(bs, cs, maxOrder, start, end, x);
    }
    GrownSet(bs, cs, start, end, hi);
    IntervalSize(start, end - start);
    assert CoveredSet(bs, hi) !! Interval(start, end - start);
  }

  /** The pages a reservation touches: the first, and the one behind the last. */
  function First(r: Memblock.Region): nat {
    r.base / Memblock.PAGE_SIZE
  }

  function Last(r: Memblock.Region): nat {
    r.End() / Memblock.PAGE_SIZE + if r.End() % Memblock.PAGE_SIZE == 0 then 0 else 1
  }

  ghost predicate Touches(r: Memblock.Region, x: nat) {
    r.base < (x + 1) * Memblock.PAGE_SIZE && x * Memblock.PAGE_SIZE < r.End()
  }

  ghost predicate Touched(rs: seq<Memblock.Region>, x: nat) {
    exists i :: 0 <= i < |rs| && Touches(rs[i], x)
  }

  lemma EmptyBlocks(bs: Blocks)
    requires bs == map[]
    ensures UsedBlocks(bs) == map[] && forall x: nat :: !FreeAt(bs, x)
  {
  }

  lemma GapKept(bs: Blocks, maxOrder: nat, start: nat, end: nat)
    requires forall p :: p in bs && !bs[p].used ==> p + Pow2(bs[p].order) < start
    ensures Releasing(bs, maxOrder, start, start, end)
  {
  }

  /** From start on, the next reservation says which pages are touched. */
  lemma TouchedRange(rs: seq<Memblock.Region>, i: nat, start: nat, hi: nat)
    requires Memblock.Sorted(rs) && Memblock.WellFormed(rs) && i <= |rs| && start <= hi
    requires start == hi || forall j :: 0 <= j < i ==> Last(rs[j]) <= start
    ensures i == |rs| ==> forall x: nat :: start <= x < hi ==> !Touched(rs, x)
    ensures i < |rs| ==>
              && First(rs[i]) < Last(rs[i])
              && (forall x: nat :: start <= x < First(rs[i]) && x < hi ==> !Touched(rs, x))
              && (forall x: nat :: First(rs[i]) <= x < Last(rs[i]) ==> Touched(rs, x))
  {
    forall x: nat | start <= x < hi && (i < |rs| ==> x < First(rs[i])) ensures !Touched(rs, x) {
      forall j | 0 <= j < |rs| ensures !Touches(rs[j], x) {
        TouchesSpan(rs[j], x);
        if j >= i {
          FirstMonotone(rs[i], rs[j]);
        }
      }
    }
    if i < |rs| {
      TouchesSpan(rs[i], 0);
      forall x: nat | First(rs[i]) <= x < Last(rs[i]) ensures Touched(rs, x) {
        TouchesSpan(rs[i], x);
      }
    }
  }

  lemma FirstMonotone(a: Memblock.Region, b: Memblock.Region)
    requires a.base <= b.base
    ensures First(a) <= First(b)
  {
  }

  lemma TouchesSpan(r: Memblock.Region, x: nat)
    ensures Touches(r, x) <==> First(r) <= x < Last(r)
    ensures r.size > 0 ==> First(r) < Last(r)
  {
  }

  class Zone {
    const lo: nat
    const hi: nat
    const maxOrder: nat
    const pages: array<Page>
    const areas: array<Area>
    var managed: nat
    ghost var blocks: Blocks
    ghost var loose: set<nat>

    /** page_init and the empty free lists. */
    constructor (lo: nat, hi: nat, maxOrder: nat)
      requires lo <= hi
      ensures Valid() && blocks == map[] && this.lo == lo && this.hi == hi && this.maxOrder == maxOrder
      ensures fresh(pages) && fresh(areas) && forall i :: 0 <= i < pages.Length ==> pages[i] == Pristine
    {
      this.lo, this.hi, this.maxOrder := lo, hi, maxOrder;
      pages := new Page[hi - lo](_ => Pristine);
      areas := new Area[maxOrder](_ => Area([], 0));
      managed := 0;
      blocks, loose := map[], {};
      new;
      assert CoveredSet(blocks, hi) == {};
    }

    ghost predicate Inv()
      reads this, pages, areas
    {
      && lo <= hi && pages.Length == hi - lo && areas.Length == maxOrder
      && Tiled(blocks, maxOrder) && InRange(blocks, loose, lo, hi)
      && PagesMatch(pages[..], lo, blocks, loose)
      && AreasMatch(areas[..], blocks)
    }

    ghost predicate Valid()
      reads this, pages, areas
    {
      Inv() && loose == {} && Coalesced(blocks, maxOrder) && managed == |CoveredSet(blocks, hi)|
    }

    /** add_block. */
    method AddBlock(p: nat, o: nat)
      requires Inv() && o < maxOrder && Aligned(p, o) && Span(p, o) <= loose
      modifies `blocks, `loose, pages, areas
      ensures Inv() && blocks == old(blocks)[p := Block(o, false)] && loose == old(loose) - Span(p, o)
      ensures lo <= p < hi && pages[..] == old(pages[..])[p - lo := pages[p - lo]]
    {
      hide Tiled, InRange, AreasMatch;
      LooseBlock(blocks, maxOrder, loose, lo, hi, p, o);
      AddTiled(blocks, maxOrder, p, Block(o, false));
      AddRange(blocks, loose, lo, hi, p, Block(o, false));
      AddArea(areas[..], blocks, p, o);
      ghost var was := pages[..];
      assert PageMatches(was[p - lo], blocks, loose, p);
      pages[p - lo] := pages[p - lo].(flags := pages[p - lo].flags + {InBuddy}, order := o);
      areas[o] := Area([p] + areas[o].list, areas[o].nrFree + 1);
      AddPages(was, pages[..], lo, blocks, loose, p, Block(o, false));
      blocks, loose := blocks[p := Block(o, false)], loose - Span(p, o);
    }

    /** del_block. */
    method DelBlock(p: nat)
      requires Inv() && p in blocks && !blocks[p].used
      modifies `blocks, `loose, pages, areas
      ensures Inv() && blocks == old(blocks) - {p} && loose == old(loose) + Span(p, old(blocks)[p].order)
    {
      hide AreasMatch;
      ghost var o := blocks[p].order;
      RemoveRange(blocks, maxOrder, loose, lo, hi, p);
      RemoveArea(areas[..], blocks, p, o);
      ghost var was := pages[..];
      assert PageMatches(was[p - lo], blocks, loose, p);
      var page := pages[p - lo];
      areas[page.order] := Area(Without(areas[page.order].list, p), areas[page.order].nrFree - 1);
      pages[p - lo] := page.(flags := page.flags - {InBuddy}, order := ORDER_NONE);
      assert {InBuddy} - {InBuddy} == {};
      RemovePages(was, pages[..], lo, blocks, maxOrder, loose, p);
      blocks, loose := blocks - {p}, loose + Span(p, o);
    }

    /** Is there a free block of order o at pfn b? The page may lie outside the zone. */
    method IsBuddy(b: nat, o: nat) returns (r: bool)
      requires Inv()
      ensures r <==> IsFree(blocks, b, o)
    {
      if b < lo || b >= hi {
        return false;
      }
      assert PageMatches(pages[..][b - lo], blocks, loose, b);
      var page := pages[b - lo];
      return InBuddy in page.flags && page.order == o;
    }

    /** merge_block: free the loose block, joining it with its buddy as long as that is free too. */
    method MergeBlock(pfn: nat, order: nat)
      requires Inv() && Coalesced(blocks, maxOrder) && order < maxOrder && Aligned(pfn, order)
      requires Span(pfn, order) <= loose
      modifies `blocks, `loose, pages, areas
      ensures Inv() && Coalesced(blocks, maxOrder) && loose == old(loose) - Span(pfn, order)
      ensures UsedBlocks(blocks) == old(UsedBlocks(blocks))
      ensures forall x :: FreeAt(blocks, x) <==> old(FreeAt(blocks, x)) || In(pfn, order, x)
    {
      hide Tiled, Coalesced, InRange, PagesMatch, AreasMatch;
      var p, o := pfn, order;
      ghost var rest := loose - Span(pfn, order);
      while o + 1 < maxOrder
        invariant Inv() && Coalesced(blocks, maxOrder)
        invariant o < maxOrder && Aligned(p, o) && loose == rest + Span(p, o) && rest !! Span(p, o)
        invariant UsedBlocks(blocks) == old(UsedBlocks(blocks))
        invariant forall x :: FreeAt(blocks, x) || In(p, o, x) <==> old(FreeAt(blocks, x)) || In(pfn, order, x)
      {
        var buddy := Flip(p, o);
        var free := IsBuddy(buddy, o);
        if !free {
          break;
        }
        MergeStep(blocks, maxOrder, loose, lo, hi, p, o);
        DelBlock(buddy);
        p := Min(p, buddy);
        o := o + 1;
      }
      LooseBlock(blocks, maxOrder, loose, lo, hi, p, o);
      MergeEnd(blocks, maxOrder, p, o);
      AddBlock(p, o);
    }

    /** The first free list of at least the given order that is not empty. */
    method FindArea(order: nat) returns (s: nat)
      requires Inv() && order < maxOrder
      ensures order <= s <= maxOrder
      ensures s < maxOrder ==> areas[s].list != [] && IsFree(blocks, areas[s].list[0], s)
      ensures s == maxOrder ==> !exists q :: q in blocks && !blocks[q].used && blocks[q].order >= order
    {
      s := order;
      while s < maxOrder && areas[s].list == []
        invariant order <= s <= maxOrder
        invariant forall q :: q in blocks && !blocks[q].used && blocks[q].order >= order ==> blocks[q].order >= s
      {
        assert AreaMatches(areas[..][s], blocks, s);
        forall q | q in blocks && !blocks[q].used && blocks[q].order >= order ensures blocks[q].order >= s + 1 {
          assert !IsFree(blocks, q, s);
        }
        s := s + 1;
      }
      if s < maxOrder {
        assert AreaMatches(areas[..][s], blocks, s);
      }
    }

    /** The inner loop of alloc_pages: cut the loose block of order s down to the wanted order. */
    method Split(p: nat, s: nat, order: nat)
      requires Inv() && Coalesced(blocks, maxOrder) && order <= s < maxOrder && Aligned(p, s) && loose == Span(p, s)
      modifies `blocks, `loose, pages, areas
      ensures Inv() && Coalesced(blocks, maxOrder) && Aligned(p, order) && loose == Span(p, order)
      ensures UsedBlocks(blocks) == old(UsedBlocks(blocks))
      ensures forall x :: FreeAt(blocks, x) || In(p, order, x) <==> old(FreeAt(blocks, x)) || In(p, s, x)
    {
      hide Tiled, Coalesced, InRange, PagesMatch, AreasMatch;
      var k := s;
      while k > order
        invariant Inv() && Coalesced(blocks, maxOrder) && order <= k <= s && Aligned(p, k) && loose == Span(p, k)
        invariant UsedBlocks(blocks) == old(UsedBlocks(blocks))
        invariant forall x :: FreeAt(blocks, x) || In(p, k, x) <==> old(FreeAt(blocks, x)) || In(p, s, x)
      {
        k := k - 1;
        SplitStep(blocks, maxOrder, p, k, loose, lo, hi);
        AddBlock(p + Pow2(k), k);
      }
    }

    /** The end of alloc_pages: the head page of the loose block gets its order and one reference. */
    method Give(p: nat, order: nat)
      requires Inv() && Coalesced(blocks, maxOrder) && order < maxOrder && Aligned(p, order) && loose == Span(p, order)
      modifies `blocks, `loose, pages
      ensures Inv() && Coalesced(blocks, maxOrder) && loose == {}
      ensures p !in old(UsedBlocks(blocks)) && UsedBlocks(blocks) == old(UsedBlocks(blocks))[p := order]
      ensures forall x :: FreeAt(blocks, x) <==> old(FreeAt(blocks, x))
      ensures lo <= p < hi && pages[p - lo] == Page({Allocated}, order, 1)
    {
      hide Tiled, Coalesced, InRange, AreasMatch;
      LooseBlock(blocks, maxOrder, loose, lo, hi, p, order);
      GiveUsed(blocks, maxOrder, p, order);
      AddTiled(blocks, maxOrder, p, Block(order, true));
      AddRange(blocks, loose, lo, hi, p, Block(order, true));
      UsedArea(areas[..], blocks, blocks[p := Block(order, true)], p);
      ghost var was := pages[..];
      assert PageMatches(was[p - lo], blocks, loose, p);
      pages[p - lo] := Page(pages[p - lo].flags + {Allocated}, order, 1);
      AddPages(was, pages[..], lo, blocks, loose, p, Block(order, true));
      blocks, loose := blocks[p := Block(order, true)], loose - Span(p, order);
    }

    /** alloc_pages: it fails only if there is no aligned run of free pages, and otherwise takes exactly one. */
    method AllocPages(order: int) returns (r: Option<nat>)
      requires Valid()
      modifies `blocks, `loose, pages, areas
      ensures Valid() && forall x :: Covered(blocks, x) <==> old(Covered(blocks, x))
      ensures r.None? <==> order < 0 || order >= maxOrder || !old(HasRun(blocks, order))
      ensures r.None? ==> blocks == old(blocks) && pages[..] == old(pages[..])
      ensures r.Some? ==>
                && Aligned(r.value, order) && old(RunFree(blocks, r.value, order))
                && r.value !in old(UsedBlocks(blocks))
                && UsedBlocks(blocks) == old(UsedBlocks(blocks))[r.value := order]
                && (forall x :: FreeAt(blocks, x) <==> old(FreeAt(blocks, x)) && !In(r.value, order, x))
                && lo <= r.value < hi && pages[r.value - lo] == Page({Allocated}, order, 1)
    {
      hide Tiled, Coalesced, InRange, PagesMatch, AreasMatch;
      if order < 0 || order >= maxOrder {
        return None;
      }
      RunIffBlock(blocks, maxOrder, order);
      var s := FindArea(order);
      if s == maxOrder {
        return None;
      }
      var p := areas[s].list[0];
      TakeBlock(blocks, maxOrder, p, s, order);
      DelBlock(p);
      Split(p, s, order);
      LooseFree(blocks, loose, lo, hi, p, order);
      Give(p, order);
      RunPages(old(blocks), p, order);
      Conserved(old(blocks), blocks, maxOrder, p, order);
      SameCoveredSet(old(blocks), blocks, hi);
      return Some(p);
    }

    /** allocated_block: is this page the head of an allocated block of that order, with nothing else on it? */
    method AllocatedBlock(page: int, order: int) returns (r: bool)
      requires Valid()
      ensures r <==> page >= 0 && page in UsedBlocks(blocks) && UsedBlocks(blocks)[page] == order
                     && pages[page - lo].flags == {Allocated}
    {
      if order < 0 || order >= maxOrder {
        return false;
      }
      if page < lo || page >= hi {
        return false;
      }
      assert PageMatches(pages[..][page - lo], blocks, loose, page);
      var head := pages[page - lo];
      if !Aligned(page, order) || Pow2(order) > hi - page || head.flags != {Allocated} || head.order != order
         || head.refs == 0 {
        assert page in blocks && blocks[page].used ==> Aligned(page, blocks[page].order);
        return false;
      }
      assert page in blocks && blocks[page] == Block(order, true);
      for i := 1 to Pow2(order)
      {
        assert Holds(blocks, page, page + i);
        assert page + i !in blocks;
        assert PageMatches(pages[..][page + i - lo], blocks, loose, page + i);
        var inner := pages[page + i - lo];
        if inner.flags != {} || inner.order != ORDER_NONE || inner.refs != 0 {
          return false;
        }
      }
      return true;
    }

    /** free_pages: drop one reference; the last one returns the block to the free pages. */
    method FreePages(page: int, order: int)
      requires Valid()
      modifies `blocks, `loose, pages, areas
      ensures Valid() && forall x :: Covered(blocks, x) <==> old(Covered(blocks, x))
      ensures var ok := old(page >= 0 && page in UsedBlocks(blocks) && UsedBlocks(blocks)[page] == order
                            && pages[page - lo].flags == {Allocated});
              && (!ok ==> blocks == old(blocks) && pages[..] == old(pages[..]))
              && (ok && old(pages[page - lo].refs) > 1 ==>
                    && blocks == old(blocks)
                    && pages[..] ==
                       old(pages[..])[page - lo := old(pages[page - lo]).(refs := old(pages[page - lo].refs) - 1)])
              && (ok && old(pages[page - lo].refs) == 1 ==>
                    && UsedBlocks(blocks) == old(UsedBlocks(blocks)) - {page}
                    && (forall x :: FreeAt(blocks, x) <==> old(FreeAt(blocks, x)) || In(page, order, x)))
    {
      hide Tiled, Coalesced, InRange, PagesMatch, AreasMatch, CoveredSet;
      var ok := AllocatedBlock(page, order);
      if !ok {
        return;
      }
      UsedHead(page);
      var head := pages[page - lo];
      if head.refs > 1 {
        DropReference(page);
      } else {
        TakeAllocated(page);
        MergeBlock(page, order);
        assert old(UsedBlocks(blocks)) == UsedBlocks(blocks)[page := order];
        Conserved(blocks, old(blocks), maxOrder, page, order);
        SameCoveredSet(old(blocks), blocks, hi);
      }
    }

    lemma UsedHead(p: nat)
      requires Valid() && p in UsedBlocks(blocks)
      ensures lo <= p < hi && pages[p - lo].refs > 0 && UsedBlocks(blocks)[p] < maxOrder
    {
      assert PageMatches(pages[..][p - lo], blocks, loose, p);
    }

    method DropReference(p: nat)
      requires Valid() && p in blocks && blocks[p].used && pages[p - lo].refs > 1
      modifies pages
      ensures Valid() && pages[..] == old(pages[..])[p - lo := old(pages[p - lo]).(refs := old(pages[p - lo].refs) - 1)]
    {
      hide Tiled, Coalesced, AreasMatch;
      ghost var was := pages[..];
      assert PageMatches(was[p - lo], blocks, loose, p);
      pages[p - lo] := pages[p - lo].(refs := pages[p - lo].refs - 1);
      forall i | 0 <= i < |pages[..]| ensures PageMatches(pages[..][i], blocks, loose, lo + i) {
        assert PageMatches(was[i], blocks, loose, lo + i);
      }
    }

    /** The inner loop of release_range. */
    method LargestOrder(s: nat, end: nat) returns (o: nat)
      requires s < end && maxOrder > 0
      ensures o < maxOrder && Aligned(s, o) && s + Pow2(o) <= end && Greedy(s, o, end, maxOrder)
    {
      o := maxOrder - 1;
      while !Aligned(s, o) || Pow2(o) > end - s
        invariant o < maxOrder && Greedy(s, o, end, maxOrder)
        decreases o
      {
        o := o - 1;
      }
    }

    /** The first loop of release_range. */
    method ClearReserved(start: nat, end: nat)
      requires Inv() && loose == {} && lo <= start <= end <= hi
      requires forall i :: 0 <= i < pages.Length && start <= lo + i < end ==> pages[i] == Pristine
      modifies `loose, pages
      ensures Inv() && loose == Interval(start, end - start)
      ensures forall x :: x in Interval(start, end - start) ==> !Covered(blocks, x)
      ensures forall i :: 0 <= i < pages.Length && !(start <= lo + i < end) ==> pages[i] == old(pages[i])
    {
      hide Tiled, AreasMatch;
      ghost var was := pages[..];
      for pfn := start to end
        invariant forall i :: 0 <= i < pages.Length && !(start <= lo + i < pfn) ==> pages[i] == was[i]
        invariant forall i :: 0 <= i < pages.Length && start <= lo + i < pfn ==> pages[i] == Plain
      {
        assert was[pfn - lo] == Pristine;
        pages[pfn - lo] := pages[pfn - lo].(flags := pages[pfn - lo].flags - {Reserved});
        assert {Reserved} - {Reserved} == {};
      }
      loose := Interval(start, end - start);
      Cleared(was, pages[..], lo, blocks, start, end);
    }

    /** release_range: the pages of the range, and no others, become free; the allocator stays coalesced. */
    method ReleaseRange(start: nat, end: nat)
      requires Valid() && maxOrder > 0 && lo <= start <= end <= hi
      requires forall i :: 0 <= i < pages.Length && start <= lo + i < end ==> pages[i] == Pristine
      requires Releasing(blocks, maxOrder, start, start, end)
      modifies this, pages, areas
      ensures Valid() && UsedBlocks(blocks) == old(UsedBlocks(blocks))
      ensures forall x: nat :: FreeAt(blocks, x) <==> old(FreeAt(blocks, x)) || start <= x < end
      ensures forall i :: 0 <= i < pages.Length && !(start <= lo + i < end) ==> pages[i] == old(pages[i])
      ensures forall p :: p in blocks && !blocks[p].used ==>
                (p in old(blocks) && blocks[p] == old(blocks)[p]) || (start <= p && p + Pow2(blocks[p].order) <= end)
    {
      hide Tiled, InRange, PagesMatch, AreasMatch, Coalesced, CoveredSet, FreeAt, Covered, Releasing, Greedy, Pow2,
        UsedBlocks;
      ClearReserved(start, end);
      ghost var was := pages[..];
      managed := managed + (end - start);
      var s := start;
      while s < end
        invariant start <= s <= end && Inv() && Coalesced(blocks, maxOrder) && loose == Interval(s, end - s)
        invariant Releasing(blocks, maxOrder, start, s, end) && managed == old(managed) + (end - start)
        invariant UsedBlocks(blocks) == old(UsedBlocks(blocks))
        invariant forall x: nat :: FreeAt(blocks, x) <==> old(FreeAt(blocks, x)) || start <= x < s
        invariant forall i :: 0 <= i < pages.Length && !(start <= lo + i < end) ==> pages[i] == was[i]
        invariant forall p :: p in blocks && !blocks[p].used ==>
                    (p in old(blocks) && blocks[p] == old(blocks)[p]) || (start <= p && p + Pow2(blocks[p].order) <= s)
      {
        var o := LargestOrder(s, end);
        LooseBlock(blocks, maxOrder, loose, lo, hi, s, o);
        GreedyStep(blocks, maxOrder, start, s, end, o);
        SameUsed(blocks, s, o);
        ghost var bs := blocks;
        AddBlock(s, o);
        forall x: nat ensures FreeAt(blocks, x) <==> FreeAt(bs, x) || s <= x < s + Pow2(o) {
          FreeAdd(bs, s, o, x);
        }
        s := s + Pow2(o);
      }
      assert Interval(end, 0) == {};
      Grown(old(blocks), blocks, maxOrder, start, end, hi);
    }

    /** All pages below start are dealt with: free if no reservation touches them. */
    ghost predicate Booting(reserved: seq<Memblock.Region>, start: nat)
      reads this, pages, areas
    {
      && Valid() && UsedBlocks(blocks) == map[]
      && (forall x: nat :: FreeAt(blocks, x) <==> lo <= x < start && !Touched(reserved, x))
      && (forall p :: p in blocks && !blocks[p].used ==> p + Pow2(blocks[p].order) < start)
      && (forall k :: 0 <= k < pages.Length && start <= lo + k && !Touched(reserved, lo + k) ==> pages[k] == Pristine)
    }

    /** Release [start, first) and step over the touched pages [first, next). */
    method ReleaseUpTo(reserved: seq<Memblock.Region>, start: nat, first: nat, next: nat)
      requires Booting(reserved, start) && maxOrder > 0 && lo <= start < first < next <= hi
      requires forall x: nat :: start <= x < first ==> !Touched(reserved, x)
      requires forall x: nat :: first <= x < next ==> Touched(reserved, x)
      modifies this, pages, areas
      ensures Booting(reserved, next)
    {
      hide Valid, FreeAt, Touched, UsedBlocks, Releasing, Pow2;
      GapKept(blocks, maxOrder, start, first);
      ReleaseRange(start, first);
    }

    lemma StepOver(reserved: seq<Memblock.Region>, start: nat, next: nat)
      requires Booting(reserved, start) && start <= next
      requires forall x: nat :: start <= x < next ==> Touched(reserved, x)
      ensures Booting(reserved, next)
    {
      hide Valid, Touched, UsedBlocks, Pow2;
    }

    /** buddy_init: exactly the pages that no reservation touches become free. The reservations are sorted by
        base, but may overlap and be unaligned. */
    method Init(reserved: seq<Memblock.Region>)
      requires Valid() && maxOrder > 0 && blocks == map[]
      requires Memblock.Sorted(reserved) && Memblock.WellFormed(reserved)
      requires forall i :: 0 <= i < pages.Length && !Touched(reserved, lo + i) ==> pages[i] == Pristine
      modifies this, pages, areas
      ensures Valid() && UsedBlocks(blocks) == map[]
      ensures forall x: nat :: FreeAt(blocks, x) <==> lo <= x < hi && !Touched(reserved, x)
    {
      EmptyBlocks(blocks);
      assert Booting(reserved, lo) && lo <= hi;
      var start := InitRegions(reserved);
      GapKept(blocks, maxOrder, start, hi);
      ReleaseRange(start, hi);
    }

    /** The loop of buddy_init over the reservations. */
    method InitRegions(reserved: seq<Memblock.Region>) returns (start: nat)
      requires Booting(reserved, lo) && lo <= hi && maxOrder > 0
      requires Memblock.Sorted(reserved) && Memblock.WellFormed(reserved)
      modifies this, pages, areas
      ensures Booting(reserved, start) && lo <= start <= hi
      ensures forall x: nat :: start <= x < hi ==> !Touched(reserved, x)
    {
      hide Booting, Touched, First, Last, Memblock.Sorted, Memblock.WellFormed;
      start := lo;
      var i := 0;
      while i < |reserved|
        invariant 0 <= i <= |reserved| && lo <= start <= hi && Booting(reserved, start)
        invariant start == hi || forall j :: 0 <= j < i ==> Last(reserved[j]) <= start
      {
        var region := reserved[i];
        TouchedRange(reserved, i, start, hi);
        var first, last := First(region), Last(region);
        if last > start {
          if first >= hi {
            break;
          }
          var next := if last < hi then last else hi;
          if start < first {
            ReleaseUpTo(reserved, start, first, next);
          } else {
            StepOver(reserved, start, next);
          }
          start := next;
        }
        i := i + 1;
      }
      TouchedRange(reserved, i, start, hi);
    }

    /** snapshot: the counts per order, and their sum, which is the number of free pages. */
    method Snapshot() returns (counts: seq<nat>, total: nat)
      requires Valid()
      ensures |counts| == maxOrder && forall o :: 0 <= o < maxOrder ==> counts[o] == |areas[o].list|
      ensures total == |FreeSet(blocks, hi)| && total + |UsedSet(blocks, hi)| == managed
    {
      counts, total := [], 0;
      for o := 0 to maxOrder
        invariant |counts| == o && total == Total(areas[..o])
        invariant forall k :: 0 <= k < o ==> counts[k] == |areas[k].list|
      {
        assert AreaMatches(areas[..][o], blocks, o);
        assert areas[..o + 1][..o] == areas[..o];
        counts := counts + [areas[o].nrFree];
        total := total + areas[o].nrFree * Pow2(o);
      }
      assert areas[..maxOrder] == areas[..];
      TotalFree(blocks, maxOrder, hi, areas[..]);
      FreePlusUsed(blocks, maxOrder, hi);
    }

    /** Allocating and freeing at once leaves the free blocks as they were. */
    method RoundTrip(order: int) returns (r: Option<nat>)
      requires Valid()
      modifies `blocks, `loose, pages, areas
      ensures Valid() && FreeBlocks(blocks) == old(FreeBlocks(blocks)) && UsedBlocks(blocks) == old(UsedBlocks(blocks))
    {
      hide Tiled, Coalesced, InRange, PagesMatch, AreasMatch, CoveredSet;
      r := AllocPages(order);
      if r.Some? {
        UsedHead(r.value);
        ghost var cs := blocks;
        FreePages(r.value, order);
        AllocThenFree(old(blocks), cs, blocks, maxOrder, r.value, order);
        assert UsedBlocks(blocks) == old(UsedBlocks(blocks));
      }
    }

    /** The block loses its last reference and its flag, and is loose until it is merged. */
    method TakeAllocated(p: nat)
      requires Valid() && p in blocks && blocks[p].used
      requires pages[p - lo].refs == 1 && pages[p - lo].flags == {Allocated}
      modifies `blocks, `loose, pages
      ensures Inv() && Coalesced(blocks, maxOrder) && blocks == old(blocks) - {p}
      ensures loose == Span(p, old(blocks)[p].order) && Aligned(p, old(blocks)[p].order)
      ensures old(blocks)[p].order < maxOrder
      ensures UsedBlocks(blocks) == old(UsedBlocks(blocks)) - {p}
      ensures forall x :: FreeAt(blocks, x) <==> old(FreeAt(blocks, x))
    {
      ghost var o := blocks[p].order;
      ghost var was := pages[..];
      TakeUsed(blocks, maxOrder, p);
      UsedArea(areas[..], blocks, blocks - {p}, p);
      RemoveRange(blocks, maxOrder, loose, lo, hi, p);
      pages[p - lo] := Page(pages[p - lo].flags - {Allocated}, ORDER_NONE, 0);
      assert {Allocated} - {Allocated} == {};
      RemovePages(was, pages[..], lo, blocks, maxOrder, loose, p);
      blocks, loose := blocks - {p}, loose + Span(p, o);
    }
  }

  /** Taking an allocated block out. */
  lemma TakeUsed(bs: Blocks, maxOrder: nat, p: nat)
    requires Tiled(bs, maxOrder) && Coalesced(bs, maxOrder) && p in bs && bs[p].used
    ensures var cs := bs - {p};
            && Coalesced(cs, maxOrder) && UsedBlocks(cs) == UsedBlocks(bs) - {p}
            && (forall q, k :: IsFree(bs, q, k) <==> IsFree(cs, q, k))
            && (forall x :: FreeAt(cs, x) <==> FreeAt(bs, x))
  {
    var cs := bs - {p};
    assert bs == cs[p := Block(bs[p].order, true)];
    CoalescedRemove(bs, maxOrder, p);
    forall x ensures FreeAt(cs, x) <==> FreeAt(bs, x) {
      FreeUsed(cs, p, bs[p].order, x);
    }
  }

  lemma TakeBlock(bs: Blocks, maxOrder: nat, p: nat, s: nat, k: nat)
    requires Tiled(bs, maxOrder) && Coalesced(bs, maxOrder) && IsFree(bs, p, s) && k <= s
    ensures Aligned(p, s) && RunFree(bs, p, k) && Coalesced(bs - {p}, maxOrder)
    ensures UsedBlocks(bs - {p}) == UsedBlocks(bs)
    ensures forall x :: FreeAt(bs - {p}, x) || In(p, s, x) <==> FreeAt(bs, x)
  {
    BlockRun(bs, maxOrder, p, k);
    CoalescedRemove(bs, maxOrder, p);
    forall x ensures FreeAt(bs - {p}, x) || In(p, s, x) <==> FreeAt(bs, x) {
      FreeRemove(bs, maxOrder, p, s, x);
    }
  }

  lemma LooseFree(bs: Blocks, loose: set<nat>, lo: nat, hi: nat, p: nat, o: nat)
    requires InRange(bs, loose, lo, hi) && Span(p, o) <= loose
    ensures forall x :: In(p, o, x) ==> !FreeAt(bs, x)
  {
    forall x | In(p, o, x) ensures !FreeAt(bs, x) {
      assert x in loose;
    }
  }

  lemma LooseBlock(bs: Blocks, maxOrder: nat, loose: set<nat>, lo: nat, hi: nat, p: nat, o: nat)
    requires InRange(bs, loose, lo, hi) && Span(p, o) <= loose
    ensures lo <= p && p + Pow2(o) <= hi && p in loose && !Covered(bs, p) && p !in bs
    ensures forall x :: x in loose ==> !Covered(bs, x)
  {
    assert p in Span(p, o) && p + Pow2(o) - 1 in Span(p, o);
    assert p in bs ==> Holds(bs, p, p);
  }
}
