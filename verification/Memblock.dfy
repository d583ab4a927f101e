/** The boot-time reservation table of mm/memblock.c. */
module Memblock {
  import opened Errno

  const MAX_RESERVED := 32
  const U64_MAX := 0xffff_ffff_ffff_ffff
  const PAGE_SIZE := 4096

  datatype Region = Region(base: nat, size: nat, noMap: bool) {
    function End(): nat { base + size }
  }

  predicate Covers(r: Region, x: nat) {
    r.base <= x < r.End()
  }

  /** Some region of that kind covers the address. */
  ghost predicate Covered(rs: seq<Region>, noMap: bool, x: nat) {
    exists i :: 0 <= i < |rs| && rs[i].noMap == noMap && Covers(rs[i], x)
  }

  /** The region overlaps or adjoins [base, end). */
  predicate Touches(r: Region, base: nat, end: nat) {
    r.base <= end && r.End() >= base
  }

  ghost predicate WellFormed(rs: seq<Region>) {
    forall i :: 0 <= i < |rs| ==> rs[i].size > 0 && rs[i].End() <= U64_MAX
  }

  ghost predicate Sorted(rs: seq<Region>) {
    forall i, j :: 0 <= i < j < |rs| ==> rs[i].base <= rs[j].base
  }

  /** Regions of one kind neither overlap nor adjoin. */
  ghost predicate Separated(rs: seq<Region>) {
    forall i, j :: 0 <= i < j < |rs| && rs[i].noMap == rs[j].noMap ==> !Touches(rs[i], rs[j].base, rs[j].End())
  }

  ghost predicate Table(rs: seq<Region>) {
    |rs| <= MAX_RESERVED && WellFormed(rs) && Sorted(rs) && Separated(rs)
  }

  predicate Merges(r: Region, noMap: bool, base: nat, end: nat) {
    r.noMap == noMap && Touches(r, base, end)
  }

  /** The regions that stay when [base, end) swallows those it touches. */
  function Kept(rs: seq<Region>, noMap: bool, base: nat, end: nat): seq<Region> {
    if rs == [] then []
    else
      var rest := Kept(rs[..|rs| - 1], noMap, base, end);
      if Merges(rs[|rs| - 1], noMap, base, end) then rest else rest + [rs[|rs| - 1]]
  }

  /** Each kept region is one of the old ones, in the old order. */
  lemma {:induction false} KeptFrom(rs: seq<Region>, noMap: bool, base: nat, end: nat, k: nat) returns (i: nat)
    requires k < |Kept(rs, noMap, base, end)|
    ensures k <= i < |rs| && rs[i] == Kept(rs, noMap, base, end)[k] && !Merges(rs[i], noMap, base, end)
    decreases |rs|
  {
    var n := |rs| - 1;
    var rest := Kept(rs[..n], noMap, base, end);
    if k < |rest| {
      i := KeptFrom(rs[..n], noMap, base, end, k);
    } else {
      KeptLength(rs[..n], noMap, base, end);
      i := n;
    }
  }

  lemma {:induction false} KeptLength(rs: seq<Region>, noMap: bool, base: nat, end: nat)
    ensures |Kept(rs, noMap, base, end)| <= |rs|
  {
    if rs != [] {
      KeptLength(rs[..|rs| - 1], noMap, base, end);
    }
  }

  lemma {:induction false} KeptHas(rs: seq<Region>, noMap: bool, base: nat, end: nat, i: nat) returns (k: nat)
    requires i < |rs| && !Merges(rs[i], noMap, base, end)
    ensures k < |Kept(rs, noMap, base, end)| && Kept(rs, noMap, base, end)[k] == rs[i]
    decreases |rs|
  {
    var n := |rs| - 1;
    if i == n {
      k := |Kept(rs[..n], noMap, base, end)|;
    } else {
      k := KeptHas(rs[..n], noMap, base, end, i);
    }
  }

  /** Keeping preserves order and separation. */
  lemma {:induction false} KeptTable(rs: seq<Region>, noMap: bool, base: nat, end: nat)
    requires WellFormed(rs) && Sorted(rs) && Separated(rs)
    ensures var ks := Kept(rs, noMap, base, end); WellFormed(ks) && Sorted(ks) && Separated(ks)
    decreases |rs|
  {
    if rs != [] {
      var n := |rs| - 1;
      assert WellFormed(rs[..n]) && Sorted(rs[..n]) && Separated(rs[..n]);
      KeptTable(rs[..n], noMap, base, end);
      var rest, ks, last := Kept(rs[..n], noMap, base, end), Kept(rs, noMap, base, end), rs[n];
      if !Merges(last, noMap, base, end) {
        forall k | 0 <= k < |rest|
          ensures rest[k].base <= last.base
          ensures rest[k].noMap == last.noMap ==> !Touches(rest[k], last.base, last.End())
        {
          var i := KeptFrom(rs[..n], noMap, base, end, k);
          assert rs[..n][i] == rs[i];
        }
      }
    }
  }

  // ---------------------------------------------------------------------------------------------
  // The one-pass merge
  // ---------------------------------------------------------------------------------------------

  /** After the first n regions: those of the kind lie inside the hull or do not touch it. */
  ghost predicate Hull(rs: seq<Region>, n: nat, noMap: bool, base: nat, end: nat) {
    forall j :: 0 <= j < n <= |rs| && rs[j].noMap == noMap ==>
      (base <= rs[j].base && rs[j].End() <= end) || !Touches(rs[j], base, end)
  }

  predicate Within(base: nat, end: nat, x: nat) {
    base <= x < end
  }

  /** The hull grows from the requested range and holds only that and reserved addresses. */
  ghost predicate Grown(rs: seq<Region>, noMap: bool, base0: nat, end0: nat, base: nat, end: nat) {
    && base <= base0 < end0 <= end
    && forall x :: Within(base, end, x) ==> Within(base0, end0, x) || Covered(rs, noMap, x)
  }

  /** Some region of the kind touches the range. */
  ghost predicate AnyMerges(rs: seq<Region>, noMap: bool, base: nat, end: nat) {
    exists i: nat :: i < |rs| && Merges(rs[i], noMap, base, end)
  }

  lemma MergeNone(rs: seq<Region>, noMap: bool, base: nat, end: nat)
    requires base < end
    ensures Hull(rs, 0, noMap, base, end) && Grown(rs, noMap, base, end, base, end)
    ensures Kept(rs[..0], noMap, base, end) == [] && !AnyMerges(rs[..0], noMap, base, end)
  {
  }

  lemma GrownRange(rs: seq<Region>, noMap: bool, base0: nat, end0: nat, base: nat, end: nat)
    requires Grown(rs, noMap, base0, end0, base, end)
    ensures base < end
  {
  }

  lemma KeptStep(rs: seq<Region>, n: nat, noMap: bool, base: nat, end: nat)
    requires n < |rs|
    ensures Kept(rs[..n + 1], noMap, base, end)
         == Kept(rs[..n], noMap, base, end) + if Merges(rs[n], noMap, base, end) then [] else [rs[n]]
  {
    assert rs[..n + 1][..n] == rs[..n];
  }

  lemma AnyMore(rs: seq<Region>, n: nat, noMap: bool, base: nat, end: nat)
    requires n < |rs|
    ensures AnyMerges(rs[..n + 1], noMap, base, end) <==>
              AnyMerges(rs[..n], noMap, base, end) || Merges(rs[n], noMap, base, end)
  {
    var xs, ys := rs[..n], rs[..n + 1];
    if i: nat :| i < n && Merges(xs[i], noMap, base, end) {
      assert ys[i] == xs[i];
    }
    if i: nat :| i < n + 1 && Merges(ys[i], noMap, base, end) {
      assert i < n ==> xs[i] == ys[i];
    }
    assert ys[n] == rs[n];
  }

  lemma {:induction false} KeptSame(rs: seq<Region>, noMap: bool, base: nat, end: nat, base': nat, end': nat)
    requires forall j :: 0 <= j < |rs| ==> (Merges(rs[j], noMap, base, end) <==> Merges(rs[j], noMap, base', end'))
    ensures Kept(rs, noMap, base, end) == Kept(rs, noMap, base', end')
  {
    if rs != [] {
      KeptSame(rs[..|rs| - 1], noMap, base, end, base', end');
    }
  }

  /** One region of the pass: because regions of a kind do not touch, none that was passed by can be reached later. */
  lemma MergeOne(rs: seq<Region>, i: nat, noMap: bool, base0: nat, end0: nat, base: nat, end: nat, base': nat,
                 end': nat)
    requires WellFormed(rs) && Separated(rs) && i < |rs| && base < end
    requires Hull(rs, i, noMap, base, end) && Grown(rs, noMap, base0, end0, base, end)
    requires if Merges(rs[i], noMap, base, end) then
               && base' == (if base < rs[i].base then base else rs[i].base)
               && end' == (if end > rs[i].End() then end else rs[i].End())
             else base' == base && end' == end
    ensures Hull(rs, i + 1, noMap, base', end') && Grown(rs, noMap, base0, end0, base', end')
    ensures Kept(rs[..i + 1], noMap, base', end') ==
            Kept(rs[..i], noMap, base, end) + if Merges(rs[i], noMap, base, end) then [] else [rs[i]]
  {
    forall j | 0 <= j < i ensures Merges(rs[j], noMap, base, end) <==> Merges(rs[j], noMap, base', end') {
      if rs[j].noMap == noMap == rs[i].noMap {
        assert !Touches(rs[j], rs[i].base, rs[i].End());
      }
    }
    KeptSame(rs[..i], noMap, base, end, base', end');
    assert rs[..i + 1][..i] == rs[..i];
    forall x | Within(base', end', x) ensures Within(base0, end0, x) || Covered(rs, noMap, x) {
      if !Within(base, end, x) {
        assert Covers(rs[i], x);
      }
    }
  }

  /** Inserting the hull into the kept regions gives the table with exactly the union covered. */
  lemma Inserted(rs: seq<Region>, noMap: bool, base0: nat, end0: nat, base: nat, end: nat, pos: nat)
    requires WellFormed(rs) && Sorted(rs) && Separated(rs) && end <= U64_MAX
    requires Hull(rs, |rs|, noMap, base, end) && Grown(rs, noMap, base0, end0, base, end)
    requires var ks := Kept(rs, noMap, base, end);
             && pos <= |ks| && (forall k :: 0 <= k < pos ==> ks[k].base < base) && (pos < |ks| ==> ks[pos].base >= base)
    ensures var ks := Kept(rs, noMap, base, end);
            var rs' := ks[..pos] + [Region(base, end - base, noMap)] + ks[pos..];
            && WellFormed(rs') && Sorted(rs') && Separated(rs')
            && (forall kind, x ::
                  Covered(rs', kind, x) <==> Covered(rs, kind, x) || (kind == noMap && Within(base0, end0, x)))
  {
    var ks, hull := Kept(rs, noMap, base, end), Region(base, end - base, noMap);
    KeptTable(rs, noMap, base, end);
    var rs' := ks[..pos] + [hull] + ks[pos..];
    forall k | 0 <= k < |ks| ensures ks[k].noMap == noMap ==> !Touches(ks[k], base, end) {
      var i := KeptFrom(rs, noMap, base, end, k);
    }
    InsertedTable(ks, hull, pos);
    forall kind, x
      ensures Covered(rs', kind, x) <==> Covered(rs, kind, x) || (kind == noMap && Within(base0, end0, x))
    {
      InsertedCover(rs, noMap, base0, end0, base, end, pos, kind, x);
    }
  }

  lemma InsertedTable(ks: seq<Region>, hull: Region, pos: nat)
    requires WellFormed(ks) && Sorted(ks) && Separated(ks) && hull.size > 0 && hull.End() <= U64_MAX
    requires pos <= |ks| && (forall k :: 0 <= k < pos ==> ks[k].base < hull.base)
    requires (pos < |ks| ==> ks[pos].base >= hull.base)
    requires forall k :: 0 <= k < |ks| ==> ks[k].noMap == hull.noMap ==> !Touches(ks[k], hull.base, hull.End())
    ensures var rs' := ks[..pos] + [hull] + ks[pos..]; WellFormed(rs') && Sorted(rs') && Separated(rs')
  {
  }

  lemma InsertedCover(rs: seq<Region>, noMap: bool, base0: nat, end0: nat, base: nat, end: nat, pos: nat, kind: bool,
                      x: nat)
    requires Hull(rs, |rs|, noMap, base, end) && Grown(rs, noMap, base0, end0, base, end)
    requires pos <= |Kept(rs, noMap, base, end)|
    ensures var ks := Kept(rs, noMap, base, end);
            Covered(ks[..pos] + [Region(base, end - base, noMap)] + ks[pos..], kind, x) <==>
            Covered(rs, kind, x) || (kind == noMap && Within(base0, end0, x))
  {
    var ks, hull := Kept(rs, noMap, base, end), Region(base, end - base, noMap);
    var rs' := ks[..pos] + [hull] + ks[pos..];
    if Covered(rs', kind, x) {
      var k :| 0 <= k < |rs'| && rs'[k].noMap == kind && Covers(rs'[k], x);
      if k == pos {
        assert Within(base, end, x);
      } else {
        var i := KeptFrom(rs, noMap, base, end, if k < pos then k else k - 1);
        assert Covers(rs[i], x);
      }
    }
    if Covered(rs, kind, x) {
      var i :| 0 <= i < |rs| && rs[i].noMap == kind && Covers(rs[i], x);
      if Merges(rs[i], noMap, base, end) {
        assert rs'[pos] == hull && Covers(hull, x);
      } else {
        var k := KeptHas(rs, noMap, base, end, i);
        assert rs'[if k < pos then k else k + 1] == rs[i];
      }
    }
    if kind == noMap && Within(base0, end0, x) {
      assert rs'[pos] == hull && Covers(hull, x);
    }
  }

  // ---------------------------------------------------------------------------------------------
  // Lowest aligned fit
  // ---------------------------------------------------------------------------------------------

  /** ALIGN_UP, for an alignment that need not be a power of two. */
  function AlignUp(x: nat, a: nat): nat
    requires a > 0
  {
    if x / a * a == x then x else (x / a + 1) * a
  }

  ghost predicate Multiple(m: nat, a: nat) {
    exists k: nat :: k * a == m
  }

  /** The least multiple of a that is not below x. */
  lemma AlignUpSpec(x: nat, a: nat)
    requires a > 0
    ensures Multiple(AlignUp(x, a), a) && x <= AlignUp(x, a)
    ensures forall m: nat :: Multiple(m, a) && m >= x ==> m >= AlignUp(x, a)
  {
    var q := x / a;
    Quotient(x, a);
    assert (q + 1) * a == q * a + a;
    forall m: nat | Multiple(m, a) && m >= x ensures m >= AlignUp(x, a) {
      var k: nat :| k * a == m;
      if k <= q {
        Scale(k, q, a);
      } else {
        Scale(q + 1, k, a);
      }
    }
  }

  /** Near the end of the address space the next multiple of a power of two is 2^64. */
  lemma NoMultiple(x: nat, a: nat)
    requires a > 0 && Multiple(U64_MAX + 1, a) && a - 1 > U64_MAX - x
    ensures forall m: nat :: Multiple(m, a) && m >= x ==> m > U64_MAX
  {
    var top: nat :| top * a == U64_MAX + 1;
    assert (top - 1) * a == top * a - a;
    forall m: nat | Multiple(m, a) && m >= x ensures m > U64_MAX {
      var k: nat :| k * a == m;
      if k < top {
        Scale(k, top - 1, a);
      } else {
        Scale(top, k, a);
      }
    }
  }

  lemma AlignUpBound(x: nat)
    requires x <= U64_MAX - (PAGE_SIZE - 1)
    ensures AlignUp(x, PAGE_SIZE) <= U64_MAX
  {
  }

  lemma Quotient(x: nat, a: nat)
    requires a > 0
    ensures x / a * a <= x < x / a * a + a
  {
  }

  lemma Scale(k: nat, q: nat, a: nat)
    requires k <= q
    ensures k * a <= q * a
  {
  }

  /** [a, a + size) overlaps no reservation. */
  ghost predicate Free(rs: seq<Region>, a: nat, size: nat) {
    forall i :: 0 <= i < |rs| ==> rs[i].End() <= a || a + size <= rs[i].base
  }

  ghost predicate Fits(memory: Region, rs: seq<Region>, size: nat, align: nat, a: nat) {
    Multiple(a, align) && memory.base <= a && a + size <= memory.End() && Free(rs, a, size)
  }

  ghost predicate LowestFit(memory: Region, rs: seq<Region>, size: nat, align: nat, a: nat) {
    && Fits(memory, rs, size, align, a)
    && forall b: nat :: Fits(memory, rs, size, align, b) ==> a <= b
  }

  class Table32 {
    var memory: Region
    const reserved: array<Region>
    var nr: nat

    constructor (memory: Region)
      requires memory.End() <= U64_MAX
      ensures Valid() && Regions() == [] && this.memory == memory && fresh(reserved)
    {
      this.memory := memory;
      reserved := new Region[MAX_RESERVED](_ => Region(0, 0, false));
      nr := 0;
    }

    ghost function Regions(): seq<Region>
      reads this, reserved
      requires nr <= reserved.Length
    {
      reserved[..nr]
    }

    ghost predicate Valid()
      reads this, reserved
    {
      reserved.Length == MAX_RESERVED && nr <= MAX_RESERVED && Table(Regions()) && memory.End() <= U64_MAX
    }

    /** The first loop of memblock_reserve: one pass finds the hull, and counts exactly the regions it will swallow. */
    method MergePass(base0: nat, end0: nat, noMap: bool) returns (base: nat, end: nat, merged: nat)
      requires Valid() && base0 < end0 <= U64_MAX
      ensures Hull(Regions(), nr, noMap, base, end) && Grown(Regions(), noMap, base0, end0, base, end) && end <= U64_MAX
      ensures |Kept(Regions(), noMap, base, end)| == nr - merged
      ensures merged > 0 <==> AnyMerges(Regions(), noMap, base0, end0)
    {
      hide Kept, Hull, Grown, Separated, Sorted;
      base, end, merged := base0, end0, 0;
      ghost var rs := Regions();
      MergeNone(rs, noMap, base0, end0);
      for i := 0 to nr
        invariant base <= base0 && end0 <= end && (merged == 0 ==> base == base0 && end == end0)
        invariant merged > 0 <==> AnyMerges(rs[..i], noMap, base0, end0)
        invariant Hull(rs, i, noMap, base, end) && Grown(rs, noMap, base0, end0, base, end) && end <= U64_MAX
        invariant |Kept(rs[..i], noMap, base, end)| == i - merged
      {
        var region := reserved[i];
        assert region == rs[i];
        var base': nat, end': nat := base, end;
        if !(region.noMap != noMap || region.base > end || region.base + region.size < base) {
          base' := if base < region.base then base else region.base;
          end' := if end > region.base + region.size then end else region.base + region.size;
          merged := merged + 1;
        }
        AnyMore(rs, i, noMap, base0, end0);
        MergeOne(rs, i, noMap, base0, end0, base, end, base', end');
        base, end := base', end';
      }
      assert rs[..nr] == rs;
    }

    /** The second loop of memblock_reserve: move the regions that stay to the front. */
    method Compact(base: nat, end: nat, noMap: bool) returns (count: nat)
      requires reserved.Length == MAX_RESERVED && nr <= MAX_RESERVED
      modifies reserved
      ensures count <= nr && reserved[..count] == Kept(old(reserved[..nr]), noMap, base, end)
    {
      count := 0;
      ghost var rs := reserved[..nr];
      for i := 0 to nr
        invariant count <= i && reserved[..count] == Kept(rs[..i], noMap, base, end)
        invariant forall k :: i <= k < nr ==> reserved[k] == rs[k]
      {
        KeptStep(rs, i, noMap, base, end);
        hide Kept;
        var region := reserved[i];
        assert region == rs[i];
        if region.noMap == noMap && region.base <= end && region.base + region.size >= base {
        } else {
          reserved[count] := region;
          count := count + 1;
        }
      }
      assert rs[..nr] == rs;
    }

    /** The end of memblock_reserve: open a gap at the sorted position and fill it. */
    method InsertAt(region: Region, pos: nat, count: nat)
      requires reserved.Length == MAX_RESERVED && pos <= count < MAX_RESERVED
      modifies reserved
      ensures reserved[..count + 1] == old(reserved[..pos]) + [region] + old(reserved[pos..count])
    {
      var k := count;
      while k > pos
        invariant pos <= k <= count
        invariant reserved[..k] == old(reserved[..k]) && reserved[k + 1..count + 1] == old(reserved[k..count])
      {
        reserved[k] := reserved[k - 1];
        k := k - 1;
      }
      reserved[pos] := region;
    }

    /** memblock_reserve. */
    method Reserve(base0: nat, size: nat, noMap: bool) returns (r: Result<()>)
      requires Valid() && base0 <= U64_MAX && size <= U64_MAX
      modifies this`nr, reserved
      ensures Valid()
      ensures r.Err? ==> Regions() == old(Regions())
      ensures r == Err(EINVAL) <==> size == 0
      ensures r == Err(EOVERFLOW) <==> size > 0 && base0 + size > U64_MAX
      ensures r == Err(ENOSPC) <==>
                && size > 0 && base0 + size <= U64_MAX && old(nr) == MAX_RESERVED
                && !AnyMerges(old(Regions()), noMap, base0, base0 + size)
      ensures r.Err? ==> r.error == EINVAL || r.error == EOVERFLOW || r.error == ENOSPC
      ensures r.Ok? ==> forall kind, x :: Covered(Regions(), kind, x) <==>
                          old(Covered(Regions(), kind, x)) || (kind == noMap && Within(base0, base0 + size, x))
    {
      hide Kept, Hull, Grown, Separated, WellFormed, Sorted, AnyMerges, Covered;
      if size == 0 {
        return Err(EINVAL);
      }
      if size > U64_MAX - base0 {
        return Err(EOVERFLOW);
      }
      var base, end, merged := MergePass(base0, base0 + size, noMap);
      if nr - merged == MAX_RESERVED {
        return Err(ENOSPC);
      }
      Enter(base0, base0 + size, noMap, base, end);
      return Ok(());
    }

    /** The rest of memblock_reserve: the hull takes the place of what it swallows. */
    method Enter(ghost base0: nat, ghost end0: nat, noMap: bool, base: nat, end: nat)
      requires Valid() && end <= U64_MAX && |Kept(Regions(), noMap, base, end)| < MAX_RESERVED
      requires Hull(Regions(), nr, noMap, base, end) && Grown(Regions(), noMap, base0, end0, base, end)
      modifies this`nr, reserved
      ensures Valid()
      ensures forall kind, x :: Covered(Regions(), kind, x) <==>
                old(Covered(Regions(), kind, x)) || (kind == noMap && Within(base0, end0, x))
    {
      hide Kept, Hull, Grown, Separated, WellFormed, Sorted, Covered;
      GrownRange(Regions(), noMap, base0, end0, base, end);
      ghost var rs := Regions();
      var count := Compact(base, end, noMap);
      ghost var ks := reserved[..count];
      assert ks == Kept(rs, noMap, base, end) && |ks| == count;
      var pos := FindPlace(base, count);
      assert forall k :: 0 <= k < count ==> ks[k] == reserved[k];
      Inserted(rs, noMap, base0, end0, base, end, pos);
      assert reserved[..pos] == ks[..pos] && reserved[pos..count] == ks[pos..];
      InsertAt(Region(base, end - base, noMap), pos, count);
      nr := count + 1;
      assert Regions() == ks[..pos] + [Region(base, end - base, noMap)] + ks[pos..];
    }

    /** The position of a base among the first regions. */
    method FindPlace(base: nat, count: nat) returns (pos: nat)
      requires count <= reserved.Length
      ensures pos <= count && forall k :: 0 <= k < pos ==> reserved[k].base < base
      ensures pos < count ==> reserved[pos].base >= base
    {
      pos := 0;
      while pos < count && reserved[pos].base < base
        invariant pos <= count && forall k :: 0 <= k < pos ==> reserved[k].base < base
      {
        pos := pos + 1;
      }
    }

    /** The search loop of early_alloc. */
    method FindFit(size: nat, align: nat) returns (r: Option<nat>)
      requires Valid() && size <= U64_MAX && align > 0 && Multiple(U64_MAX + 1, align)
      ensures r.Some? ==> Fits(memory, Regions(), size, align, r.value)
      ensures r.Some? && size > 0 ==> forall a: nat :: Fits(memory, Regions(), size, align, a) ==> r.value <= a
      ensures r.None? && size > 0 ==> forall a: nat :: !Fits(memory, Regions(), size, align, a)
    {
      hide AlignUp, Multiple;
      var base: nat, limit := memory.base, memory.base + memory.size;
      ghost var rs := Regions();
      var i: nat := 0;
      while true
        invariant 0 <= i <= nr && memory.base <= base
        invariant forall j :: 0 <= j < i ==> rs[j].End() <= base
        invariant size > 0 ==> forall a: nat :: Fits(memory, rs, size, align, a) ==> base <= a
        decreases nr - i
      {
        if base >= limit {
          return None;
        }
        if align - 1 > U64_MAX - base {
          NoMultiple(base, align);
          return None;
        }
        AlignUpSpec(base, align);
        base := AlignUp(base, align);
        if base >= limit || size > limit - base {
          return None;
        }
        if i == nr {
          break;
        }
        var region := reserved[i];
        assert region == rs[i];
        if region.End() > base {
          if region.base >= base + size {
            break;
          }
          base := region.End();
        }
        i := i + 1;
      }
      return Some(base);
    }

    /** early_alloc: the lowest aligned range of RAM that no reservation overlaps. The alignment is a power of two, so
        it divides 2^64, and is at least a page. */
    method EarlyAlloc(size0: nat, align0: nat) returns (r: Result<nat>)
      requires Valid() && size0 <= U64_MAX && (align0 > PAGE_SIZE ==> Multiple(U64_MAX + 1, align0))
      modifies this`nr, reserved
      ensures Valid() && (r.Err? ==> Regions() == old(Regions()))
      ensures r == Err(EOVERFLOW) <==> size0 > U64_MAX - (PAGE_SIZE - 1)
      ensures var size, align := AlignUp(size0, PAGE_SIZE), if align0 > PAGE_SIZE then align0 else PAGE_SIZE;
              && (r.Ok? ==>
                    && LowestFit(memory, old(Regions()), size, align, r.value)
                    && (forall kind, x :: Covered(Regions(), kind, x) <==>
                          old(Covered(Regions(), kind, x)) || (kind == false && Within(r.value, r.value + size, x))))
              && (r == Err(ENOMEM) && size > 0 ==> forall a: nat :: !Fits(memory, old(Regions()), size, align, a))
              && (r.Err? && r.error != EOVERFLOW && r.error != ENOMEM && size > 0 ==>
                    r.error == ENOSPC && nr == MAX_RESERVED
                    && exists a: nat :: LowestFit(memory, old(Regions()), size, align, a)
                                        && !AnyMerges(old(Regions()), false, a, a + size))
              && (size0 == 0 ==> r == Err(EINVAL) || r == Err(ENOMEM))
    {
      if size0 > U64_MAX - (PAGE_SIZE - 1) {
        return Err(EOVERFLOW);
      }
      var size, align := AlignUp(size0, PAGE_SIZE), if align0 > PAGE_SIZE then align0 else PAGE_SIZE;
      AlignUpBound(size0);
      assert 0x10_0000_0000_0000 * PAGE_SIZE == U64_MAX + 1;
      var fit := FindFit(size, align);
      if fit.None? {
        return Err(ENOMEM);
      }
      var base := fit.value;
      assert size > 0 ==> LowestFit(memory, Regions(), size, align, base);
      var ret := Reserve(base, size, false);
      if ret.Err? {
        return Err(ret.error);
      }
      return Ok(base);
    }
  }
}
