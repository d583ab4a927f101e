/** Copy-on-write sharing of user pages: arch/riscv/pgtable.c, mm/page_fault.c, and the page-table side of mm/vma.c.

    Any number of address spaces run at once. What one mm does under its mmap_lock is a sequence of atomic steps:
    one page-table critical section, one reference count update, one page copy, one TLB flush. Steps of different
    mms interleave freely. CPUs cache translations and may store through a cached writable translation until the
    next flush, whatever the page table says by then.
 */
module Cow {
  import opened Errno

  type Mm = nat
  type Vaddr = nat
  type Pfn = nat
  /** The contents of one page. */
  type Data = nat

  datatype Frame = Frame(refs: nat, data: Data)

  datatype Key = Key(mm: Mm, addr: Vaddr)

  /** Where a task keeps a page it owns a reference to without a leaf. */
  datatype Slot = New | Old | Batch(i: nat) | Late(i: nat)

  datatype Hold = Hold(mm: Mm, slot: Slot)

  datatype CowStage = Fresh | Copied | Unmapped | Mapped | Flushed

  datatype CloneStage = Ready | Protected(addr: Vaddr) | Entered(addr: Vaddr)

  /** What the holder of an mm's mmap_lock is in the middle of; Absent for an mm that does not exist. */
  datatype Op =
    | Absent
    | Idle
    | Held
    | Shared(addr: Vaddr, old_: Pfn)
    | Copying(addr: Vaddr, old_: Pfn, new_: Pfn, stage: CowStage)
    | Filling(addr: Vaddr, new_: Pfn)
    | Unmapping(flushed: bool)
    | Cloning(dst: Mm, done: set<Vaddr>, at: CloneStage)
    | Newborn(parent: Mm)
    | Dead

  datatype Entry = Entry(key: Key, pfn: Pfn, write: bool)

  /** `leaf` are the present user leaves, `writable` those that grant writing, and `pending` those that a clone has
      entered but not counted yet. */
  datatype State = State(
    frames: map<Pfn, Frame>,
    leaf: map<Key, Pfn>,
    writable: set<Key>,
    pending: set<Key>,
    hold: map<Hold, Pfn>,
    ops: map<Mm, Op>,
    tlb: set<Entry>)
  {
    function Op(m: Mm): Op {
      if m in ops then ops[m] else Absent
    }

    function DataOf(p: Pfn): Data {
      if p in frames then frames[p].data else 0
    }
  }

  // ---------------------------------------------------------------------------------------------
  // Ownership: reference counts, writable leaves, fresh pages
  // ---------------------------------------------------------------------------------------------

  ghost function Naming<K>(m: map<K, Pfn>, p: Pfn): set<K> {
    set k | k in m && m[k] == p
  }

  lemma NamingAdd<K>(m: map<K, Pfn>, k: K, q: Pfn)
    requires k !in m
    ensures forall p :: Naming(m[k := q], p) == if p == q then Naming(m, p) + {k} else Naming(m, p)
    ensures k !in Naming(m, q)
  {
  }

  lemma NamingRemove<K>(m: map<K, Pfn>, k: K)
    requires k in m
    ensures forall p :: Naming(m - {k}, p) == if p == m[k] then Naming(m, p) - {k} else Naming(m, p)
    ensures k in Naming(m, m[k])
  {
  }

  ghost function Leaves(s: State, p: Pfn): set<Key> {
    Naming(s.leaf, p)
  }

  ghost function Holds(s: State, p: Pfn): set<Hold> {
    Naming(s.hold, p)
  }

  /** The reference count of a frame; a frame that is not in use has none. */
  ghost function Refs(f: map<Pfn, Frame>, p: Pfn): nat {
    if p in f then f[p].refs else 0
  }

  ghost predicate InUse(f: map<Pfn, Frame>) {
    forall p :: p in f ==> f[p].refs > 0
  }

  /** What must hold of a page with `refs` references, named by the leaves `l` and owned in flight by `h`, when
      `pending` are the leaves that are not counted yet and `writable` those that grant writing: the count is exact;
      some leaf is counted if there is any; a writable leaf is the only owner of the page; a page that a fault has just
      allocated has no owner but the fault. */
  ghost predicate PageGood(refs: nat, l: set<Key>, pending: set<Key>, writable: set<Key>, h: set<Hold>) {
    && refs == |l - pending| + |h|
    && (l != {} ==> l - pending != {})
    && (forall k :: k in l && k in writable ==> l == {k} && h == {} && k !in pending)
    && (forall g :: g in h && g.slot.New? ==> l == {} && h == {g})
  }

  ghost predicate PageOwned(s: State, p: Pfn) {
    PageGood(Refs(s.frames, p), Leaves(s, p), s.pending, s.writable, Holds(s, p))
  }

  ghost predicate Owned(s: State) {
    && InUse(s.frames)
    && (forall k :: k in s.writable || k in s.pending ==> k in s.leaf)
    && (forall p :: PageOwned(s, p))
  }

  /** free_page: drop one reference, the last one frees the frame. */
  ghost function Dropped(f: map<Pfn, Frame>, p: Pfn): map<Pfn, Frame> {
    if p !in f then f else if f[p].refs <= 1 then f - {p} else f[p := f[p].(refs := f[p].refs - 1)]
  }

  lemma DroppedRefs(f: map<Pfn, Frame>, p: Pfn)
    requires InUse(f) && p in f
    ensures InUse(Dropped(f, p))
    ensures forall x :: Refs(Dropped(f, p), x) == if x == p then Refs(f, x) - 1 else Refs(f, x)
  {
  }

  /** get_page. */
  ghost function Taken(f: map<Pfn, Frame>, p: Pfn): map<Pfn, Frame> {
    if p !in f then f else f[p := f[p].(refs := f[p].refs + 1)]
  }

  ghost function Written(f: map<Pfn, Frame>, p: Pfn, d: Data): map<Pfn, Frame> {
    if p !in f then f else f[p := f[p].(data := d)]
  }

  lemma TakenRefs(f: map<Pfn, Frame>, p: Pfn)
    requires InUse(f) && p in f
    ensures InUse(Taken(f, p))
    ensures forall x :: Refs(Taken(f, p), x) == if x == p then Refs(f, x) + 1 else Refs(f, x)
  {
  }

  // What one move of a reference does to the page it moves on.

  lemma PageElsewhere(r: nat, l: set<Key>, p: set<Key>, w: set<Key>, h: set<Hold>, p2: set<Key>, w2: set<Key>)
    requires PageGood(r, l, p, w, h)
    requires forall k :: k in l ==> (k in p <==> k in p2)
    requires forall k :: k in l && k in w2 ==> k in w || (l == {k} && h == {} && k !in p)
    ensures PageGood(r, l, p2, w2, h)
  {
    assert l - p2 == l - p;
  }

  lemma PageDetach(r: nat, l: set<Key>, p: set<Key>, w: set<Key>, h: set<Hold>, k: Key, g: Hold)
    requires PageGood(r, l, p, w, h) && k in l && k !in p && g !in h && !g.slot.New?
    requires l - {k} != {} ==> l - {k} - p != {}
    ensures PageGood(r, l - {k}, p, w - {k}, h + {g})
  {
    assert l - {k} - p == l - p - {k};
  }

  lemma PageAttach(r: nat, l: set<Key>, p: set<Key>, w: set<Key>, h: set<Hold>, g: Hold, k: Key, w2: set<Key>)
    requires PageGood(r, l, p, w, h) && g in h && g.slot.New? && k !in p && w2 - {k} == w - {k}
    ensures PageGood(r, l + {k}, p, w2, h - {g})
  {
    assert l + {k} == {k} && h - {g} == {} && {k} - p == {k};
  }

  lemma PageFree(r: nat, l: set<Key>, p: set<Key>, w: set<Key>, h: set<Hold>, g: Hold)
    requires PageGood(r, l, p, w, h) && g in h
    ensures r > 0 && PageGood(r - 1, l, p, w, h - {g})
    ensures r == 1 ==> l == {}
  {
    assert |h - {g}| == |h| - 1;
    if r == 1 { assert l - p == {}; }
  }

  lemma PageMove(r: nat, l: set<Key>, p: set<Key>, w: set<Key>, h: set<Hold>, g: Hold, g2: Hold)
    requires PageGood(r, l, p, w, h) && g in h && g2 !in h && !g2.slot.New?
    ensures PageGood(r, l, p, w, h - {g} + {g2})
  {
    assert |h - {g} + {g2}| == |h|;
  }

  lemma PageTear(r: nat, l: set<Key>, p: set<Key>, w: set<Key>, h: set<Hold>, k: Key)
    requires PageGood(r, l, p, w, h) && k in l && k !in p
    requires l - {k} != {} ==> l - {k} - p != {}
    ensures r > 0 && PageGood(r - 1, l - {k}, p, w - {k}, h)
  {
    assert l - {k} - p == l - p - {k};
  }

  lemma PageEnter(r: nat, l: set<Key>, p: set<Key>, w: set<Key>, h: set<Hold>, src: Key, k: Key)
    requires PageGood(r, l, p, w, h) && src in l && src !in p && src !in w && k !in l && k !in w
    ensures PageGood(r, l + {k}, p + {k}, w, h)
  {
    assert (l + {k}) - (p + {k}) == l - p;
  }

  lemma PageCount(r: nat, l: set<Key>, p: set<Key>, w: set<Key>, h: set<Hold>, k: Key)
    requires PageGood(r, l, p, w, h) && k in l && k in p
    ensures PageGood(r + 1, l, p - {k}, w, h)
  {
    assert l - (p - {k}) == (l - p) + {k};
  }

  // Each step moves at most one reference. These lemmas say so for every kind of move.

  /** Only contents and write permissions change, and permission is only granted to a sole owner. */
  lemma OwnedSame(s: State, t: State)
    requires Owned(s) && t.hold == s.hold && t.leaf == s.leaf && t.pending == s.pending
    requires t.frames.Keys == s.frames.Keys
    requires forall p :: p in s.frames ==> t.frames[p].refs == s.frames[p].refs
    requires forall k :: k in t.writable && k !in s.writable ==>
                           k in s.leaf && k !in s.pending && Leaves(s, s.leaf[k]) == {k} && Holds(s, s.leaf[k]) == {}
    ensures Owned(t)
  {
    hide PageGood;
    forall p ensures PageOwned(t, p) {
      assert PageOwned(s, p);
      PageElsewhere(Refs(s.frames, p), Leaves(s, p), s.pending, s.writable, Holds(s, p), t.pending, t.writable);
    }
  }

  /** A fresh page is allocated. */
  lemma OwnedAlloc(s: State, t: State, h: Hold, n: Pfn, d: Data)
    requires Owned(s) && n !in s.frames && h !in s.hold
    requires t.leaf == s.leaf && t.hold == s.hold[h := n] && t.frames == s.frames[n := Frame(1, d)]
    requires t.writable == s.writable && t.pending == s.pending
    ensures Owned(t)
  {
    NamingAdd(s.hold, h, n);
    assert PageOwned(s, n);
    assert Leaves(s, n) == {} && Holds(s, n) == {} by { assert |Holds(s, n)| == 0; }
    assert Holds(t, n) == {h} && Refs(t.frames, n) == 1;
    assert PageOwned(t, n) by { hide Naming; }
    hide PageGood, Naming;
    forall p | p != n ensures PageOwned(t, p) {
      assert PageOwned(s, p);
    }
  }

  /** A counted leaf becomes a page in flight. */
  lemma OwnedDetach(s: State, t: State, k: Key, h: Hold)
    requires Owned(s) && k in s.leaf && k !in s.pending && h !in s.hold && !h.slot.New?
    requires Leaves(s, s.leaf[k]) - {k} != {} ==> Leaves(s, s.leaf[k]) - {k} - s.pending != {}
    requires t.leaf == s.leaf - {k} && t.hold == s.hold[h := s.leaf[k]] && t.frames == s.frames
    requires t.writable == s.writable - {k} && t.pending == s.pending
    ensures Owned(t)
  {
    var q := s.leaf[k];
    NamingRemove(s.leaf, k);
    NamingAdd(s.hold, h, q);
    hide PageGood, Naming, Refs, InUse;
    forall p ensures PageOwned(t, p) {
      assert PageOwned(s, p);
      if p == q {
        PageDetach(Refs(s.frames, p), Leaves(s, p), s.pending, s.writable, Holds(s, p), k, h);
      } else {
        PageElsewhere(Refs(s.frames, p), Leaves(s, p), s.pending, s.writable, Holds(s, p), t.pending, t.writable);
      }
    }
  }

  lemma AttachPage(s: State, t: State, h: Hold, k: Key, p: Pfn)
    requires PageOwned(s, p) && h in s.hold && h.slot.New? && k !in s.leaf && k !in s.pending
    requires t.leaf == s.leaf[k := s.hold[h]] && t.hold == s.hold - {h} && t.frames == s.frames
    requires t.writable - {k} == s.writable && t.pending == s.pending
    ensures PageOwned(t, p)
  {
    NamingAdd(s.leaf, k, s.hold[h]);
    NamingRemove(s.hold, h);
    assert k !in Leaves(s, p);
    hide PageGood, Naming, Refs;
    if p == s.hold[h] {
      PageAttach(Refs(s.frames, p), Leaves(s, p), s.pending, s.writable, Holds(s, p), h, k, t.writable);
    } else {
      PageElsewhere(Refs(s.frames, p), Leaves(s, p), s.pending, s.writable, Holds(s, p), t.pending, t.writable);
    }
  }

  /** A page in flight becomes a leaf. */
  lemma OwnedAttach(s: State, t: State, h: Hold, k: Key)
    requires Owned(s) && h in s.hold && h.slot.New? && k !in s.leaf
    requires t.leaf == s.leaf[k := s.hold[h]] && t.hold == s.hold - {h} && t.frames == s.frames
    requires t.writable - {k} == s.writable && t.pending == s.pending
    ensures Owned(t)
  {
    hide PageOwned, InUse;
    forall p ensures PageOwned(t, p) {
      AttachPage(s, t, h, k, p);
    }
  }

  /** The owner of a page in flight gives its reference back. */
  lemma OwnedFree(s: State, t: State, h: Hold)
    requires Owned(s) && h in s.hold && s.hold[h] in s.frames
    requires t.leaf == s.leaf && t.hold == s.hold - {h} && t.frames == Dropped(s.frames, s.hold[h])
    requires t.writable == s.writable && t.pending == s.pending
    ensures Owned(t)
  {
    NamingRemove(s.hold, h);
    DroppedRefs(s.frames, s.hold[h]);
    hide PageGood, Naming, Dropped, Refs, InUse;
    forall p ensures PageOwned(t, p) {
      assert PageOwned(s, p);
      if p == s.hold[h] {
        PageFree(Refs(s.frames, p), Leaves(s, p), s.pending, s.writable, Holds(s, p), h);
      }
    }
  }

  /** The owner of a page in flight only changes where it keeps it. */
  lemma OwnedMove(s: State, t: State, g: Hold, h: Hold)
    requires Owned(s) && g in s.hold && h !in s.hold && !h.slot.New?
    requires t.leaf == s.leaf && t.hold == (s.hold - {g})[h := s.hold[g]] && t.frames == s.frames
    requires t.writable == s.writable && t.pending == s.pending
    ensures Owned(t)
  {
    NamingRemove(s.hold, g);
    NamingAdd(s.hold - {g}, h, s.hold[g]);
    assert h !in Holds(s, s.hold[g]);
    hide PageGood, Naming, Refs, InUse;
    forall p ensures PageOwned(t, p) {
      assert PageOwned(s, p);
      if p == s.hold[g] {
        PageMove(Refs(s.frames, p), Leaves(s, p), s.pending, s.writable, Holds(s, p), g, h);
      }
    }
  }

  lemma TearPage(s: State, t: State, k: Key, p: Pfn)
    requires PageOwned(s, p) && InUse(s.frames) && k in s.leaf && k !in s.pending && s.leaf[k] in s.frames
    requires Leaves(s, s.leaf[k]) - {k} != {} ==> Leaves(s, s.leaf[k]) - {k} - s.pending != {}
    requires t.leaf == s.leaf - {k} && t.hold == s.hold && t.frames == Dropped(s.frames, s.leaf[k])
    requires t.writable == s.writable - {k} && t.pending == s.pending
    ensures PageOwned(t, p)
  {
    NamingRemove(s.leaf, k);
    DroppedRefs(s.frames, s.leaf[k]);
    hide PageGood, Naming, Dropped, Refs, InUse;
    if p == s.leaf[k] {
      PageTear(Refs(s.frames, p), Leaves(s, p), s.pending, s.writable, Holds(s, p), k);
    } else {
      PageElsewhere(Refs(s.frames, p), Leaves(s, p), s.pending, s.writable, Holds(s, p), t.pending, t.writable);
    }
  }

  /** A leaf is torn down with its address space. */
  lemma OwnedTear(s: State, t: State, k: Key)
    requires Owned(s) && k in s.leaf && k !in s.pending && s.leaf[k] in s.frames
    requires Leaves(s, s.leaf[k]) - {k} != {} ==> Leaves(s, s.leaf[k]) - {k} - s.pending != {}
    requires t.leaf == s.leaf - {k} && t.hold == s.hold && t.frames == Dropped(s.frames, s.leaf[k])
    requires t.writable == s.writable - {k} && t.pending == s.pending
    ensures Owned(t)
  {
    DroppedRefs(s.frames, s.leaf[k]);
    hide PageOwned, InUse, Dropped, Leaves, Refs;
    forall p ensures PageOwned(t, p) {
      TearPage(s, t, k, p);
    }
  }

  /** A clone enters the parent's page in the child. */
  lemma OwnedEnter(s: State, t: State, src: Key, k: Key)
    requires Owned(s) && src in s.leaf && src !in s.writable && src !in s.pending && k !in s.leaf
    requires t.leaf == s.leaf[k := s.leaf[src]] && t.hold == s.hold && t.frames == s.frames
    requires t.writable == s.writable && t.pending == s.pending + {k}
    ensures Owned(t)
  {
    var q := s.leaf[src];
    NamingAdd(s.leaf, k, q);
    assert src in Leaves(s, q);
    assert forall p :: k !in Leaves(s, p);
    hide PageGood, Naming;
    forall p ensures PageOwned(t, p) {
      assert PageOwned(s, p);
      if p == q {
        PageEnter(Refs(s.frames, p), Leaves(s, p), s.pending, s.writable, Holds(s, p), src, k);
      } else {
        PageElsewhere(Refs(s.frames, p), Leaves(s, p), s.pending, s.writable, Holds(s, p), t.pending, t.writable);
      }
    }
  }

  /** get_page: the entered leaf is counted. */
  lemma OwnedCount(s: State, t: State, k: Key)
    requires Owned(s) && k in s.pending && s.leaf[k] in s.frames
    requires t.leaf == s.leaf && t.hold == s.hold
    requires t.frames == Taken(s.frames, s.leaf[k])
    requires t.writable == s.writable && t.pending == s.pending - {k}
    ensures Owned(t)
  {
    var q := s.leaf[k];
    assert k in Leaves(s, q);
    assert forall p :: k in Leaves(s, p) ==> p == q;
    TakenRefs(s.frames, q);
    hide PageGood, Naming, Taken, Refs, InUse;
    forall p ensures PageOwned(t, p) {
      assert PageOwned(s, p);
      if p == q {
        PageCount(Refs(s.frames, p), Leaves(s, p), s.pending, s.writable, Holds(s, p), k);
      } else {
        PageElsewhere(Refs(s.frames, p), Leaves(s, p), s.pending, s.writable, Holds(s, p), t.pending, t.writable);
      }
    }
  }

  // ---------------------------------------------------------------------------------------------
  // The invariant
  // ---------------------------------------------------------------------------------------------

  ghost predicate Maps(s: State, k: Key, p: Pfn) {
    k in s.leaf && s.leaf[k] == p
  }

  /** A leaf that is present, counted and read-only. */
  ghost predicate ReadOnly(s: State, k: Key, p: Pfn) {
    Maps(s, k, p) && k !in s.writable && k !in s.pending
  }

  ghost predicate Keeps(s: State, m: Mm, slot: Slot, p: Pfn) {
    Hold(m, slot) in s.hold && s.hold[Hold(m, slot)] == p
  }

  ghost predicate NoWriters(s: State, p: Pfn) {
    forall e :: e in s.tlb && e.pfn == p ==> !e.write
  }

  /** The clone has entered exactly the addresses it is done with, and the one it has not counted yet. */
  ghost predicate CloneOk(s: State, m: Mm, dst: Mm, done: set<Vaddr>, at: CloneStage) {
    && s.Op(dst) == Newborn(m)
    && (forall a :: Key(dst, a) in s.leaf <==> a in done || at == Entered(a))
    && (forall a :: a in done || at == Entered(a) ==>
          Key(m, a) in s.leaf && ReadOnly(s, Key(m, a), s.leaf[Key(m, a)]) && Maps(s, Key(dst, a), s.leaf[Key(m, a)])
          && Key(dst, a) !in s.writable)
    && (forall a :: Key(dst, a) in s.pending <==> at == Entered(a))
    && (at.Protected? ==> Key(m, at.addr) in s.leaf && ReadOnly(s, Key(m, at.addr), s.leaf[Key(m, at.addr)]))
    && (!at.Ready? ==> at.addr !in done)
  }

  ghost predicate MmOk(s: State, m: Mm) {
    match s.Op(m)
    case Shared(a, o) => ReadOnly(s, Key(m, a), o) && NoWriters(s, o)
    case Copying(a, o, n, st) =>
      (match st
       case Fresh => Keeps(s, m, New, n) && ReadOnly(s, Key(m, a), o) && NoWriters(s, o)
       case Copied => Keeps(s, m, New, n) && ReadOnly(s, Key(m, a), o) && NoWriters(s, o) && s.DataOf(n) == s.DataOf(o)
       case Unmapped => Keeps(s, m, New, n) && Keeps(s, m, Old, o) && Key(m, a) !in s.leaf
       case Mapped => Keeps(s, m, Old, o)
       case Flushed => Keeps(s, m, Old, o))
    case Filling(a, n) => Keeps(s, m, New, n) && Key(m, a) !in s.leaf
    case Cloning(dst, done, at) => CloneOk(s, m, dst, done, at)
    case Newborn(p) => s.Op(p).Cloning? && s.Op(p).dst == m
    case _ => true
  }

  ghost predicate KeyOk(s: State, k: Key) {
    && !s.Op(k.mm).Absent?
    && (k in s.pending ==>
          s.Op(k.mm).Newborn? && var p := s.Op(k.mm).parent;
          s.Op(p).Cloning? && s.Op(p).at == Entered(k.addr))
  }

  ghost predicate HoldOk(s: State, h: Hold) {
    match h.slot
    case New => s.Op(h.mm).Filling? || (s.Op(h.mm).Copying? && s.Op(h.mm).stage in {Fresh, Copied, Unmapped})
    case Old => s.Op(h.mm).Copying? && s.Op(h.mm).stage in {Unmapped, Mapped, Flushed}
    case Batch(_) => s.Op(h.mm).Unmapping?
    case Late(_) => true
  }

  ghost predicate Live(o: Op) {
    !o.Absent? && !o.Newborn? && !o.Dead?
  }

  /** Pages that this mm took out of its tables and has not flushed from the TLBs yet. */
  ghost predicate Stale(s: State, m: Mm, p: Pfn) {
    && ((s.Op(m).Copying? && s.Op(m).stage in {Unmapped, Mapped}) || s.Op(m) == Unmapping(false))
    && exists h :: h in s.hold && h.mm == m && (h.slot.Old? || h.slot.Batch?) && s.hold[h] == p
  }

  /** The leaf j is k itself or its copy in a child that is being cloned. */
  ghost predicate Shares(s: State, k: Key, j: Key) {
    j == k || (s.Op(k.mm).Cloning? && j == Key(s.Op(k.mm).dst, k.addr))
  }

  ghost predicate SoleWriter(s: State, e: Entry) {
    && (forall k :: k in s.leaf && s.leaf[k] == e.pfn ==> Shares(s, e.key, k))
    && (forall h :: h in s.hold && s.hold[h] == e.pfn ==> h.mm == e.key.mm && h.slot.Batch?)
  }

  ghost predicate EntryOk(s: State, e: Entry) {
    && Live(s.Op(e.key.mm))
    && (Maps(s, e.key, e.pfn) || Stale(s, e.key.mm, e.pfn))
    && (e.write ==> SoleWriter(s, e))
  }

  ghost predicate Inv(s: State) {
    && Owned(s)
    && (forall m :: MmOk(s, m))
    && (forall k :: k in s.leaf ==> KeyOk(s, k))
    && (forall h :: h in s.hold ==> HoldOk(s, h))
    && (forall e :: e in s.tlb ==> EntryOk(s, e))
  }

  // ---------------------------------------------------------------------------------------------
  // Steps
  // ---------------------------------------------------------------------------------------------

  datatype Event =
    | NewMm(m: Mm)
    | Lock(m: Mm)
    | Unlock(m: Mm)
    | Protect(m: Mm, a: Vaddr, want: bool)
    | CowSee(m: Mm, a: Vaddr)
    | CowNoMemory(m: Mm)
    | CowAlloc(m: Mm, n: Pfn, junk: Data)
    | CowCopy(m: Mm)
    | CowUnmap(m: Mm)
    | CowMap(m: Mm, want: bool)
    | Flush(m: Mm)
    | CowUnlock(m: Mm, i: nat)
    | FillAlloc(m: Mm, a: Vaddr, n: Pfn, d: Data)
    | FillMap(m: Mm, want: bool)
    | FillFail(m: Mm, i: nat)
    | LateFree(m: Mm, i: nat)
    | UnmapStart(m: Mm)
    | UnmapLeaf(m: Mm, a: Vaddr, i: nat)
    | BatchFree(m: Mm, i: nat)
    | UnmapDone(m: Mm)
    | CloneStart(m: Mm, d: Mm)
    | CloneProtect(m: Mm, a: Vaddr)
    | CloneEnter(m: Mm)
    | CloneCount(m: Mm)
    | CloneFinish(m: Mm)
    | CloneAbort(m: Mm)
    | Kill(m: Mm)
    | Tear(m: Mm, a: Vaddr)
    | TlbFill(m: Mm, a: Vaddr)
    | TlbEvict(e: Entry)
    | Store(e: Entry, d: Data)
  {
    function Actor(): Mm {
      match this
      case TlbEvict(e) => e.key.mm
      case Store(e, _) => e.key.mm
      case _ => this.m
    }
  }

  ghost predicate InCopy(o: Op, stage: CowStage) {
    o.Copying? && o.stage == stage
  }

  ghost predicate Enabled(s: State, e: Event) {
    match e
    case NewMm(m) => s.Op(m).Absent?
    case Lock(m) => s.Op(m).Idle?
    case Unlock(m) => s.Op(m).Held?
    case Protect(m, a, _) => s.Op(m).Held? && Key(m, a) in s.leaf
    case CowSee(m, a) => s.Op(m).Held? && Key(m, a) in s.leaf && Refs(s.frames, s.leaf[Key(m, a)]) != 1
    case CowNoMemory(m) => s.Op(m).Shared?
    case CowAlloc(m, n, _) => s.Op(m).Shared? && n !in s.frames
    case CowCopy(m) => InCopy(s.Op(m), Fresh)
    case CowUnmap(m) => InCopy(s.Op(m), Copied)
    case CowMap(m, _) => InCopy(s.Op(m), Unmapped)
    case Flush(m) => s.Op(m).Held? || InCopy(s.Op(m), Mapped) || s.Op(m).Unmapping?
    case CowUnlock(m, i) => InCopy(s.Op(m), Flushed) && Hold(m, Late(i)) !in s.hold
    case FillAlloc(m, a, n, _) => s.Op(m).Held? && Key(m, a) !in s.leaf && n !in s.frames
    case FillMap(m, _) => s.Op(m).Filling?
    case FillFail(m, i) => s.Op(m).Filling? && Hold(m, Late(i)) !in s.hold
    case LateFree(m, i) => Hold(m, Late(i)) in s.hold
    case UnmapStart(m) => s.Op(m).Held?
    case UnmapLeaf(m, a, i) => s.Op(m).Unmapping? && Key(m, a) in s.leaf && Hold(m, Batch(i)) !in s.hold
    case BatchFree(m, i) => s.Op(m) == Unmapping(true) && Hold(m, Batch(i)) in s.hold
    case UnmapDone(m) => s.Op(m).Unmapping? && forall i :: Hold(m, Batch(i)) !in s.hold
    case CloneStart(m, d) => s.Op(m).Held? && s.Op(d).Absent?
    case CloneProtect(m, a) => s.Op(m).Cloning? && s.Op(m).at.Ready? && Key(m, a) in s.leaf && a !in s.Op(m).done
    case CloneEnter(m) => s.Op(m).Cloning? && s.Op(m).at.Protected?
    case CloneCount(m) => s.Op(m).Cloning? && s.Op(m).at.Entered?
    case CloneFinish(m) =>
      s.Op(m).Cloning? && s.Op(m).at.Ready? && forall a :: Key(m, a) in s.leaf ==> a in s.Op(m).done
    case CloneAbort(m) => s.Op(m).Cloning? && !s.Op(m).at.Entered?
    case Kill(m) => s.Op(m).Idle? && forall e :: e in s.tlb ==> e.key.mm != m
    case Tear(m, a) => s.Op(m).Dead? && Key(m, a) in s.leaf
    case TlbFill(m, a) => Live(s.Op(m)) && Key(m, a) in s.leaf
    case TlbEvict(e) => e in s.tlb
    case Store(e, _) => e in s.tlb && e.write
  }

  /** After a flush no CPU caches any translation; the mm that flushed may now free what it unmapped. */
  ghost function FlushedOp(o: Op): Op {
    match o
    case Copying(a, old_, n, Mapped) => Copying(a, old_, n, Flushed)
    case Unmapping(_) => Unmapping(true)
    case _ => o
  }

  ghost function Grant(w: set<Key>, k: Key, write: bool): set<Key> {
    if write then w + {k} else w - {k}
  }

  ghost function Apply(s: State, e: Event): State
    requires Enabled(s, e)
  {
    match e
    case NewMm(m) => s.(ops := s.ops[m := Idle])
    case Lock(m) => s.(ops := s.ops[m := Held])
    case Unlock(m) => s.(ops := s.ops[m := Idle])
    case Protect(m, a, want) =>
      var k := Key(m, a);
      s.(writable := Grant(s.writable, k, want && Refs(s.frames, s.leaf[k]) == 1))
    case CowSee(m, a) => s.(ops := s.ops[m := Shared(a, s.leaf[Key(m, a)])])
    case CowNoMemory(m) => s.(ops := s.ops[m := Idle])
    case CowAlloc(m, n, junk) =>
      s.(frames := s.frames[n := Frame(1, junk)], hold := s.hold[Hold(m, New) := n],
         ops := s.ops[m := Copying(s.Op(m).addr, s.Op(m).old_, n, Fresh)])
    case CowCopy(m) =>
      s.(frames := Written(s.frames, s.Op(m).new_, s.DataOf(s.Op(m).old_)),
         ops := s.ops[m := s.Op(m).(stage := Copied)])
    case CowUnmap(m) =>
      var k := Key(m, s.Op(m).addr);
      s.(leaf := s.leaf - {k}, writable := s.writable - {k}, hold := s.hold[Hold(m, Old) := s.Op(m).old_],
         ops := s.ops[m := s.Op(m).(stage := Unmapped)])
    case CowMap(m, want) =>
      var k := Key(m, s.Op(m).addr);
      s.(leaf := s.leaf[k := s.Op(m).new_], writable := Grant(s.writable, k, want), hold := s.hold - {Hold(m, New)},
         ops := s.ops[m := s.Op(m).(stage := Mapped)])
    case Flush(m) => s.(ops := s.ops[m := FlushedOp(s.Op(m))], tlb := {})
    case CowUnlock(m, i) =>
      s.(hold := (s.hold - {Hold(m, Old)})[Hold(m, Late(i)) := s.Op(m).old_], ops := s.ops[m := Idle])
    case FillAlloc(m, a, n, d) =>
      s.(frames := s.frames[n := Frame(1, d)], hold := s.hold[Hold(m, New) := n], ops := s.ops[m := Filling(a, n)])
    case FillMap(m, want) =>
      var k := Key(m, s.Op(m).addr);
      s.(leaf := s.leaf[k := s.Op(m).new_], writable := Grant(s.writable, k, want), hold := s.hold - {Hold(m, New)},
         ops := s.ops[m := Held])
    case FillFail(m, i) =>
      s.(hold := (s.hold - {Hold(m, New)})[Hold(m, Late(i)) := s.Op(m).new_], ops := s.ops[m := Idle])
    case LateFree(m, i) =>
      s.(hold := s.hold - {Hold(m, Late(i))}, frames := Dropped(s.frames, s.hold[Hold(m, Late(i))]))
    case UnmapStart(m) => s.(ops := s.ops[m := Unmapping(true)])
    case UnmapLeaf(m, a, i) =>
      var k := Key(m, a);
      s.(leaf := s.leaf - {k}, writable := s.writable - {k}, hold := s.hold[Hold(m, Batch(i)) := s.leaf[k]],
         ops := s.ops[m := Unmapping(false)])
    case BatchFree(m, i) =>
      s.(hold := s.hold - {Hold(m, Batch(i))}, frames := Dropped(s.frames, s.hold[Hold(m, Batch(i))]))
    case UnmapDone(m) => s.(ops := s.ops[m := Held])
    case CloneStart(m, d) => s.(ops := s.ops[m := Cloning(d, {}, Ready)][d := Newborn(m)])
    case CloneProtect(m, a) =>
      s.(writable := s.writable - {Key(m, a)}, ops := s.ops[m := s.Op(m).(at := Protected(a))])
    case CloneEnter(m) =>
      var op := s.Op(m);
      var a := op.at.addr;
      var k := Key(op.dst, a);
      s.(leaf := if Key(m, a) in s.leaf then s.leaf[k := s.leaf[Key(m, a)]] else s.leaf,
         pending := s.pending + {k}, ops := s.ops[m := op.(at := Entered(a))])
    case CloneCount(m) =>
      var op := s.Op(m);
      var a := op.at.addr;
      var k := Key(op.dst, a);
      s.(frames := if k in s.leaf then Taken(s.frames, s.leaf[k]) else s.frames,
         pending := s.pending - {k}, ops := s.ops[m := op.(done := op.done + {a}, at := Ready)])
    case CloneFinish(m) => s.(ops := s.ops[m := Held][s.Op(m).dst := Idle], tlb := {})
    case CloneAbort(m) => s.(ops := s.ops[m := Held][s.Op(m).dst := Dead], tlb := {})
    case Kill(m) => s.(ops := s.ops[m := Dead])
    case Tear(m, a) =>
      var k := Key(m, a);
      s.(leaf := s.leaf - {k}, writable := s.writable - {k}, frames := Dropped(s.frames, s.leaf[k]))
    case TlbFill(m, a) =>
      var k := Key(m, a);
      s.(tlb := s.tlb + {Entry(k, s.leaf[k], k in s.writable)})
    case TlbEvict(e) => s.(tlb := s.tlb - {e})
    case Store(e, d) => s.(frames := Written(s.frames, e.pfn, d))
  }

  // ---------------------------------------------------------------------------------------------
  // Every step keeps the invariant
  // ---------------------------------------------------------------------------------------------

  /** Whatever a leaf or an owner in flight names is in use. */
  lemma InFrames(s: State)
    requires Owned(s)
    ensures forall k :: k in s.leaf ==> s.leaf[k] in s.frames
    ensures forall h :: h in s.hold ==> s.hold[h] in s.frames
    ensures forall k :: k in s.writable || k in s.pending ==> k in s.leaf
  {
    forall k | k in s.leaf ensures s.leaf[k] in s.frames {
      assert PageOwned(s, s.leaf[k]) && k in Leaves(s, s.leaf[k]);
      assert Leaves(s, s.leaf[k]) - s.pending != {};
    }
    forall h | h in s.hold ensures s.hold[h] in s.frames {
      assert PageOwned(s, s.hold[h]) && h in Holds(s, s.hold[h]);
    }
  }

  /** A counted leaf of an mm that is not being cloned can go without stranding a leaf that is not counted. */
  lemma CountedRemains(s: State, k: Key)
    requires Inv(s) && k in s.leaf && k !in s.pending && !s.Op(k.mm).Cloning?
    ensures Leaves(s, s.leaf[k]) - {k} != {} ==> Leaves(s, s.leaf[k]) - {k} - s.pending != {}
  {
    var q := s.leaf[k];
    if j :| j in Leaves(s, q) - {k} {
      if j in s.pending {
        assert KeyOk(s, j);
        var m := s.Op(j.mm).parent;
        assert MmOk(s, m) && MmOk(s, j.mm);
        assert Key(m, j.addr) in Leaves(s, q) - {k} - s.pending;
      } else {
        assert j in Leaves(s, q) - {k} - s.pending;
      }
    }
  }

  /** A page with one reference and a counted leaf has no other owner. */
  lemma SoleOwner(s: State, m: Mm, a: Vaddr)
    requires Inv(s) && s.Op(m).Held? && Key(m, a) in s.leaf
    ensures Key(m, a) !in s.pending
    ensures var p := s.leaf[Key(m, a)];
      Refs(s.frames, p) == 1 ==> Leaves(s, p) == {Key(m, a)} && Holds(s, p) == {}
  {
    var k := Key(m, a);
    var p := s.leaf[k];
    assert KeyOk(s, k);
    assert PageOwned(s, p) && k in Leaves(s, p) - s.pending;
    if Refs(s.frames, p) == 1 {
      assert |Leaves(s, p) - s.pending - {k}| == 0;
      CountedRemains(s, k);
      assert Leaves(s, p) - s.pending - {k} == Leaves(s, p) - {k} - s.pending;
      assert Leaves(s, p) - {k} == {};
    }
  }

  lemma FreshPage(s: State, h: Hold)
    requires Owned(s) && h in s.hold && h.slot.New?
    ensures forall j :: j in s.leaf ==> s.leaf[j] != s.hold[h]
    ensures forall g :: g in s.hold && s.hold[g] == s.hold[h] ==> g == h
  {
    var p := s.hold[h];
    assert PageOwned(s, p) && h in Holds(s, p);
    assert forall j :: j in s.leaf && s.leaf[j] == p ==> j in Leaves(s, p);
    assert forall g :: g in s.hold && s.hold[g] == p ==> g in Holds(s, p);
  }

  lemma DroppedData(s: State, t: State, p: Pfn)
    requires t.frames == Dropped(s.frames, p)
    ensures forall x :: x in t.frames ==> t.DataOf(x) == s.DataOf(x)
  {
  }

  lemma WritableSole(s: State, m: Mm, a: Vaddr)
    requires Owned(s) && Key(m, a) in s.leaf
    requires Key(m, a) in s.writable
    ensures forall j :: j in s.leaf && s.leaf[j] == s.leaf[Key(m, a)] ==> j == Key(m, a)
    ensures forall h :: h in s.hold ==> s.hold[h] != s.leaf[Key(m, a)]
  {
    var p := s.leaf[Key(m, a)];
    assert PageOwned(s, p) && Key(m, a) in Leaves(s, p);
    assert forall j :: j in s.leaf && s.leaf[j] == p ==> j in Leaves(s, p);
    assert forall h :: h in s.hold && s.hold[h] == p ==> h in Holds(s, p);
  }

  /** A page that the fault saw shared is neither writable nor reachable through a cached writable translation. */
  lemma SharedReadOnly(s: State, m: Mm, a: Vaddr)
    requires Inv(s) && s.Op(m).Held? && Key(m, a) in s.leaf && Refs(s.frames, s.leaf[Key(m, a)]) != 1
    ensures ReadOnly(s, Key(m, a), s.leaf[Key(m, a)]) && NoWriters(s, s.leaf[Key(m, a)])
  {
    var k := Key(m, a);
    var p := s.leaf[k];
    assert KeyOk(s, k);
    assert PageOwned(s, p) && k in Leaves(s, p);
    forall e | e in s.tlb && e.pfn == p ensures !e.write {
      assert EntryOk(s, e);
      if e.write {
        SharedNoWriter(s, e, k);
        assert false;
      }
    }
  }

  lemma SharedNoWriter(s: State, e: Entry, k: Key)
    requires Inv(s) && e in s.tlb && e.write && k in s.leaf && s.leaf[k] == e.pfn && s.Op(k.mm).Held?
    ensures Refs(s.frames, e.pfn) == 1
  {
    assert EntryOk(s, e) && PageOwned(s, e.pfn) && KeyOk(s, k);
    assert k in Leaves(s, e.pfn);
    assert MmOk(s, e.key.mm);
    assert k == e.key;
    assert Leaves(s, e.pfn) == {k};
    assert Leaves(s, e.pfn) - s.pending == {k};
    assert forall h :: h in Holds(s, e.pfn) ==> HoldOk(s, h);
    assert Holds(s, e.pfn) == {};
  }

  lemma QuietEntries(s: State, t: State, m: Mm, o: Op)
    requires Inv(s)
    requires s.Op(m).Absent? || s.Op(m).Idle? || s.Op(m).Held? || s.Op(m).Shared? ||
             (s.Op(m).Unmapping? && forall i :: Hold(m, Batch(i)) !in s.hold)
    requires o == Idle || o == Held || o == Unmapping(true) || (o == Dead && forall e :: e in s.tlb ==> e.key.mm != m)
    requires t == s.(ops := s.ops[m := o])
    ensures forall e :: e in t.tlb ==> EntryOk(t, e)
  {
    hide Owned, Leaves, Holds, Naming;
    forall e | e in t.tlb ensures EntryOk(t, e) {
      assert EntryOk(s, e);
    }
  }

  lemma QuietMms(s: State, t: State, m: Mm, o: Op)
    requires Inv(s)
    requires s.Op(m).Absent? || s.Op(m).Idle? || s.Op(m).Held? || s.Op(m).Shared? ||
             (s.Op(m).Unmapping? && forall i :: Hold(m, Batch(i)) !in s.hold)
    requires o == Idle || o == Held || o == Unmapping(true) || (o == Dead && forall e :: e in s.tlb ==> e.key.mm != m)
    requires t == s.(ops := s.ops[m := o])
    requires Owned(t)
    ensures forall x :: MmOk(t, x)
  {
    hide Owned, Leaves, Holds, Naming, EntryOk;
    InFrames(s);
    InFrames(t);
    forall x ensures MmOk(t, x) {
      assert MmOk(s, x);
    }
  }

  /** The holder of the lock goes from one resting point to another. */
  lemma QuietKeeps(s: State, t: State, m: Mm, o: Op)
    requires Inv(s)
    requires s.Op(m).Absent? || s.Op(m).Idle? || s.Op(m).Held? || s.Op(m).Shared? ||
             (s.Op(m).Unmapping? && forall i :: Hold(m, Batch(i)) !in s.hold)
    requires o == Idle || o == Held || o == Unmapping(true) || (o == Dead && forall e :: e in s.tlb ==> e.key.mm != m)
    requires t == s.(ops := s.ops[m := o])
    ensures Inv(t)
  {
    hide Owned, Leaves, Holds, Naming;
    OwnedSame(s, t);
    InFrames(s);
    QuietMms(s, t, m, o);
    forall j | j in t.leaf ensures KeyOk(t, j) {
      assert KeyOk(s, j);
    }
    forall g | g in t.hold ensures HoldOk(t, g) {
      assert HoldOk(s, g);
    }
    QuietEntries(s, t, m, o);
  }

  /** The fault saw its page shared. */
  lemma CowSeeKeeps(s: State, t: State, m: Mm, a: Vaddr)
    requires Inv(s)
    requires Enabled(s, CowSee(m, a)) && t == Apply(s, CowSee(m, a))
    ensures Inv(t)
  {
    hide Owned, Leaves, Holds, Naming;
    OwnedSame(s, t);
    InFrames(s);
    InFrames(t);
    SharedReadOnly(s, m, a);
    forall x ensures MmOk(t, x) {
      assert MmOk(s, x);
    }
    forall j | j in t.leaf ensures KeyOk(t, j) {
      assert KeyOk(s, j);
    }
    forall g | g in t.hold ensures HoldOk(t, g) {
      assert HoldOk(s, g);
    }
    forall e | e in t.tlb ensures EntryOk(t, e) {
      assert EntryOk(s, e);
    }
  }

  lemma CloneStartEntries(s: State, t: State, m: Mm, d: Mm)
    requires Inv(s)
    requires s.Op(m).Held? && s.Op(d).Absent?
    requires t == s.(ops := s.ops[m := Cloning(d, {}, Ready)][d := Newborn(m)])
    ensures forall e :: e in t.tlb ==> EntryOk(t, e)
  {
    hide Owned, Leaves, Holds, Naming;
    InFrames(s);
    forall e | e in t.tlb ensures EntryOk(t, e) {
      assert EntryOk(s, e);
    }
  }

  lemma CloneStartMms(s: State, t: State, m: Mm, d: Mm)
    requires Inv(s)
    requires s.Op(m).Held? && s.Op(d).Absent?
    requires t == s.(ops := s.ops[m := Cloning(d, {}, Ready)][d := Newborn(m)])
    requires Owned(t)
    ensures forall x :: MmOk(t, x)
  {
    hide Owned, Leaves, Holds, Naming, EntryOk;
    InFrames(s);
    InFrames(t);
    forall x ensures MmOk(t, x) {
      assert MmOk(s, x);
    }
  }

  /** A clone begins with an empty child. */
  lemma CloneStartKeeps(s: State, t: State, m: Mm, d: Mm)
    requires Inv(s)
    requires s.Op(m).Held? && s.Op(d).Absent?
    requires t == s.(ops := s.ops[m := Cloning(d, {}, Ready)][d := Newborn(m)])
    ensures Inv(t)
  {
    hide Owned, Leaves, Holds, Naming;
    OwnedSame(s, t);
    InFrames(s);
    CloneStartMms(s, t, m, d);
    forall j | j in t.leaf ensures KeyOk(t, j) {
      assert KeyOk(s, j);
    }
    forall g | g in t.hold ensures HoldOk(t, g) {
      assert HoldOk(s, g);
    }
    CloneStartEntries(s, t, m, d);
  }

  /** A clone ends with a flush, and the child either starts to live or is torn down. */
  lemma CloneEndKeeps(s: State, t: State, m: Mm, o: Op)
    requires Inv(s)
    requires s.Op(m).Cloning? && !s.Op(m).at.Entered? && (o == Idle || o == Dead)
    requires t == s.(ops := s.ops[m := Held][s.Op(m).dst := o], tlb := {})
    ensures Inv(t)
  {
    hide Owned, Leaves, Holds, Naming;
    OwnedSame(s, t);
    assert MmOk(s, m);
    forall x ensures MmOk(t, x) {
      assert MmOk(s, x);
    }
    forall j | j in t.leaf ensures KeyOk(t, j) {
      assert KeyOk(s, j);
    }
    forall g | g in t.hold ensures HoldOk(t, g) {
      assert HoldOk(s, g);
    }
  }

  lemma FlushMms(s: State, t: State, m: Mm)
    requires Inv(s)
    requires Enabled(s, Flush(m)) && t == Apply(s, Flush(m))
    requires Owned(t)
    ensures forall x :: MmOk(t, x)
  {
    hide Owned, Leaves, Holds, Naming, EntryOk;
    forall x ensures MmOk(t, x) {
      assert MmOk(s, x);
    }
  }

  /** A flush. */
  lemma FlushKeeps(s: State, t: State, m: Mm)
    requires Inv(s)
    requires Enabled(s, Flush(m)) && t == Apply(s, Flush(m))
    ensures Inv(t)
  {
    hide Owned, Leaves, Holds, Naming;
    OwnedSame(s, t);
    FlushMms(s, t, m);
    forall j | j in t.leaf ensures KeyOk(t, j) {
      assert KeyOk(s, j);
    }
    forall g | g in t.hold ensures HoldOk(t, g) {
      assert HoldOk(s, g);
    }
  }

  lemma CloneProtectEntries(s: State, t: State, m: Mm, a: Vaddr)
    requires Inv(s)
    requires Enabled(s, CloneProtect(m, a)) && t == Apply(s, CloneProtect(m, a))
    ensures forall e :: e in t.tlb ==> EntryOk(t, e)
  {
    hide Owned, Leaves, Holds, Naming;
    assert MmOk(s, m);
    forall e | e in t.tlb ensures EntryOk(t, e) {
      assert EntryOk(s, e);
    }
  }

  lemma CloneProtectMms(s: State, t: State, m: Mm, a: Vaddr)
    requires Inv(s)
    requires Enabled(s, CloneProtect(m, a)) && t == Apply(s, CloneProtect(m, a))
    requires Owned(t)
    ensures forall x :: MmOk(t, x)
  {
    hide Owned, Leaves, Holds, Naming, EntryOk;
    InFrames(s);
    InFrames(t);
    assert MmOk(s, m);
    forall x ensures MmOk(t, x) {
      assert MmOk(s, x);
    }
  }

  /** A clone takes the write permission of one parent leaf. */
  lemma CloneProtectKeeps(s: State, t: State, m: Mm, a: Vaddr)
    requires Inv(s)
    requires Enabled(s, CloneProtect(m, a)) && t == Apply(s, CloneProtect(m, a))
    ensures Inv(t)
  {
    hide Owned, Leaves, Holds, Naming;
    OwnedSame(s, t);
    InFrames(s);
    assert MmOk(s, m);
    CloneProtectMms(s, t, m, a);
    forall j | j in t.leaf ensures KeyOk(t, j) {
      assert KeyOk(s, j);
    }
    forall g | g in t.hold ensures HoldOk(t, g) {
      assert HoldOk(s, g);
    }
    CloneProtectEntries(s, t, m, a);
  }

  /** A leaf gets new permissions. */
  lemma ProtectKeeps(s: State, t: State, m: Mm, a: Vaddr, want: bool)
    requires Inv(s)
    requires Enabled(s, Protect(m, a, want)) && t == Apply(s, Protect(m, a, want))
    ensures Inv(t)
  {
    hide Owned, Leaves, Holds, Naming;
    SoleOwner(s, m, a);
    OwnedSame(s, t);
    InFrames(s);
    InFrames(t);
    forall x ensures MmOk(t, x) {
      assert MmOk(s, x);
    }
    forall j | j in t.leaf ensures KeyOk(t, j) {
      assert KeyOk(s, j);
    }
    forall g | g in t.hold ensures HoldOk(t, g) {
      assert HoldOk(s, g);
    }
    forall e | e in t.tlb ensures EntryOk(t, e) {
      assert EntryOk(s, e);
    }
  }

  lemma CowUnmapEntries(s: State, t: State, m: Mm)
    requires Inv(s)
    requires Enabled(s, CowUnmap(m)) && t == Apply(s, CowUnmap(m))
    ensures forall e :: e in t.tlb ==> EntryOk(t, e)
  {
    hide Owned, Leaves, Holds, Naming;
    var k, h := Key(m, s.Op(m).addr), Hold(m, Old);
    assert MmOk(s, m);
    assert h in s.hold ==> HoldOk(s, h);
    forall e | e in t.tlb ensures EntryOk(t, e) {
      assert EntryOk(s, e);
      assert t.hold[h] == s.leaf[k];
    }
  }

  lemma CowUnmapOwn(s: State, t: State, m: Mm)
    requires Inv(s)
    requires Enabled(s, CowUnmap(m)) && t == Apply(s, CowUnmap(m))
    requires Owned(t)
    ensures MmOk(t, m)
  {
    hide Owned, Leaves, Holds, Naming, EntryOk;
    var k, h := Key(m, s.Op(m).addr), Hold(m, Old);
    assert MmOk(s, m);
    assert h in s.hold ==> HoldOk(s, h);
    InFrames(s);
    InFrames(t);
  }

  lemma CowUnmapOther(s: State, t: State, m: Mm, x: Mm)
    requires Inv(s)
    requires Enabled(s, CowUnmap(m)) && t == Apply(s, CowUnmap(m))
    requires Owned(t)
    requires x != m
    ensures MmOk(t, x)
  {
    hide Owned, Leaves, Holds, Naming, EntryOk, HoldOk, KeyOk;
    assert MmOk(s, m) && MmOk(s, x);
  }

  lemma CowUnmapMms(s: State, t: State, m: Mm)
    requires Inv(s)
    requires Enabled(s, CowUnmap(m)) && t == Apply(s, CowUnmap(m))
    requires Owned(t)
    ensures forall x :: MmOk(t, x)
  {
    hide Inv, Owned, MmOk;
    forall x ensures MmOk(t, x) {
      if x == m { CowUnmapOwn(s, t, m); } else { CowUnmapOther(s, t, m, x); }
    }
  }

  /** The shared page leaves the table of the faulting mm. */
  lemma CowUnmapKeeps(s: State, t: State, m: Mm)
    requires Inv(s)
    requires Enabled(s, CowUnmap(m)) && t == Apply(s, CowUnmap(m))
    ensures Inv(t)
  {
    hide Owned, Leaves, Holds, Naming;
    var k, h := Key(m, s.Op(m).addr), Hold(m, Old);
    assert MmOk(s, m);
    assert h in s.hold ==> HoldOk(s, h);
    CountedRemains(s, k);
    OwnedDetach(s, t, k, h);
    InFrames(s);
    CowUnmapMms(s, t, m);
    forall j | j in t.leaf ensures KeyOk(t, j) {
      assert KeyOk(s, j);
    }
    forall g | g in t.hold ensures HoldOk(t, g) {
      if g != h { assert HoldOk(s, g); }
    }
    CowUnmapEntries(s, t, m);
  }

  lemma UnmapLeafEntries(s: State, t: State, m: Mm, a: Vaddr, i: nat)
    requires Inv(s)
    requires s.Op(m).Unmapping? && Key(m, a) in s.leaf && Hold(m, Batch(i)) !in s.hold
    requires var k := Key(m, a);
      t == s.(leaf := s.leaf - {k}, writable := s.writable - {k}, hold := s.hold[Hold(m, Batch(i)) := s.leaf[k]],
              ops := s.ops[m := Unmapping(false)])
    ensures forall e :: e in t.tlb ==> EntryOk(t, e)
  {
    hide Owned, Leaves, Holds, Naming;
    var k, h := Key(m, a), Hold(m, Batch(i));
    forall e | e in t.tlb ensures EntryOk(t, e) {
      assert EntryOk(s, e);
      assert MmOk(s, e.key.mm);
      assert t.hold[h] == s.leaf[k];
    }
  }

  lemma UnmapLeafMms(s: State, t: State, m: Mm, a: Vaddr, i: nat)
    requires Inv(s)
    requires s.Op(m).Unmapping? && Key(m, a) in s.leaf && Hold(m, Batch(i)) !in s.hold
    requires var k := Key(m, a);
      t == s.(leaf := s.leaf - {k}, writable := s.writable - {k}, hold := s.hold[Hold(m, Batch(i)) := s.leaf[k]],
              ops := s.ops[m := Unmapping(false)])
    requires Owned(t)
    ensures forall x :: MmOk(t, x)
  {
    hide Owned, Leaves, Holds, Naming, EntryOk;
    var k, h := Key(m, a), Hold(m, Batch(i));
    assert KeyOk(s, k);
    InFrames(s);
    InFrames(t);
    forall x ensures MmOk(t, x) {
      assert MmOk(s, x);
    }
  }

  /** A page leaves the table and waits for the flush. */
  lemma UnmapLeafKeeps(s: State, t: State, m: Mm, a: Vaddr, i: nat)
    requires Inv(s)
    requires s.Op(m).Unmapping? && Key(m, a) in s.leaf && Hold(m, Batch(i)) !in s.hold
    requires var k := Key(m, a);
      t == s.(leaf := s.leaf - {k}, writable := s.writable - {k}, hold := s.hold[Hold(m, Batch(i)) := s.leaf[k]],
              ops := s.ops[m := Unmapping(false)])
    ensures Inv(t)
  {
    hide Owned, Leaves, Holds, Naming;
    var k, h := Key(m, a), Hold(m, Batch(i));
    assert KeyOk(s, k);
    CountedRemains(s, k);
    OwnedDetach(s, t, k, h);
    InFrames(s);
    UnmapLeafMms(s, t, m, a, i);
    forall j | j in t.leaf ensures KeyOk(t, j) {
      assert KeyOk(s, j);
    }
    forall g | g in t.hold ensures HoldOk(t, g) {
      if g != h { assert HoldOk(s, g); }
    }
    UnmapLeafEntries(s, t, m, a, i);
  }

  lemma MapEntries(s: State, t: State, m: Mm, o: Op, want: bool)
    requires Inv(s)
    requires (InCopy(s.Op(m), Unmapped) && o == s.Op(m).(stage := Mapped)) || (s.Op(m).Filling? && o == Held)
    requires var k := Key(m, s.Op(m).addr);
      t == s.(leaf := s.leaf[k := s.Op(m).new_], writable := Grant(s.writable, k, want),
              hold := s.hold - {Hold(m, New)}, ops := s.ops[m := o])
    ensures forall e :: e in t.tlb ==> EntryOk(t, e)
  {
    hide Owned, Leaves, Holds, Naming;
    assert MmOk(s, m);
    forall e | e in t.tlb ensures EntryOk(t, e) {
      assert EntryOk(s, e);
    }
  }

  lemma MapOwn(s: State, t: State, m: Mm, o: Op, want: bool)
    requires Inv(s)
    requires (InCopy(s.Op(m), Unmapped) && o == s.Op(m).(stage := Mapped)) || (s.Op(m).Filling? && o == Held)
    requires var k := Key(m, s.Op(m).addr);
      t == s.(leaf := s.leaf[k := s.Op(m).new_], writable := Grant(s.writable, k, want),
              hold := s.hold - {Hold(m, New)}, ops := s.ops[m := o])
    requires Owned(t)
    ensures MmOk(t, m)
  {
    hide Owned, Leaves, Holds, Naming, EntryOk;
    var k, h := Key(m, s.Op(m).addr), Hold(m, New);
    assert MmOk(s, m);
    InFrames(s);
    InFrames(t);
  }

  lemma MapOther(s: State, t: State, m: Mm, o: Op, want: bool, x: Mm)
    requires Inv(s)
    requires (InCopy(s.Op(m), Unmapped) && o == s.Op(m).(stage := Mapped)) || (s.Op(m).Filling? && o == Held)
    requires var k := Key(m, s.Op(m).addr);
      t == s.(leaf := s.leaf[k := s.Op(m).new_], writable := Grant(s.writable, k, want),
              hold := s.hold - {Hold(m, New)}, ops := s.ops[m := o])
    requires Owned(t)
    requires x != m
    ensures MmOk(t, x)
  {
    hide Owned, Leaves, Holds, Naming, EntryOk, HoldOk, KeyOk;
    assert MmOk(s, m) && MmOk(s, x);
  }

  lemma MapMms(s: State, t: State, m: Mm, o: Op, want: bool)
    requires Inv(s)
    requires (InCopy(s.Op(m), Unmapped) && o == s.Op(m).(stage := Mapped)) || (s.Op(m).Filling? && o == Held)
    requires var k := Key(m, s.Op(m).addr);
      t == s.(leaf := s.leaf[k := s.Op(m).new_], writable := Grant(s.writable, k, want),
              hold := s.hold - {Hold(m, New)}, ops := s.ops[m := o])
    requires Owned(t)
    ensures forall x :: MmOk(t, x)
  {
    hide Inv, Owned, MmOk;
    forall x ensures MmOk(t, x) {
      if x == m { MapOwn(s, t, m, o, want); } else { MapOther(s, t, m, o, want, x); }
    }
  }

  /** A fault enters the page it prepared. */
  lemma MapKeeps(s: State, t: State, m: Mm, o: Op, want: bool)
    requires Inv(s)
    requires (InCopy(s.Op(m), Unmapped) && o == s.Op(m).(stage := Mapped)) || (s.Op(m).Filling? && o == Held)
    requires var k := Key(m, s.Op(m).addr);
      t == s.(leaf := s.leaf[k := s.Op(m).new_], writable := Grant(s.writable, k, want),
              hold := s.hold - {Hold(m, New)}, ops := s.ops[m := o])
    ensures Inv(t)
  {
    hide Owned, Leaves, Holds, Naming;
    var k, h := Key(m, s.Op(m).addr), Hold(m, New);
    assert MmOk(s, m);
    InFrames(s);
    OwnedAttach(s, t, h, k);
    MapMms(s, t, m, o, want);
    forall j | j in t.leaf ensures KeyOk(t, j) {
      if j != k { assert KeyOk(s, j); }
    }
    forall g | g in t.hold ensures HoldOk(t, g) {
      assert HoldOk(s, g);
    }
    MapEntries(s, t, m, o, want);
  }

  lemma AllocEntries(s: State, t: State, m: Mm, n: Pfn, d: Data, o: Op)
    requires Inv(s)
    requires n !in s.frames
    requires (s.Op(m).Shared? && o == Copying(s.Op(m).addr, s.Op(m).old_, n, Fresh)) ||
             (s.Op(m).Held? && o.Filling? && o.new_ == n && Key(m, o.addr) !in s.leaf)
    requires t == s.(frames := s.frames[n := Frame(1, d)], hold := s.hold[Hold(m, New) := n], ops := s.ops[m := o])
    ensures forall e :: e in t.tlb ==> EntryOk(t, e)
  {
    hide Owned, Leaves, Holds, Naming;
    InFrames(s);
    forall e | e in t.tlb ensures EntryOk(t, e) {
      assert EntryOk(s, e);
    }
  }

  lemma AllocMms(s: State, t: State, m: Mm, n: Pfn, d: Data, o: Op)
    requires Inv(s)
    requires n !in s.frames
    requires (s.Op(m).Shared? && o == Copying(s.Op(m).addr, s.Op(m).old_, n, Fresh)) ||
             (s.Op(m).Held? && o.Filling? && o.new_ == n && Key(m, o.addr) !in s.leaf)
    requires t == s.(frames := s.frames[n := Frame(1, d)], hold := s.hold[Hold(m, New) := n], ops := s.ops[m := o])
    requires Owned(t)
    ensures forall x :: MmOk(t, x)
  {
    hide Owned, Leaves, Holds, Naming, EntryOk;
    var h := Hold(m, New);
    assert h in s.hold ==> HoldOk(s, h);
    InFrames(s);
    InFrames(t);
    forall x ensures MmOk(t, x) {
      assert MmOk(s, x);
    }
  }

  /** A fault allocates a page. */
  lemma AllocKeeps(s: State, t: State, m: Mm, n: Pfn, d: Data, o: Op)
    requires Inv(s)
    requires n !in s.frames
    requires (s.Op(m).Shared? && o == Copying(s.Op(m).addr, s.Op(m).old_, n, Fresh)) ||
             (s.Op(m).Held? && o.Filling? && o.new_ == n && Key(m, o.addr) !in s.leaf)
    requires t == s.(frames := s.frames[n := Frame(1, d)], hold := s.hold[Hold(m, New) := n], ops := s.ops[m := o])
    ensures Inv(t)
  {
    hide Owned, Leaves, Holds, Naming;
    var h := Hold(m, New);
    assert h in s.hold ==> HoldOk(s, h);
    OwnedAlloc(s, t, h, n, d);
    InFrames(s);
    AllocMms(s, t, m, n, d, o);
    forall j | j in t.leaf ensures KeyOk(t, j) {
      assert KeyOk(s, j);
    }
    forall g | g in t.hold ensures HoldOk(t, g) {
      if g != h { assert HoldOk(s, g); }
    }
    AllocEntries(s, t, m, n, d, o);
  }

  lemma CowCopyMms(s: State, t: State, m: Mm)
    requires Inv(s)
    requires Enabled(s, CowCopy(m)) && t == Apply(s, CowCopy(m))
    requires Owned(t)
    ensures forall x :: MmOk(t, x)
  {
    hide Owned, Leaves, Holds, Naming, EntryOk;
    assert MmOk(s, m);
    FreshPage(s, Hold(m, New));
    InFrames(s);
    InFrames(t);
    forall x ensures MmOk(t, x) {
      assert MmOk(s, x);
    }
  }

  /** A fault copies the shared page. */
  lemma CowCopyKeeps(s: State, t: State, m: Mm)
    requires Inv(s)
    requires Enabled(s, CowCopy(m)) && t == Apply(s, CowCopy(m))
    ensures Inv(t)
  {
    hide Owned, Leaves, Holds, Naming;
    assert MmOk(s, m);
    FreshPage(s, Hold(m, New));
    OwnedSame(s, t);
    InFrames(s);
    CowCopyMms(s, t, m);
    forall j | j in t.leaf ensures KeyOk(t, j) {
      assert KeyOk(s, j);
    }
    forall g | g in t.hold ensures HoldOk(t, g) {
      assert HoldOk(s, g);
    }
    forall e | e in t.tlb ensures EntryOk(t, e) {
      assert EntryOk(s, e);
    }
  }

  lemma SetAsideEntries(s: State, t: State, m: Mm, slot: Slot, i: nat)
    requires Inv(s)
    requires Hold(m, Late(i)) !in s.hold
    requires (InCopy(s.Op(m), Flushed) && slot == Old) || (s.Op(m).Filling? && slot == New)
    requires t == s.(hold := (s.hold - {Hold(m, slot)})
                             [Hold(m, Late(i)) := if slot.Old? then s.Op(m).old_ else s.Op(m).new_],
                     ops := s.ops[m := Idle])
    ensures forall e :: e in t.tlb ==> EntryOk(t, e)
  {
    hide Owned, Leaves, Holds, Naming;
    assert MmOk(s, m);
    forall e | e in t.tlb ensures EntryOk(t, e) {
      assert EntryOk(s, e);
    }
  }

  /** A fault drops the lock while it still owns a page. */
  lemma SetAsideKeeps(s: State, t: State, m: Mm, slot: Slot, i: nat)
    requires Inv(s)
    requires Hold(m, Late(i)) !in s.hold
    requires (InCopy(s.Op(m), Flushed) && slot == Old) || (s.Op(m).Filling? && slot == New)
    requires t == s.(hold := (s.hold - {Hold(m, slot)})
                             [Hold(m, Late(i)) := if slot.Old? then s.Op(m).old_ else s.Op(m).new_],
                     ops := s.ops[m := Idle])
    ensures Inv(t)
  {
    hide Owned, Leaves, Holds, Naming;
    var h := Hold(m, Late(i));
    assert MmOk(s, m);
    OwnedMove(s, t, Hold(m, slot), h);
    InFrames(s);
    InFrames(t);
    forall x ensures MmOk(t, x) {
      assert MmOk(s, x);
    }
    forall j | j in t.leaf ensures KeyOk(t, j) {
      assert KeyOk(s, j);
    }
    forall g | g in t.hold ensures HoldOk(t, g) {
      if g != h { assert HoldOk(s, g); }
    }
    SetAsideEntries(s, t, m, slot, i);
  }

  lemma FreeMms(s: State, t: State, h: Hold)
    requires Inv(s)
    requires h in s.hold && (h.slot.Late? || (h.slot.Batch? && s.Op(h.mm) == Unmapping(true)))
    requires t == s.(hold := s.hold - {h}, frames := Dropped(s.frames, s.hold[h]))
    requires Owned(t)
    ensures forall x :: MmOk(t, x)
  {
    hide Owned, Leaves, Holds, Naming, EntryOk;
    InFrames(s);
    InFrames(t);
    DroppedData(s, t, s.hold[h]);
    forall x ensures MmOk(t, x) {
      assert MmOk(s, x);
      if InCopy(s.Op(x), Copied) {
        assert Keeps(t, x, New, s.Op(x).new_) && ReadOnly(t, Key(x, s.Op(x).addr), s.Op(x).old_);
      }
    }
  }

  /** The owner of a page in flight frees it. */
  lemma FreeKeeps(s: State, t: State, h: Hold)
    requires Inv(s)
    requires h in s.hold && (h.slot.Late? || (h.slot.Batch? && s.Op(h.mm) == Unmapping(true)))
    requires t == s.(hold := s.hold - {h}, frames := Dropped(s.frames, s.hold[h]))
    ensures Inv(t)
  {
    hide Owned, Leaves, Holds, Naming;
    InFrames(s);
    OwnedFree(s, t, h);
    DroppedData(s, t, s.hold[h]);
    FreeMms(s, t, h);
    forall j | j in t.leaf ensures KeyOk(t, j) {
      assert KeyOk(s, j);
    }
    forall g | g in t.hold ensures HoldOk(t, g) {
      assert HoldOk(s, g);
    }
    forall e | e in t.tlb ensures EntryOk(t, e) {
      assert EntryOk(s, e);
    }
  }

  lemma CloneEnterEntries(s: State, t: State, m: Mm)
    requires Inv(s)
    requires Enabled(s, CloneEnter(m)) && t == Apply(s, CloneEnter(m))
    ensures forall e :: e in t.tlb ==> EntryOk(t, e)
  {
    hide Owned, Leaves, Holds, Naming, HoldOk, KeyOk, NoWriters;
    assert MmOk(s, m);
    forall e | e in t.tlb ensures EntryOk(t, e) {
      assert EntryOk(s, e);
      assert MmOk(s, e.key.mm);
    }
  }

  lemma CloneEnterOwn(s: State, t: State, m: Mm)
    requires Inv(s)
    requires Enabled(s, CloneEnter(m)) && t == Apply(s, CloneEnter(m))
    requires Owned(t)
    ensures MmOk(t, m)
  {
    hide Owned, Leaves, Holds, Naming, EntryOk;
    var a := s.Op(m).at.addr;
    var k := Key(s.Op(m).dst, a);
    assert MmOk(s, m);
    InFrames(s);
    InFrames(t);
  }

  lemma CloneEnterOther(s: State, t: State, m: Mm, x: Mm)
    requires Inv(s)
    requires Enabled(s, CloneEnter(m)) && t == Apply(s, CloneEnter(m))
    requires Owned(t)
    requires x != m
    ensures MmOk(t, x)
  {
    hide Owned, Leaves, Holds, Naming, EntryOk, HoldOk, KeyOk;
    assert MmOk(s, m) && MmOk(s, x);
  }

  lemma CloneEnterMms(s: State, t: State, m: Mm)
    requires Inv(s)
    requires Enabled(s, CloneEnter(m)) && t == Apply(s, CloneEnter(m))
    requires Owned(t)
    ensures forall x :: MmOk(t, x)
  {
    hide Inv, Owned, MmOk;
    forall x ensures MmOk(t, x) {
      if x == m { CloneEnterOwn(s, t, m); } else { CloneEnterOther(s, t, m, x); }
    }
  }

  /** The clone enters the page in the child. */
  lemma CloneEnterKeeps(s: State, t: State, m: Mm)
    requires Inv(s)
    requires Enabled(s, CloneEnter(m)) && t == Apply(s, CloneEnter(m))
    ensures Inv(t)
  {
    hide Owned, Leaves, Holds, Naming;
    var a := s.Op(m).at.addr;
    var k := Key(s.Op(m).dst, a);
    assert MmOk(s, m);
    InFrames(s);
    OwnedEnter(s, t, Key(m, a), k);
    CloneEnterMms(s, t, m);
    forall j | j in t.leaf ensures KeyOk(t, j) {
      if j != k { assert KeyOk(s, j); }
    }
    forall g | g in t.hold ensures HoldOk(t, g) {
      assert HoldOk(s, g);
    }
    CloneEnterEntries(s, t, m);
  }

  lemma CloneCountEntries(s: State, t: State, m: Mm)
    requires Inv(s)
    requires Enabled(s, CloneCount(m)) && t == Apply(s, CloneCount(m))
    ensures forall e :: e in t.tlb ==> EntryOk(t, e)
  {
    hide Owned, Leaves, Holds, Naming;
    forall e | e in t.tlb ensures EntryOk(t, e) {
      assert EntryOk(s, e);
    }
  }

  lemma CloneCountOwn(s: State, t: State, m: Mm)
    requires Inv(s)
    requires Enabled(s, CloneCount(m)) && t == Apply(s, CloneCount(m))
    requires Owned(t)
    ensures MmOk(t, m)
  {
    hide Owned, Leaves, Holds, Naming, EntryOk;
    var k := Key(s.Op(m).dst, s.Op(m).at.addr);
    assert MmOk(s, m);
    InFrames(s);
    InFrames(t);
  }

  lemma CloneCountMms(s: State, t: State, m: Mm)
    requires Inv(s)
    requires Enabled(s, CloneCount(m)) && t == Apply(s, CloneCount(m))
    requires Owned(t)
    ensures forall x :: MmOk(t, x)
  {
    hide Owned, Leaves, Holds, Naming, EntryOk;
    var k := Key(s.Op(m).dst, s.Op(m).at.addr);
    assert MmOk(s, m);
    InFrames(s);
    InFrames(t);
    CloneCountOwn(s, t, m);
    forall x | x != m ensures MmOk(t, x) {
      assert MmOk(s, x);
    }
  }

  /** The clone counts what it entered. */
  lemma CloneCountKeeps(s: State, t: State, m: Mm)
    requires Inv(s)
    requires Enabled(s, CloneCount(m)) && t == Apply(s, CloneCount(m))
    ensures Inv(t)
  {
    hide Owned, Leaves, Holds, Naming;
    var k := Key(s.Op(m).dst, s.Op(m).at.addr);
    assert MmOk(s, m);
    InFrames(s);
    OwnedCount(s, t, k);
    CloneCountMms(s, t, m);
    forall j | j in t.leaf ensures KeyOk(t, j) {
      assert KeyOk(s, j) && MmOk(s, j.mm);
    }
    forall g | g in t.hold ensures HoldOk(t, g) {
      assert HoldOk(s, g);
    }
    CloneCountEntries(s, t, m);
  }

  lemma TearEntries(s: State, t: State, m: Mm, a: Vaddr)
    requires Inv(s)
    requires s.Op(m).Dead? && Key(m, a) in s.leaf
    requires var k := Key(m, a);
      t == s.(leaf := s.leaf - {k}, writable := s.writable - {k}, frames := Dropped(s.frames, s.leaf[k]))
    ensures forall e :: e in t.tlb ==> EntryOk(t, e)
  {
    hide Owned, Leaves, Holds, Naming;
    assert KeyOk(s, Key(m, a));
    forall e | e in t.tlb ensures EntryOk(t, e) {
      assert EntryOk(s, e);
    }
  }

  lemma TearMms(s: State, t: State, m: Mm, a: Vaddr)
    requires Inv(s)
    requires s.Op(m).Dead? && Key(m, a) in s.leaf
    requires var k := Key(m, a);
      t == s.(leaf := s.leaf - {k}, writable := s.writable - {k}, frames := Dropped(s.frames, s.leaf[k]))
    requires Owned(t)
    ensures forall x :: MmOk(t, x)
  {
    hide Owned, Leaves, Holds, Naming, EntryOk;
    var k := Key(m, a);
    assert KeyOk(s, k);
    InFrames(s);
    InFrames(t);
    DroppedData(s, t, s.leaf[k]);
    forall x ensures MmOk(t, x) {
      assert MmOk(s, x);
      if InCopy(s.Op(x), Copied) {
        assert Keeps(t, x, New, s.Op(x).new_) && ReadOnly(t, Key(x, s.Op(x).addr), s.Op(x).old_);
      }
    }
  }

  /** A dead mm gives a page back. */
  lemma TearKeeps(s: State, t: State, m: Mm, a: Vaddr)
    requires Inv(s)
    requires s.Op(m).Dead? && Key(m, a) in s.leaf
    requires var k := Key(m, a);
      t == s.(leaf := s.leaf - {k}, writable := s.writable - {k}, frames := Dropped(s.frames, s.leaf[k]))
    ensures Inv(t)
  {
    hide Owned, Leaves, Holds, Naming;
    var k := Key(m, a);
    assert KeyOk(s, k);
    InFrames(s);
    CountedRemains(s, k);
    OwnedTear(s, t, k);
    DroppedData(s, t, s.leaf[k]);
    TearMms(s, t, m, a);
    forall j | j in t.leaf ensures KeyOk(t, j) {
      assert KeyOk(s, j);
    }
    forall g | g in t.hold ensures HoldOk(t, g) {
      assert HoldOk(s, g);
    }
    TearEntries(s, t, m, a);
  }

  lemma TlbFillMms(s: State, t: State, m: Mm, a: Vaddr)
    requires Inv(s)
    requires Enabled(s, TlbFill(m, a)) && t == Apply(s, TlbFill(m, a))
    requires Owned(t)
    ensures forall x :: MmOk(t, x)
  {
    hide Owned, Leaves, Holds, Naming, EntryOk;
    var f := Entry(Key(m, a), s.leaf[Key(m, a)], Key(m, a) in s.writable);
    if f.write { WritableSole(s, m, a); }
    InFrames(s);
    InFrames(t);
    forall x ensures MmOk(t, x) {
      assert MmOk(s, x);
    }
  }

  /** A CPU caches a translation. */
  lemma TlbFillKeeps(s: State, t: State, m: Mm, a: Vaddr)
    requires Inv(s)
    requires Enabled(s, TlbFill(m, a)) && t == Apply(s, TlbFill(m, a))
    ensures Inv(t)
  {
    hide Owned, Leaves, Holds, Naming;
    var f := Entry(Key(m, a), s.leaf[Key(m, a)], Key(m, a) in s.writable);
    if f.write { WritableSole(s, m, a); }
    OwnedSame(s, t);
    InFrames(s);
    TlbFillMms(s, t, m, a);
    forall j | j in t.leaf ensures KeyOk(t, j) {
      assert KeyOk(s, j);
    }
    forall g | g in t.hold ensures HoldOk(t, g) {
      assert HoldOk(s, g);
    }
    forall e | e in t.tlb ensures EntryOk(t, e) {
      if e != f { assert EntryOk(s, e); }
    }
  }

  /** A CPU drops a translation. */
  lemma TlbEvictKeeps(s: State, t: State, f: Entry)
    requires Inv(s)
    requires t == s.(tlb := s.tlb - {f})
    ensures Inv(t)
  {
    hide Owned, Leaves, Holds, Naming;
    OwnedSame(s, t);
    InFrames(s);
    InFrames(t);
    forall x ensures MmOk(t, x) {
      assert MmOk(s, x);
    }
    forall j | j in t.leaf ensures KeyOk(t, j) {
      assert KeyOk(s, j);
    }
    forall g | g in t.hold ensures HoldOk(t, g) {
      assert HoldOk(s, g);
    }
    forall e | e in t.tlb ensures EntryOk(t, e) {
      assert EntryOk(s, e);
    }
  }

  /** A CPU stores through a cached translation. */
  lemma StoreKeeps(s: State, t: State, f: Entry, d: Data)
    requires Inv(s)
    requires f in s.tlb && f.write && t == s.(frames := Written(s.frames, f.pfn, d))
    ensures Inv(t)
  {
    hide Owned, Leaves, Holds, Naming;
    OwnedSame(s, t);
    InFrames(s);
    InFrames(t);
    forall x ensures MmOk(t, x) {
      assert MmOk(s, x);
    }
    forall j | j in t.leaf ensures KeyOk(t, j) {
      assert KeyOk(s, j);
    }
    forall g | g in t.hold ensures HoldOk(t, g) {
      assert HoldOk(s, g);
    }
    forall e | e in t.tlb ensures EntryOk(t, e) {
      assert EntryOk(s, e);
    }
  }

  /** The steps of a page fault. */
  ghost predicate OfFault(e: Event) {
    || e.Protect? || e.CowSee? || e.CowNoMemory? || e.CowAlloc? || e.CowCopy? || e.CowUnmap? || e.CowMap?
    || e.CowUnlock? || e.FillAlloc? || e.FillMap? || e.FillFail?
  }

  lemma FaultKeeps(s: State, t: State, e: Event)
    requires Inv(s) && Enabled(s, e) && OfFault(e) && t == Apply(s, e)
    ensures Inv(t)
  {
    hide Inv, Refs, Taken, Dropped, Written, Live, Grant, FlushedOp;
    if e.Protect? { ProtectKeeps(s, t, e.m, e.a, e.want); }
    else if e.CowSee? { CowSeeKeeps(s, t, e.m, e.a); }
    else if e.CowNoMemory? { QuietKeeps(s, t, e.m, Idle); }
    else if e.CowAlloc? { AllocKeeps(s, t, e.m, e.n, e.junk, t.Op(e.m)); }
    else if e.CowCopy? { CowCopyKeeps(s, t, e.m); }
    else if e.CowUnmap? { CowUnmapKeeps(s, t, e.m); }
    else if e.CowMap? { MapKeeps(s, t, e.m, t.Op(e.m), e.want); }
    else if e.CowUnlock? { SetAsideKeeps(s, t, e.m, Old, e.i); }
    else if e.FillAlloc? { AllocKeeps(s, t, e.m, e.n, e.d, t.Op(e.m)); }
    else if e.FillMap? { MapKeeps(s, t, e.m, Held, e.want); }
    else { SetAsideKeeps(s, t, e.m, New, e.i); }
  }

  lemma RestKeeps(s: State, t: State, e: Event)
    requires Inv(s) && Enabled(s, e) && !OfFault(e) && t == Apply(s, e)
    ensures Inv(t)
  {
    hide Inv, Refs, Taken, Dropped, Written, Live, Grant, FlushedOp;
    match e
    case NewMm(m) => QuietKeeps(s, t, m, Idle);
    case Lock(m) => QuietKeeps(s, t, m, Held);
    case Unlock(m) => QuietKeeps(s, t, m, Idle);
    case Flush(m) => FlushKeeps(s, t, m);
    case LateFree(m, i) => FreeKeeps(s, t, Hold(m, Late(i)));
    case UnmapStart(m) => QuietKeeps(s, t, m, Unmapping(true));
    case UnmapLeaf(m, a, i) => UnmapLeafKeeps(s, t, m, a, i);
    case BatchFree(m, i) => FreeKeeps(s, t, Hold(m, Batch(i)));
    case UnmapDone(m) => QuietKeeps(s, t, m, Held);
    case CloneStart(m, d) => CloneStartKeeps(s, t, m, d);
    case CloneProtect(m, a) => CloneProtectKeeps(s, t, m, a);
    case CloneEnter(m) => CloneEnterKeeps(s, t, m);
    case CloneCount(m) => CloneCountKeeps(s, t, m);
    case CloneFinish(m) => CloneEndKeeps(s, t, m, Idle);
    case CloneAbort(m) => CloneEndKeeps(s, t, m, Dead);
    case Kill(m) => QuietKeeps(s, t, m, Dead);
    case Tear(m, a) => TearKeeps(s, t, m, a);
    case TlbFill(m, a) => TlbFillKeeps(s, t, m, a);
    case TlbEvict(f) => TlbEvictKeeps(s, t, f);
    case Store(f, d) => StoreKeeps(s, t, f, d);
    case _ =>
  }

  /** Every step keeps the invariant. */
  lemma StepKeeps(s: State, e: Event)
    requires Inv(s) && Enabled(s, e)
    ensures Inv(Apply(s, e))
  {
    hide Inv, Enabled, Apply;
    if OfFault(e) { FaultKeeps(s, Apply(s, e), e); } else { RestKeeps(s, Apply(s, e), e); }
  }

  // ---------------------------------------------------------------------------------------------
  // The memory an mm sees
  // ---------------------------------------------------------------------------------------------

  /** The page behind an address; a fault in the middle of replacing it counts as already done. */
  ghost function PageAt(s: State, k: Key): Option<Pfn> {
    if k in s.leaf then Some(s.leaf[k])
    else if InCopy(s.Op(k.mm), Unmapped) && s.Op(k.mm).addr == k.addr then Some(s.Op(k.mm).new_)
    else None
  }

  /** The contents an address of an mm has; an mm that does not live yet, or no longer, has none. */
  ghost function View(s: State, k: Key): Option<Data> {
    if !Live(s.Op(k.mm)) || PageAt(s, k).None? then None else Some(s.DataOf(PageAt(s, k).value))
  }

  /** What each step does to the memory of a system in which every mm has pages of its own: a fault or an unmap changes
      the one address it is about, a store one address of one mm, the end of a clone gives the child what the parent
      has, and nothing else changes anything. */
  ghost function Private(s: State, e: Event, k: Key): Option<Data>
    requires Enabled(s, e)
  {
    match e
    case Store(f, d) => if k == f.key && Maps(s, k, f.pfn) then Some(d) else View(s, k)
    case FillMap(m, _) => if k == Key(m, s.Op(m).addr) then Some(s.DataOf(s.Op(m).new_)) else View(s, k)
    case UnmapLeaf(m, a, _) => if k == Key(m, a) then None else View(s, k)
    case CloneFinish(m) => View(s, if k.mm == s.Op(m).dst then Key(m, k.addr) else k)
    case Kill(m) => if k.mm == m then None else View(s, k)
    case _ => View(s, k)
  }

  /** The page behind an address of a live mm is in use, and nobody is preparing it for a fault of another mm. */
  lemma VisibleInUse(s: State, k: Key)
    requires Inv(s) && PageAt(s, k).Some?
    ensures PageAt(s, k).value in s.frames
    ensures forall m :: m != k.mm && InCopy(s.Op(m), Fresh) ==> PageAt(s, k).value != s.Op(m).new_
    ensures InCopy(s.Op(k.mm), Fresh) ==> PageAt(s, k).value != s.Op(k.mm).new_
  {
    hide Owned;
    InFrames(s);
    assert MmOk(s, k.mm);
    forall m | InCopy(s.Op(m), Fresh) && PageAt(s, k).value == s.Op(m).new_ ensures false {
      assert MmOk(s, m);
      FreshPage(s, Hold(m, New));
    }
  }

  ghost predicate Counting(e: Event) {
    e.CowAlloc? || e.CowCopy? || e.FillAlloc? || e.LateFree? || e.BatchFree? || e.CloneCount? || e.Tear?
  }

  lemma FramesStay(s: State, e: Event)
    requires Enabled(s, e) && !e.Store? && !Counting(e)
    ensures Apply(s, e).frames == s.frames
  {
    hide Taken, Dropped, Written, Refs, Live, Grant, FlushedOp;
    assert Apply(s, e).frames == s.frames;
  }

  lemma CountStays(s: State, t: State, e: Event, p: Pfn)
    requires Enabled(s, e) && Counting(e) && t == Apply(s, e) && p in s.frames && p in t.frames
    requires e.CowCopy? ==> p != s.Op(e.m).new_
    ensures t.DataOf(p) == s.DataOf(p)
  {
    hide Refs, Live, Grant, FlushedOp;
    if e.CowAlloc? || e.FillAlloc? {
      assert t.frames[p] == s.frames[p];
    } else if e.CowCopy? {
      assert t.frames[p] == s.frames[p];
    } else {
      assert t.frames[p].data == s.frames[p].data;
    }
  }

  /** Only a store and the copy of a fault change what is in a page that stays in use. */
  lemma DataStays(s: State, e: Event, p: Pfn)
    requires Enabled(s, e) && !e.Store? && p in s.frames && p in Apply(s, e).frames
    requires e.CowCopy? ==> p != s.Op(e.m).new_
    ensures Apply(s, e).DataOf(p) == s.DataOf(p)
  {
    hide Apply, Enabled;
    if Counting(e) { CountStays(s, Apply(s, e), e, p); } else { FramesStay(s, e); }
  }

  /** The one address whose page a step changes. */
  ghost predicate Remaps(s: State, e: Event, k: Key)
    requires Enabled(s, e)
  {
    match e
    case FillMap(m, _) => k == Key(m, s.Op(m).addr)
    case CowUnmap(m) => k == Key(m, s.Op(m).addr)
    case UnmapLeaf(m, a, _) => k == Key(m, a)
    case CloneFinish(m) => k.mm == s.Op(m).dst
    case _ => false
  }

  ghost predicate SamePlace(s: State, t: State, k: Key) {
    t.Op(k.mm) == s.Op(k.mm) && (k in t.leaf <==> k in s.leaf) && (k in s.leaf ==> t.leaf[k] == s.leaf[k])
  }

  ghost predicate Mapping(e: Event) {
    e.CowMap? || e.CowUnmap? || e.FillMap? || e.UnmapLeaf? || e.Tear? || e.CloneEnter?
  }

  lemma LeafStays(s: State, t: State, e: Event)
    requires Enabled(s, e) && !Mapping(e) && t == Apply(s, e)
    ensures t.leaf == s.leaf
  {
    hide Taken, Dropped, Written, Refs, FlushedOp, Live, Grant;
    if OfFault(e) {
      assert t.leaf == s.leaf;
    } else {
      assert t.leaf == s.leaf;
    }
  }

  lemma LeafElsewhere(s: State, t: State, e: Event, k: Key)
    requires Enabled(s, e) && Mapping(e) && e.Actor() != k.mm && t == Apply(s, e)
    requires s.Op(e.Actor()).Cloning? ==> k.mm != s.Op(e.Actor()).dst
    ensures (k in t.leaf <==> k in s.leaf) && (k in s.leaf ==> t.leaf[k] == s.leaf[k])
  {
    hide Taken, Dropped, Written, Refs, FlushedOp, Live, Grant;
    if e.CloneEnter? {
    } else if e.CowMap? || e.FillMap? {
      assert t.leaf - {Key(e.m, s.Op(e.m).addr)} == s.leaf - {Key(e.m, s.Op(e.m).addr)};
    } else {
      assert forall j :: j in s.leaf && j.mm != e.m ==> j in t.leaf;
    }
  }

  lemma FaultReaches(s: State, t: State, e: Event, x: Mm)
    requires Enabled(s, e) && OfFault(e) && e.Actor() != x && t == Apply(s, e)
    ensures t.Op(x) == s.Op(x)
  {
    hide Taken, Dropped, Written, Refs, FlushedOp, Live, Grant;
    if e.Protect? {
      assert t.ops == s.ops;
    } else {
      assert t.ops == s.ops[e.m := t.ops[e.m]];
    }
  }

  lemma RestReaches(s: State, t: State, e: Event, x: Mm)
    requires Enabled(s, e) && !OfFault(e) && e.Actor() != x && t == Apply(s, e)
    requires s.Op(e.Actor()).Cloning? ==> x != s.Op(e.Actor()).dst
    requires e.CloneStart? ==> x != e.d
    ensures t.Op(x) == s.Op(x)
  {
    hide Taken, Dropped, Written, Refs, FlushedOp, Live, Grant;
  }

  /** A step reaches no mm but its own and the child it clones to. */
  lemma OthersStay(s: State, e: Event, k: Key)
    requires Enabled(s, e) && e.Actor() != k.mm
    requires s.Op(e.Actor()).Cloning? ==> k.mm != s.Op(e.Actor()).dst
    requires e.CloneStart? ==> k.mm != e.d
    ensures SamePlace(s, Apply(s, e), k)
  {
    hide Enabled, Apply;
    var t := Apply(s, e);
    if Mapping(e) { LeafElsewhere(s, t, e, k); } else { LeafStays(s, t, e); }
    if OfFault(e) { FaultReaches(s, t, e, k.mm); } else { RestReaches(s, t, e, k.mm); }
  }

  /** A child is not live before its clone ends. */
  lemma ChildStays(s: State, e: Event, k: Key)
    requires Inv(s) && Enabled(s, e) && !e.CloneFinish?
    requires e.Actor() != k.mm
    requires ((e.CloneStart? && k.mm == e.d) || (s.Op(e.Actor()).Cloning? && k.mm == s.Op(e.Actor()).dst))
    ensures !Live(s.Op(k.mm)) && !Live(Apply(s, e).Op(k.mm))
  {
    hide Owned, EntryOk, HoldOk, KeyOk;
    assert MmOk(s, e.Actor());
  }

  /** A step of an mm that does not work on its leaves. */
  lemma OwnStays(s: State, t: State, e: Event, k: Key)
    requires Inv(s) && Enabled(s, e) && e.Actor() == k.mm && !Mapping(e) && t == Apply(s, e)
    ensures Live(t.Op(k.mm)) ==> PageAt(t, k) == if Live(s.Op(k.mm)) then PageAt(s, k) else None
    ensures Live(t.Op(k.mm)) || !Live(s.Op(k.mm)) || e == Kill(k.mm)
  {
    hide Inv, Live;
    if e.NewMm? { NoLeaf(s, k); }
    if e.CloneFinish? || e.CloneAbort? { ChildNotSelf(s, e.m); }
    LeafStays(s, t, e);
    if OfFault(e) { FaultRole(s, t, e); } else { RestRole(s, t, e); }
    hide Enabled, Apply;
  }

  /** Whether an mm lives, and whether it is about to enter a copy. */
  ghost predicate SameRole(s: Op, t: Op, e: Event) {
    && (Live(t) ==> Live(s) || e.NewMm?)
    && (Live(s) ==> Live(t) || e.Kill?)
    && (InCopy(s, Unmapped) || InCopy(t, Unmapped) ==> t == s)
    && (e.NewMm? ==> !Live(s))
  }

  lemma FaultRole(s: State, t: State, e: Event)
    requires Enabled(s, e) && OfFault(e) && !Mapping(e) && t == Apply(s, e)
    ensures SameRole(s.Op(e.Actor()), t.Op(e.Actor()), e)
  {
    hide Taken, Dropped, Written, Refs, Grant;
  }

  lemma RestRole(s: State, t: State, e: Event)
    requires Enabled(s, e) && !OfFault(e) && !Mapping(e) && t == Apply(s, e)
    requires (e.CloneFinish? || e.CloneAbort?) ==> s.Op(s.Op(e.m).dst) == Newborn(e.m)
    ensures SameRole(s.Op(e.Actor()), t.Op(e.Actor()), e)
  {
    hide Taken, Dropped, Written, Refs, Grant;
  }

  lemma NoLeaf(s: State, k: Key)
    requires Inv(s) && s.Op(k.mm).Absent?
    ensures k !in s.leaf
  {
    assert k in s.leaf ==> KeyOk(s, k);
  }

  lemma ChildNotSelf(s: State, m: Mm)
    requires Inv(s) && s.Op(m).Cloning?
    ensures s.Op(s.Op(m).dst) == Newborn(m)
  {
    assert MmOk(s, m);
  }

  lemma OwnMaps(s: State, e: Event, k: Key)
    requires Inv(s) && Enabled(s, e) && !Remaps(s, e, k) && e.Actor() == k.mm && Mapping(e)
    ensures Live(Apply(s, e).Op(k.mm)) ==> PageAt(Apply(s, e), k) == if Live(s.Op(k.mm)) then PageAt(s, k) else None
    ensures Live(Apply(s, e).Op(k.mm)) || !Live(s.Op(k.mm))
  {
    hide Owned, EntryOk, HoldOk, KeyOk, Taken, Dropped, Written, Refs, Grant, FlushedOp, NoWriters;
    assert MmOk(s, k.mm);
  }

  lemma PageStays(s: State, e: Event, k: Key)
    requires Inv(s) && Enabled(s, e) && !Remaps(s, e, k)
    ensures Live(Apply(s, e).Op(k.mm)) ==> PageAt(Apply(s, e), k) == if Live(s.Op(k.mm)) then PageAt(s, k) else None
    ensures Live(Apply(s, e).Op(k.mm)) || !Live(s.Op(k.mm)) || e == Kill(k.mm)
  {
    hide Inv, Enabled, Apply;
    if e.Actor() == k.mm {
      if Mapping(e) { OwnMaps(s, e, k); } else { OwnStays(s, Apply(s, e), e, k); }
    } else if (s.Op(e.Actor()).Cloning? && k.mm == s.Op(e.Actor()).dst) || (e.CloneStart? && k.mm == e.d) {
      ChildStays(s, e, k);
    } else {
      OthersStay(s, e, k);
    }
  }

  /** A store is seen at the one address it was made to, or nowhere if its page has been unmapped since. */
  lemma StoreRefines(s: State, f: Entry, d: Data, k: Key)
    requires Inv(s) && Enabled(s, Store(f, d))
    ensures View(Apply(s, Store(f, d)), k) == Private(s, Store(f, d), k)
  {
    hide Owned, Leaves, Holds, Naming, HoldOk, KeyOk, NoWriters;
    assert EntryOk(s, f);
    InFrames(s);
    assert MmOk(s, k.mm) && MmOk(s, f.key.mm);
  }

  /** Putting a copy in the place of a shared page shows nothing. */
  lemma CowUnmapRefines(s: State, m: Mm, k: Key)
    requires Inv(s) && Enabled(s, CowUnmap(m)) && k == Key(m, s.Op(m).addr)
    ensures View(Apply(s, CowUnmap(m)), k) == View(s, k)
  {
    assert MmOk(s, m);
  }

  /** The child of a finished clone has what the parent has, address by address. */
  lemma CloneRefines(s: State, m: Mm, k: Key)
    requires Inv(s) && Enabled(s, CloneFinish(m)) && k.mm == s.Op(m).dst
    ensures View(Apply(s, CloneFinish(m)), k) == View(s, Key(m, k.addr))
  {
    assert MmOk(s, m);
    assert Key(m, k.addr) in s.leaf <==> k in s.leaf;
  }

  /** A step that remaps no page of an address shows nothing there. */
  lemma UnseenRefines(s: State, e: Event, k: Key)
    requires Inv(s) && Enabled(s, e) && !e.Store? && !Remaps(s, e, k)
    ensures View(Apply(s, e), k) == if e == Kill(k.mm) then None else View(s, k)
  {
    hide Inv;
    var t := Apply(s, e);
    PageStays(s, e, k);
    StepKeeps(s, e);
    if Live(t.Op(k.mm)) && PageAt(t, k).Some? {
      VisibleInUse(s, k);
      VisibleInUse(t, k);
      DataStays(s, e, PageAt(s, k).value);
    }
    if e.Kill? { assert t.Op(e.m) == Dead && !Live(Dead); }
  }

  /** Sharing pages cannot be told from private pages: every step of every mm does to the memory of every mm exactly
      what it would do if no page were ever shared. */
  lemma StepRefines(s: State, e: Event, k: Key)
    requires Inv(s) && Enabled(s, e)
    ensures View(Apply(s, e), k) == Private(s, e, k)
  {
    hide Inv;
    if e.Store? {
      StoreRefines(s, e.e, e.d, k);
    } else if Remaps(s, e, k) {
      if e.CowUnmap? {
        CowUnmapRefines(s, e.m, k);
      } else if e.CloneFinish? {
        CloneRefines(s, e.m, k);
      }
    } else {
      UnseenRefines(s, e, k);
    }
  }

  // ---------------------------------------------------------------------------------------------
  // Whole runs
  // ---------------------------------------------------------------------------------------------

  ghost predicate Runs(s: State, es: seq<Event>)
    decreases |es|
  {
    es == [] || (Enabled(s, es[0]) && Runs(Apply(s, es[0]), es[1..]))
  }

  ghost function After(s: State, es: seq<Event>): State
    requires Runs(s, es)
    decreases |es|
  {
    if es == [] then s else After(Apply(s, es[0]), es[1..])
  }

  const BOOT := State(map[], map[], {}, {}, map[], map[], {})

  lemma BootInv()
    ensures Inv(BOOT)
  {
  }

  /** Whatever the interleaving, the invariant holds after every run. */
  lemma {:induction false} RunKeeps(s: State, es: seq<Event>)
    requires Inv(s) && Runs(s, es)
    ensures Inv(After(s, es))
    decreases |es|
  {
    if es != [] {
      StepKeeps(s, es[0]);
      RunKeeps(Apply(s, es[0]), es[1..]);
    }
  }

  lemma CountsExact(s: State)
    requires Inv(s)
    ensures forall p :: p in s.frames ==> s.frames[p].refs == |Leaves(s, p) - s.pending| + |Holds(s, p)|
  {
    hide MmOk, KeyOk, HoldOk, EntryOk;
    forall p | p in s.frames ensures s.frames[p].refs == |Leaves(s, p) - s.pending| + |Holds(s, p)| {
      assert PageOwned(s, p);
    }
  }

  lemma WritableHasOne(s: State)
    requires Inv(s)
    ensures forall k :: k in s.writable ==> k in s.leaf && Refs(s.frames, s.leaf[k]) == 1 && Leaves(s, s.leaf[k]) == {k}
  {
    hide MmOk, KeyOk, HoldOk, EntryOk;
    forall k | k in s.writable ensures Refs(s.frames, s.leaf[k]) == 1 && Leaves(s, s.leaf[k]) == {k} {
      assert PageOwned(s, s.leaf[k]) && k in Leaves(s, s.leaf[k]);
      assert {k} - s.pending == {k};
    }
  }

  lemma CachedSafe(s: State)
    requires Inv(s)
    ensures forall e :: e in s.tlb ==> e.pfn in s.frames
    ensures forall e, k :: e in s.tlb && e.write && k in s.leaf && s.leaf[k] == e.pfn && Live(s.Op(k.mm)) ==> k == e.key
  {
    hide Owned;
    InFrames(s);
    forall e | e in s.tlb ensures e.pfn in s.frames {
      assert EntryOk(s, e);
    }
    forall e, k | e in s.tlb && e.write && k in s.leaf && s.leaf[k] == e.pfn && Live(s.Op(k.mm)) ensures k == e.key {
      assert EntryOk(s, e) && MmOk(s, e.key.mm);
    }
  }

  /** After every run from boot the counts are exact, a writable leaf has its page to itself, and no CPU can reach a
      freed page or write to a page that another live mm can see. */
  lemma Safe(es: seq<Event>)
    requires Runs(BOOT, es)
    ensures var s := After(BOOT, es);
      && (forall p :: p in s.frames ==> s.frames[p].refs == |Leaves(s, p) - s.pending| + |Holds(s, p)|)
      && (forall k :: k in s.writable ==> k in s.leaf && Refs(s.frames, s.leaf[k]) == 1 && Leaves(s, s.leaf[k]) == {k})
      && (forall e :: e in s.tlb ==> e.pfn in s.frames)
      && (forall e, k :: e in s.tlb && e.write && k in s.leaf && s.leaf[k] == e.pfn && Live(s.Op(k.mm)) ==> k == e.key)
  {
    hide Inv, Naming, Leaves, Holds, Refs;
    var s := After(BOOT, es);
    BootInv();
    RunKeeps(BOOT, es);
    CountsExact(s);
    WritableHasOne(s);
    CachedSafe(s);
  }

  /** What others do to an mm's own state: nothing. */
  lemma OpStays(s: State, e: Event, x: Mm)
    requires Inv(s) && Enabled(s, e) && e.Actor() != x && Live(s.Op(x))
    ensures Apply(s, e).Op(x) == s.Op(x)
  {
    hide Inv, Apply;
    if s.Op(e.Actor()).Cloning? { ChildNotSelf(s, e.Actor()); }
    OthersStay(s, e, Key(x, 0));
  }

  /** Isolation: a run in which a live mm takes no step leaves its memory as it was. */
  lemma {:induction false} Isolated(s: State, es: seq<Event>, x: Mm, a: Vaddr)
    requires Inv(s) && Runs(s, es) && Live(s.Op(x))
    requires forall i :: 0 <= i < |es| ==> es[i].Actor() != x
    ensures View(After(s, es), Key(x, a)) == View(s, Key(x, a))
    decreases |es|
  {
    if es != [] {
      var e := es[0];
      OpStays(s, e, x);
      StepKeeps(s, e);
      StepRefines(s, e, Key(x, a));
      if e.CloneFinish? { assert MmOk(s, e.m); }
      Isolated(Apply(s, e), es[1..], x, a);
    }
  }

  /** After a fork the parent's stores, faults and unmaps never show in the child, and the other way around. */
  lemma ForkedApart(s: State, m: Mm, es: seq<Event>, a: Vaddr)
    requires Inv(s) && Enabled(s, CloneFinish(m)) && Runs(Apply(s, CloneFinish(m)), es)
    ensures var d := s.Op(m).dst;
      && ((forall i :: 0 <= i < |es| ==> es[i].Actor() != d) ==>
            View(After(Apply(s, CloneFinish(m)), es), Key(d, a)) == View(s, Key(m, a)))
      && ((forall i :: 0 <= i < |es| ==> es[i].Actor() != m) ==>
            View(After(Apply(s, CloneFinish(m)), es), Key(m, a)) == View(s, Key(m, a)))
  {
    var t := Apply(s, CloneFinish(m));
    var d := s.Op(m).dst;
    StepKeeps(s, CloneFinish(m));
    assert MmOk(s, m);
    StepRefines(s, CloneFinish(m), Key(d, a));
    StepRefines(s, CloneFinish(m), Key(m, a));
    if forall i :: 0 <= i < |es| ==> es[i].Actor() != d {
      Isolated(t, es, d, a);
    }
    if forall i :: 0 <= i < |es| ==> es[i].Actor() != m {
      Isolated(t, es, m, a);
    }
  }

  // ---------------------------------------------------------------------------------------------
  // Write permission
  // ---------------------------------------------------------------------------------------------

  /** The leaf k can be written if and only if that was asked for and k is the one owner of its page. */
  ghost predicate Permitted(t: State, k: Key, want: bool) {
    && k in t.leaf
    && (k in t.writable <==> want && Leaves(t, t.leaf[k]) == {k} && Holds(t, t.leaf[k]) == {})
  }

  /** A page whose one owner is a counted leaf has one reference, and the other way around. */
  lemma OneReference(s: State, k: Key)
    requires Owned(s) && k in s.leaf && k !in s.pending
    ensures Leaves(s, s.leaf[k]) == {k} && Holds(s, s.leaf[k]) == {} ==> Refs(s.frames, s.leaf[k]) == 1
  {
    hide InUse;
    var p := s.leaf[k];
    assert PageOwned(s, p);
    if Leaves(s, p) == {k} && Holds(s, p) == {} {
      assert {k} - s.pending == {k};
    }
  }

  /** mprotect and the fault on a page that is not shared. */
  lemma ProtectPermits(s: State, t: State, m: Mm, a: Vaddr, want: bool)
    requires Inv(s) && Enabled(s, Protect(m, a, want)) && t == Apply(s, Protect(m, a, want))
    ensures Permitted(t, Key(m, a), want) && t.leaf == s.leaf
    ensures forall j :: j != Key(m, a) ==> (j in t.writable <==> j in s.writable)
  {
    hide Owned, MmOk, KeyOk, HoldOk, EntryOk, Naming;
    SoleOwner(s, m, a);
    OneReference(s, Key(m, a));
  }

  /** A fault that enters a page it has made. */
  lemma MapPermits(s: State, t: State, m: Mm, want: bool)
    requires Inv(s) && (InCopy(s.Op(m), Unmapped) || s.Op(m).Filling?)
    requires t == Apply(s, if s.Op(m).Filling? then FillMap(m, want) else CowMap(m, want))
    ensures Permitted(t, Key(m, s.Op(m).addr), want) && t.leaf[Key(m, s.Op(m).addr)] == s.Op(m).new_
    ensures forall j :: j != Key(m, s.Op(m).addr) ==> (j in t.writable <==> j in s.writable)
  {
    hide Owned, KeyOk, HoldOk, EntryOk;
    var k, p := Key(m, s.Op(m).addr), s.Op(m).new_;
    assert MmOk(s, m);
    FreshPage(s, Hold(m, New));
    assert Leaves(t, p) == {k};
    assert Holds(t, p) == {};
  }

  /** The addresses for which writing was asked for last, and those for which it was withdrawn since the last flush. */
  datatype Wishes = Wishes(asked: set<Key>, withdrawn: set<Key>)

  /** What was asked for after one more step; this follows the requests only, not what they did. */
  ghost function Asked(w: set<Key>, s: State, e: Event): set<Key>
    requires Enabled(s, e)
  {
    match e
    case Protect(m, a, want) => if want then w + {Key(m, a)} else w - {Key(m, a)}
    case CowMap(m, want) => if want then w + {Key(m, s.Op(m).addr)} else w - {Key(m, s.Op(m).addr)}
    case FillMap(m, want) => if want then w + {Key(m, s.Op(m).addr)} else w - {Key(m, s.Op(m).addr)}
    case _ => w
  }

  ghost function WishesAfter(w: Wishes, s: State, e: Event): Wishes
    requires Enabled(s, e)
  {
    var now := Asked(w.asked, s, e);
    Wishes(now, if e.Flush? || e.CloneFinish? || e.CloneAbort? then {} else w.withdrawn + (w.asked - now))
  }

  /** Nothing can be written for which that was not asked: no leaf, and no cached translation but for what was withdrawn
      since the last flush. */
  ghost predicate Obeyed(s: State, w: Wishes) {
    && s.writable <= w.asked
    && forall e :: e in s.tlb && e.write ==> e.key in w.asked || e.key in w.withdrawn
  }

  /** A step that asks for nothing makes no leaf writable. */
  lemma NoNewWriters(s: State, t: State, e: Event)
    requires Enabled(s, e) && t == Apply(s, e) && !e.Protect? && !e.CowMap? && !e.FillMap?
    ensures t.writable <= s.writable
  {
    hide Taken, Dropped, Written, Refs, FlushedOp, Live, Grant;
    if OfFault(e) {
      assert t.writable <= s.writable;
    } else {
      assert t.writable <= s.writable;
    }
  }

  /** Only a TLB fill caches a translation, with the permission that the leaf has; a flush drops them all. */
  lemma CachedFrom(s: State, t: State, e: Event)
    requires Enabled(s, e) && t == Apply(s, e)
    ensures forall f :: f in t.tlb && f !in s.tlb ==> e.TlbFill? && (f.write ==> f.key in s.writable)
    ensures e.Flush? || e.CloneFinish? || e.CloneAbort? ==> t.tlb == {}
  {
    hide Taken, Dropped, Written, Refs, FlushedOp, Live, Grant;
    if OfFault(e) {
      assert t.tlb == s.tlb;
    } else if !e.TlbFill? {
      assert t.tlb <= s.tlb;
    }
  }

  lemma StepObeys(s: State, t: State, e: Event, w: Wishes)
    requires Inv(s) && Obeyed(s, w) && Enabled(s, e) && t == Apply(s, e)
    ensures Obeyed(t, WishesAfter(w, s, e))
  {
    hide Inv, Permitted;
    CachedFrom(s, t, e);
    WritersAsked(s, t, e, w.asked);
    hide Enabled, Apply;
  }

  lemma WritersAsked(s: State, t: State, e: Event, w: set<Key>)
    requires Inv(s) && s.writable <= w && Enabled(s, e) && t == Apply(s, e)
    ensures t.writable <= Asked(w, s, e)
  {
    hide Inv, Apply;
    if e.Protect? {
      ProtectPermits(s, t, e.m, e.a, e.want);
    } else if e.CowMap? || e.FillMap? {
      MapPermits(s, t, e.m, e.want);
    } else {
      NoNewWriters(s, t, e);
    }
  }

  ghost function WishesOver(w: Wishes, s: State, es: seq<Event>): Wishes
    requires Runs(s, es)
    decreases |es|
  {
    if es == [] then w else WishesOver(WishesAfter(w, s, es[0]), Apply(s, es[0]), es[1..])
  }

  /** In every run a leaf can be written only if that was the last thing asked for at its address; and so can a cached
      translation, unless it was withdrawn and no flush has come since. */
  lemma {:induction false} RunObeys(s: State, es: seq<Event>, w: Wishes)
    requires Inv(s) && Runs(s, es) && Obeyed(s, w)
    ensures Obeyed(After(s, es), WishesOver(w, s, es))
    decreases |es|
  {
    hide Inv, Obeyed, Enabled, Apply, WishesAfter;
    if es != [] {
      StepKeeps(s, es[0]);
      StepObeys(s, Apply(s, es[0]), es[0], w);
      RunObeys(Apply(s, es[0]), es[1..], WishesAfter(w, s, es[0]));
    }
  }

  lemma Obedient(es: seq<Event>)
    requires Runs(BOOT, es)
    ensures Obeyed(After(BOOT, es), WishesOver(Wishes({}, {}), BOOT, es))
  {
    hide Inv;
    BootInv();
    RunObeys(BOOT, es, Wishes({}, {}));
  }

  /** The step asks for nothing at k. */
  ghost predicate SilentOn(s: State, e: Event, k: Key)
    requires Enabled(s, e)
  {
    match e
    case Protect(m, a, _) => k != Key(m, a)
    case CowMap(m, _) => k != Key(m, s.Op(m).addr)
    case FillMap(m, _) => k != Key(m, s.Op(m).addr)
    case _ => true
  }

  ghost predicate SilentRun(s: State, es: seq<Event>, k: Key)
    requires Runs(s, es)
    decreases |es|
  {
    es == [] || (SilentOn(s, es[0], k) && SilentRun(Apply(s, es[0]), es[1..], k))
  }

  lemma {:induction false} StaysWithdrawn(s: State, es: seq<Event>, w: Wishes, k: Key)
    requires Runs(s, es) && SilentRun(s, es, k) && k !in w.asked
    ensures k !in WishesOver(w, s, es).asked
    ensures k !in w.withdrawn ==> k !in WishesOver(w, s, es).withdrawn
    decreases |es|
  {
    hide Enabled, Apply;
    if es != [] {
      StaysWithdrawn(Apply(s, es[0]), es[1..], WishesAfter(w, s, es[0]), k);
    }
  }

  /** mprotect to read-only holds: once it has been flushed, and until writing is asked for again, no CPU can write at
      that address, whatever else any address space does. */
  lemma ReadOnlyHolds(s: State, w: Wishes, f: Event, es: seq<Event>, k: Key)
    requires Inv(s) && Obeyed(s, w) && k !in w.asked
    requires Enabled(s, f) && f.Flush? && Runs(Apply(s, f), es) && SilentRun(Apply(s, f), es, k)
    ensures var t := After(Apply(s, f), es); k !in t.writable && forall e :: e in t.tlb && e.key == k ==> !e.write
  {
    hide Inv, Apply, Enabled, SilentRun;
    var x, v := Apply(s, f), WishesAfter(w, s, f);
    StepKeeps(s, f);
    StepObeys(s, x, f, w);
    RunObeys(x, es, v);
    StaysWithdrawn(x, es, v, k);
  }

  // ---------------------------------------------------------------------------------------------
  // What each step is for
  // ---------------------------------------------------------------------------------------------

  /** A reference to p is given back; with the last one the page is free. */
  ghost predicate GivenBack(s: State, t: State, p: Pfn) {
    && Refs(s.frames, p) > 0 && Refs(t.frames, p) == Refs(s.frames, p) - 1
    && (p in t.frames <==> Refs(s.frames, p) > 1)
  }

  /** Where a step of an address space leaves it, and what it has done by then: t is the state after it. */
  ghost predicate Does(s: State, e: Event, t: State)
    requires Enabled(s, e)
  {
    match e
    case NewMm(m) => t.Op(m).Idle?
    case Lock(m) => t.Op(m).Held?
    case Unlock(m) => t.Op(m).Idle?
    case Protect(m, a, want) => Permitted(t, Key(m, a), want)
    case CowSee(m, a) => t.Op(m) == Shared(a, s.leaf[Key(m, a)])
    case CowNoMemory(m) => t.Op(m).Idle?
    case CowAlloc(m, n, _) => InCopy(t.Op(m), Fresh) && Keeps(t, m, New, n) && Refs(t.frames, n) == 1
    case CowCopy(m) => InCopy(t.Op(m), Copied) && t.DataOf(s.Op(m).new_) == s.DataOf(s.Op(m).old_)
    case CowUnmap(m) =>
      InCopy(t.Op(m), Unmapped) && Key(m, s.Op(m).addr) !in t.leaf && Keeps(t, m, Old, s.Op(m).old_)
    case CowMap(m, want) =>
      && InCopy(t.Op(m), Mapped) && Maps(t, Key(m, s.Op(m).addr), s.Op(m).new_)
      && Permitted(t, Key(m, s.Op(m).addr), want) && Hold(m, New) !in t.hold
    case Flush(m) =>
      && t.tlb == {} && (s.Op(m).Held? ==> t.Op(m).Held?) && (s.Op(m).Unmapping? ==> t.Op(m) == Unmapping(true))
      && (InCopy(s.Op(m), Mapped) ==> InCopy(t.Op(m), Flushed))
    case CowUnlock(m, i) => t.Op(m).Idle? && Hold(m, Old) !in t.hold && Keeps(t, m, Late(i), s.Op(m).old_)
    case FillAlloc(m, a, n, d) => t.Op(m) == Filling(a, n) && Keeps(t, m, New, n) && t.DataOf(n) == d
    case FillMap(m, want) =>
      && t.Op(m).Held? && Maps(t, Key(m, s.Op(m).addr), s.Op(m).new_)
      && Permitted(t, Key(m, s.Op(m).addr), want) && Hold(m, New) !in t.hold
    case FillFail(m, i) => t.Op(m).Idle? && Hold(m, New) !in t.hold && Keeps(t, m, Late(i), s.Op(m).new_)
    case LateFree(m, i) => Hold(m, Late(i)) !in t.hold && GivenBack(s, t, s.hold[Hold(m, Late(i))])
    case UnmapStart(m) => t.Op(m) == Unmapping(true)
    case UnmapLeaf(m, a, i) =>
      t.Op(m) == Unmapping(false) && Key(m, a) !in t.leaf && Keeps(t, m, Batch(i), s.leaf[Key(m, a)])
    case BatchFree(m, i) => Hold(m, Batch(i)) !in t.hold && GivenBack(s, t, s.hold[Hold(m, Batch(i))])
    case UnmapDone(m) => t.Op(m).Held?
    case CloneStart(m, d) => t.Op(m).Cloning? && t.Op(m).dst == d && t.Op(d) == Newborn(m)
    case CloneProtect(m, a) => t.Op(m).Cloning? && t.Op(m).at == Protected(a) && Key(m, a) !in t.writable
    case CloneEnter(m) =>
      && t.Op(m).Cloning? && t.Op(m).at == Entered(s.Op(m).at.addr)
      && Key(m, s.Op(m).at.addr) in s.leaf
      && Maps(t, Key(s.Op(m).dst, s.Op(m).at.addr), s.leaf[Key(m, s.Op(m).at.addr)])
    case CloneCount(m) =>
      && t.Op(m).Cloning? && t.Op(m).at.Ready? && s.Op(m).at.addr in t.Op(m).done && s.Op(m).done <= t.Op(m).done
      && Key(m, s.Op(m).at.addr) in s.leaf
      && var p := s.leaf[Key(m, s.Op(m).at.addr)]; Refs(t.frames, p) == Refs(s.frames, p) + 1
    case CloneFinish(m) => t.Op(m).Held? && t.Op(s.Op(m).dst).Idle? && t.tlb == {}
    case CloneAbort(m) => t.Op(m).Held? && t.Op(s.Op(m).dst).Dead? && t.tlb == {}
    case Kill(m) => t.Op(m).Dead?
    case Tear(m, a) => Key(m, a) !in t.leaf && GivenBack(s, t, s.leaf[Key(m, a)])
    case TlbFill(m, a) => Entry(Key(m, a), s.leaf[Key(m, a)], Key(m, a) in s.writable) in t.tlb
    case TlbEvict(f) => f !in t.tlb
    case Store(f, d) => t.DataOf(f.pfn) == d
  }

  lemma StepDoes(s: State, t: State, e: Event)
    requires Inv(s) && Enabled(s, e) && t == Apply(s, e)
    ensures Does(s, e, t)
  {
    hide Inv, Does, Apply, Enabled;
    if OfFault(e) {
      FaultDoes(s, t, e);
    } else if e.CloneStart? || e.CloneProtect? || e.CloneEnter? || e.CloneCount? || e.CloneFinish? || e.CloneAbort? {
      CloneDoes(s, t, e);
    } else if e.LateFree? || e.BatchFree? || e.Tear? {
      FreeDoes(s, t, e);
    } else {
      RestDoes(s, t, e);
    }
  }

  lemma FaultDoes(s: State, t: State, e: Event)
    requires Inv(s) && Enabled(s, e) && OfFault(e) && t == Apply(s, e)
    ensures Does(s, e, t)
  {
    hide Inv, Permitted, Taken, Dropped, FlushedOp, Live, Grant, InUse;
    if e.Protect? {
      ProtectPermits(s, t, e.m, e.a, e.want);
    } else if e.CowMap? || e.FillMap? {
      MapPermits(s, t, e.m, e.want);
    } else if e.CowCopy? {
      FreshInUse(s, e.m);
    } else if e.CowUnmap? || e.CowUnlock? || e.FillFail? {
      assert Does(s, e, t);
    } else {
      assert Does(s, e, t);
    }
  }

  lemma FreshInUse(s: State, m: Mm)
    requires Inv(s) && InCopy(s.Op(m), Fresh)
    ensures s.Op(m).new_ in s.frames
  {
    hide Owned;
    InFrames(s);
    assert MmOk(s, m);
  }

  lemma CloneDoes(s: State, t: State, e: Event)
    requires Inv(s) && Enabled(s, e) && t == Apply(s, e)
    requires e.CloneStart? || e.CloneProtect? || e.CloneEnter? || e.CloneCount? || e.CloneFinish? || e.CloneAbort?
    ensures Does(s, e, t)
  {
    hide Inv, Dropped, FlushedOp, Live, Grant, InUse;
    if !e.CloneStart? {
      ChildNotSelf(s, e.m);
      if e.CloneEnter? || e.CloneCount? { CloneLeaves(s, e.m); }
    }
  }

  lemma CloneLeaves(s: State, m: Mm)
    requires Inv(s) && s.Op(m).Cloning? && !s.Op(m).at.Ready?
    ensures var a := s.Op(m).at.addr;
      && Key(m, a) in s.leaf && s.leaf[Key(m, a)] in s.frames
      && (s.Op(m).at.Entered? ==> Maps(s, Key(s.Op(m).dst, a), s.leaf[Key(m, a)]))
  {
    hide Owned;
    InFrames(s);
    assert MmOk(s, m);
  }

  lemma FreeDoes(s: State, t: State, e: Event)
    requires Inv(s) && Enabled(s, e) && t == Apply(s, e) && (e.LateFree? || e.BatchFree? || e.Tear?)
    ensures Does(s, e, t)
  {
    hide Owned, MmOk, KeyOk, HoldOk, EntryOk, FlushedOp, Live, Grant;
    InFrames(s);
    InUseOf(s);
  }

  lemma InUseOf(s: State)
    requires Owned(s)
    ensures InUse(s.frames)
  {
  }

  lemma RestDoes(s: State, t: State, e: Event)
    requires Inv(s) && Enabled(s, e) && t == Apply(s, e) && !OfFault(e) && !e.CloneStart? && !e.CloneProtect?
    requires !e.CloneEnter? && !e.CloneCount? && !e.CloneFinish? && !e.CloneAbort?
    requires !e.LateFree? && !e.BatchFree? && !e.Tear?
    ensures Does(s, e, t)
  {
    hide Owned, MmOk, KeyOk, HoldOk, SoleWriter, Taken, Dropped, Grant, InUse;
    if e.Store? {
      assert EntryOk(s, e.e);
      InFrames(s);
    }
  }

  /** Nothing leaks: when no task has a page in flight, every page in use is in a table, and its count is the number of
      leaves that name it. */
  lemma NothingLeaks(s: State)
    requires Inv(s) && s.hold == map[] && s.pending == {}
    ensures forall p :: p in s.frames <==> exists k :: k in s.leaf && s.leaf[k] == p
    ensures forall p :: p in s.frames ==> s.frames[p].refs == |Leaves(s, p)|
  {
    hide MmOk, KeyOk, HoldOk, EntryOk;
    InFrames(s);
    forall p | p in s.frames
      ensures s.frames[p].refs == |Leaves(s, p)| && exists k :: k in s.leaf && s.leaf[k] == p
    {
      assert PageOwned(s, p);
      assert Holds(s, p) == {} && Leaves(s, p) - s.pending == Leaves(s, p);
      var k :| k in Leaves(s, p);
      assert k in s.leaf && s.leaf[k] == p;
    }
  }

  // ---------------------------------------------------------------------------------------------
  // Nobody is stuck
  // ---------------------------------------------------------------------------------------------

  /** The pages that an unmap has taken out and not freed yet. */
  ghost function Batched(s: State, m: Mm): set<Hold> {
    set h | h in s.hold && h.mm == m && h.slot.Batch?
  }

  /** How far the holder of the lock is from dropping it. */
  ghost function Distance(s: State, m: Mm): nat {
    match s.Op(m)
    case Held => 1
    case Shared(_, _) => 2
    case Filling(_, _) => 2
    case Copying(_, _, _, stage) =>
      (match stage case Fresh => 5 case Copied => 4 case Unmapped => 3 case Mapped => 2 case Flushed => 1)
    case Unmapping(flushed) => 2 + |Batched(s, m)| + if flushed then 0 else 1
    case Cloning(_, _, at) => if at.Entered? then 3 else 2
    case _ => 0
  }

  lemma {:induction false} Above(xs: set<nat>) returns (n: nat)
    ensures forall x :: x in xs ==> x < n
    decreases |xs|
  {
    if xs == {} {
      n := 0;
    } else {
      var x :| x in xs;
      var k := Above(xs - {x});
      n := if x < k then k else x + 1;
      assert forall y :: y in xs ==> y == x || y in xs - {x};
    }
  }

  lemma FreeNumber(s: State, m: Mm) returns (i: nat)
    ensures Hold(m, Late(i)) !in s.hold
  {
    var used := set h | h in s.hold && h.slot.Late? :: h.slot.i;
    i := Above(used);
    assert Hold(m, Late(i)) in s.hold ==> i in used;
  }

  /** Whoever holds the lock of an address space can always take a step of its own that brings it nearer to the end of
      what it is doing. */
  lemma NobodyStuck(s: State, m: Mm) returns (e: Event)
    requires Inv(s) && Distance(s, m) > 0
    ensures Enabled(s, e) && e.Actor() == m && Distance(Apply(s, e), m) < Distance(s, m)
  {
    hide Inv, Apply, Does;
    var i := FreeNumber(s, m);
    if s.Op(m).Unmapping? {
      e := UnmapOn(s, m);
    } else {
      e := NextStep(s, m, i);
      StepDoes(s, Apply(s, e), e);
      NextNearer(s, Apply(s, e), m, i);
    }
  }

  ghost function NextStep(s: State, m: Mm, i: nat): Event
    requires Distance(s, m) > 0 && !s.Op(m).Unmapping?
  {
    match s.Op(m)
    case Held => Unlock(m)
    case Shared(_, _) => CowNoMemory(m)
    case Filling(_, _) => FillMap(m, true)
    case Copying(_, _, _, stage) =>
      (match stage
       case Fresh => CowCopy(m)
       case Copied => CowUnmap(m)
       case Unmapped => CowMap(m, true)
       case Mapped => Flush(m)
       case Flushed => CowUnlock(m, i))
    case Cloning(_, _, at) => if at.Entered? then CloneCount(m) else CloneAbort(m)
    case _ => Unlock(m)
  }

  lemma NextNearer(s: State, t: State, m: Mm, i: nat)
    requires Distance(s, m) > 0 && !s.Op(m).Unmapping? && Hold(m, Late(i)) !in s.hold
    requires Enabled(s, NextStep(s, m, i)) && Does(s, NextStep(s, m, i), t)
    ensures Distance(t, m) < Distance(s, m)
  {
    hide Permitted, GivenBack, Keeps, Maps;
  }

  lemma UnmapOn(s: State, m: Mm) returns (e: Event)
    requires Inv(s) && s.Op(m).Unmapping?
    ensures Enabled(s, e) && e.Actor() == m && Distance(Apply(s, e), m) < Distance(s, m)
  {
    hide Inv, Dropped;
    if !s.Op(m).flushed {
      e := Flush(m);
      assert Batched(Apply(s, e), m) == Batched(s, m);
    } else if b: nat :| Hold(m, Batch(b)) in s.hold {
      e := BatchFree(m, b);
      assert Batched(Apply(s, e), m) == Batched(s, m) - {Hold(m, Batch(b))};
    } else {
      e := UnmapDone(m);
    }
  }
}
