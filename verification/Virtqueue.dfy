/** The split virtqueue: drivers/virtio/virtqueue.c, after section 2.7 of VIRTIO 1.2.

    Descriptors that are not in use form a list through their `next` fields; each outstanding buffer is a chain of
    descriptors. The ring indices are 16 bits wide and wrap. The device is an adversary that may return any
    outstanding head at any time, in any order, but each only once.
 */
module Virtqueue {
  import opened Arith
  import opened Errno

  const WRAP: nat := 0x1_0000

  type Cookie = nat

  datatype Buf = Buf(addr: nat, len: nat)

  datatype Desc = Desc(buf: Buf, write: bool, more: bool, next: nat)

  datatype Used = Used(id: nat, len: nat)

  // ---------------------------------------------------------------------------------------------
  // Lists of descriptors
  // ---------------------------------------------------------------------------------------------

  ghost function Elems(l: seq<nat>): set<nat> {
    set d | d in l
  }

  ghost predicate NoDup(l: seq<nat>) {
    forall i, j :: 0 <= i < j < |l| ==> l[i] != l[j]
  }

  /** Each descriptor of the list leads to the next one. */
  ghost predicate Linked(ds: seq<Desc>, l: seq<nat>) {
    && (forall i :: 0 <= i < |l| ==> l[i] < |ds|)
    && (forall i :: 0 <= i < |l| - 1 ==> ds[l[i]].next == l[i + 1])
  }

  /** A chain: linked, with the NEXT flag on all descriptors but the last. */
  ghost predicate ChainOk(ds: seq<Desc>, c: seq<nat>) {
    && c != [] && Linked(ds, c) && NoDup(c)
    && (forall i :: 0 <= i < |c| ==> (ds[c[i]].more <==> i < |c| - 1))
  }

  ghost function Owned(chains: map<nat, seq<nat>>): set<nat> {
    set h, d | h in chains && d in chains[h] :: d
  }

  /** The free list and the chains part the descriptors. */
  ghost predicate Partition(num: nat, free: seq<nat>, chains: map<nat, seq<nat>>) {
    && NoDup(free)
    && (forall h :: h in chains ==> chains[h] != [] && chains[h][0] == h)
    && (forall h, k :: h in chains && k in chains && h != k ==> Elems(chains[h]) !! Elems(chains[k]))
    && Elems(free) !! Owned(chains)
    && (forall d :: d in Elems(free) || d in Owned(chains) <==> 0 <= d < num)
  }

  /** The descriptors, cookies, free list and count agree with the partition. */
  ghost predicate Shape(num: nat, ds: seq<Desc>, cookies: seq<Option<Cookie>>, freeHead: nat, numFree: nat,
                        free: seq<nat>, chains: map<nat, seq<nat>>)
  {
    && |ds| == |cookies| == num && Partition(num, free, chains)
    && Linked(ds, free) && numFree == |free| && (free != [] ==> freeHead == free[0])
    && (forall h :: h in chains ==> ChainOk(ds, chains[h]))
    && (forall h :: 0 <= h < num ==> (cookies[h].Some? <==> h in chains))
  }

  lemma {:induction false} ElemsCount(l: seq<nat>)
    requires NoDup(l)
    ensures |Elems(l)| == |l|
  {
    if l != [] {
      ElemsCount(l[1..]);
      assert l[0] !in l[1..];
      assert Elems(l) == {l[0]} + Elems(l[1..]);
    } else {
      assert Elems(l) == {};
    }
  }

  lemma LinkedFrame(ds: seq<Desc>, es: seq<Desc>, l: seq<nat>)
    requires Linked(ds, l) && |es| == |ds| && forall d :: d in l && d < |ds| ==> es[d].next == ds[d].next
    ensures Linked(es, l)
  {
  }

  lemma ChainFrame(ds: seq<Desc>, es: seq<Desc>, c: seq<nat>)
    requires ChainOk(ds, c) && |es| == |ds| && forall d :: d in c && d < |ds| ==> es[d] == ds[d]
    ensures ChainOk(es, c)
  {
    LinkedFrame(ds, es, c);
  }

  // ---------------------------------------------------------------------------------------------
  // Taking a chain off the free list
  // ---------------------------------------------------------------------------------------------

  lemma SplitElems(l: seq<nat>, n: nat)
    requires NoDup(l) && n <= |l|
    ensures NoDup(l[..n]) && NoDup(l[n..])
    ensures Elems(l) == Elems(l[..n]) + Elems(l[n..]) && Elems(l[..n]) !! Elems(l[n..])
  {
    assert l == l[..n] + l[n..];
  }

  lemma OwnedAdd(chains: map<nat, seq<nat>>, h: nat, c: seq<nat>)
    requires h !in chains
    ensures Owned(chains[h := c]) == Owned(chains) + Elems(c)
  {
    forall d ensures d in Owned(chains[h := c]) <==> d in Owned(chains) || d in Elems(c) {
      var both := chains[h := c];
      if d in Owned(chains) {
        var k :| k in chains && d in chains[k];
        assert both[k] == chains[k];
      }
      if d in Elems(c) { assert d in both[h]; }
    }
  }

  lemma OwnedIn(chains: map<nat, seq<nat>>, h: nat)
    requires h in chains
    ensures Elems(chains[h]) <= Owned(chains)
  {
  }

  lemma HeadOwned(chains: map<nat, seq<nat>>, h: nat)
    requires h in chains ==> chains[h] != [] && chains[h][0] == h
    ensures h in chains ==> h in Owned(chains)
  {
    if h in chains { assert chains[h][0] in chains[h]; }
  }

  lemma TakePartition(num: nat, free: seq<nat>, chains: map<nat, seq<nat>>, n: nat)
    requires Partition(num, free, chains) && 0 < n <= |free|
    ensures free[0] !in chains && Partition(num, free[n..], chains[free[0] := free[..n]])
  {
    SplitElems(free, n);
    var h := free[0];
    assert h in Elems(free);
    HeadOwned(chains, h);
    OwnedAdd(chains, h, free[..n]);
    forall k | k in chains ensures Elems(chains[k]) !! Elems(free[..n]) {
      OwnedIn(chains, k);
    }
    hide NoDup, Elems, Owned;
  }

  // ---------------------------------------------------------------------------------------------
  // Giving a chain back
  // ---------------------------------------------------------------------------------------------

  lemma OwnedRemove(chains: map<nat, seq<nat>>, h: nat)
    requires h in chains
    requires forall k :: k in chains && k != h ==> Elems(chains[h]) !! Elems(chains[k])
    ensures Owned(chains - {h}) == Owned(chains) - Elems(chains[h])
  {
    forall d ensures d in Owned(chains - {h}) <==> d in Owned(chains) && d !in Elems(chains[h]) {
      if d in Owned(chains) && d !in Elems(chains[h]) {
        var k :| k in chains && d in chains[k];
        assert (chains - {h})[k] == chains[k];
      }
      if d in Owned(chains - {h}) {
        var k :| k in chains - {h} && d in (chains - {h})[k];
        assert d in Elems(chains[k]) && k != h;
      }
    }
  }

  lemma JoinNoDup(a: seq<nat>, b: seq<nat>)
    requires NoDup(a) && NoDup(b) && Elems(a) !! Elems(b)
    ensures NoDup(a + b) && Elems(a + b) == Elems(a) + Elems(b)
  {
    forall i, j | 0 <= i < j < |a + b| ensures (a + b)[i] != (a + b)[j] {
      if i < |a| <= j {
        assert a[i] in Elems(a) && b[j - |a|] in Elems(b);
      }
    }
  }

  lemma GivePartition(num: nat, free: seq<nat>, chains: map<nat, seq<nat>>, h: nat)
    requires Partition(num, free, chains) && h in chains && NoDup(chains[h])
    ensures Partition(num, chains[h] + free, chains - {h})
  {
    OwnedIn(chains, h);
    JoinNoDup(chains[h], free);
    OwnedRemove(chains, h);
    hide NoDup, Elems, Owned;
  }

  lemma JoinLinked(ds: seq<Desc>, c: seq<nat>, free: seq<nat>)
    requires c != [] && Linked(ds, c) && Linked(ds, free) && (free != [] ==> ds[c[|c| - 1]].next == free[0])
    ensures Linked(ds, c + free)
  {
  }

  // ---------------------------------------------------------------------------------------------
  // Indices that wrap
  // ---------------------------------------------------------------------------------------------

  /** A size that divides the range of the indices. */
  ghost predicate RingSize(num: nat) {
    0 < num < WRAP && WRAP % num == 0
  }

  lemma SizePositive(num: nat)
    requires RingSize(num)
    ensures 0 < num < WRAP
  {
  }

  /** The ring slot of a count: the source masks with num - 1, and num is a power of two. */
  function Slot(t: nat, num: nat): (r: nat)
    requires num > 0
    ensures r < num
  {
    t % num
  }

  /** The slot of the k-th entry from a count on. */
  function RingSlot(last: nat, k: nat, num: nat): nat
    requires num > 0
  {
    Slot(last + k, num)
  }

  lemma ModMod(t: nat, num: nat)
    requires RingSize(num)
    ensures Slot(Wrap(t), num) == Slot(t, num)
  {
    var q := WRAP / num;
    var k, r := t / WRAP, t % WRAP;
    assert t == k * WRAP + r && WRAP == q * num;
    assert k * WRAP == (k * q) * num;
    ModAdd(k * q, r, num);
  }

  lemma {:induction false} ModAdd(k: nat, r: nat, num: nat)
    requires num > 0
    ensures (k * num + r) % num == r % num
  {
    if k > 0 {
      ModAdd(k - 1, r, num);
      assert k * num + r == ((k - 1) * num + r) + num;
      ModStep((k - 1) * num + r, num);
    }
  }

  /** An index in the range of the rings' 16-bit counters. */
  function Wrap(n: nat): (r: nat)
    ensures r < WRAP
  {
    n % WRAP
  }

  /** The difference of two of them, as unsigned arithmetic gives it. */
  function Minus(a: nat, b: nat): nat
    requires a < WRAP && b < WRAP
  {
    (a + WRAP - b) % WRAP
  }

  /** The difference of two wrapped indices is the difference of the counts while it fits. */
  lemma WrapDiff(a: nat, b: nat)
    requires b <= a < b + WRAP
    ensures Minus(Wrap(a), Wrap(b)) == a - b
  {
  }

  /** Counts in a window of num have different slots. */
  lemma SlotsApart(a: nat, b: nat, num: nat)
    requires num > 0 && a < b < a + num
    ensures Slot(a, num) != Slot(b, num)
  {
    var x, y := a / num, b / num;
    DivModBack(a, num);
    DivModBack(b, num);
    if x < y { NextMultiple(x, y, num); }
    if y < x { NextMultiple(y, x, num); }
  }

  /** The heads that the device has returned and the driver has not seen yet are in the used ring, in order. */
  ghost predicate RingOk(num: nat, used: seq<Used>, last: nat, returned: seq<nat>, lens: seq<nat>, chains: map<nat,
                         seq<nat>>) {
    && num > 0 && |used| == num && |lens| == |returned| <= num && NoDup(returned)
    && (forall h :: h in returned ==> h in chains)
    && (forall k :: 0 <= k < |returned| ==> used[RingSlot(last, k, num)] == Used(returned[k], lens[k]))
  }

  lemma {:induction false} FewReturned(l: seq<nat>, heads: set<nat>)
    requires NoDup(l) && forall h :: h in l ==> h in heads
    ensures |l| <= |heads|
  {
    if l != [] {
      assert l[0] in heads && l[0] !in l[1..];
      assert forall h :: h in l[1..] ==> h in l;
      FewReturned(l[1..], heads - {l[0]});
    }
  }

  lemma {:induction false} HeadsBound(heads: set<nat>, num: nat)
    requires forall h :: h in heads ==> h < num
    ensures |heads| <= num
  {
    if num > 0 {
      HeadsBound(heads - {num - 1}, num - 1);
    } else {
      assert heads == {};
    }
  }

  lemma ChainsBound(num: nat, free: seq<nat>, chains: map<nat, seq<nat>>)
    requires Partition(num, free, chains)
    ensures |chains| <= num
  {
    forall h | h in chains.Keys ensures h < num {
      HeadOwned(chains, h);
    }
    HeadsBound(chains.Keys, num);
    assert |chains| == |chains.Keys|;
  }

  /** The descriptors after n of them were filled in for a new chain. */
  ghost predicate Filled(ds: seq<Desc>, es: seq<Desc>, free: seq<nat>, sg: seq<Buf>, nOut: nat, n: nat) {
    && |es| == |ds| && n <= |free| && n <= |sg|
    && (forall i :: 0 <= i < |free| ==> free[i] < |ds|)
    && (forall i :: 0 <= i < n ==> es[free[i]] == Desc(sg[i], i >= nOut, i < |sg| - 1, ds[free[i]].next))
    && (forall d :: 0 <= d < |ds| && d !in free[..n] ==> es[d] == ds[d])
  }

  lemma FillStep(ds: seq<Desc>, es: seq<Desc>, free: seq<nat>, sg: seq<Buf>, nOut: nat, n: nat)
    requires Filled(ds, es, free, sg, nOut, n) && n < |free| && n < |sg| && NoDup(free)
    ensures es[free[n]] == ds[free[n]]
    ensures Filled(ds, es[free[n] := Desc(sg[n], n >= nOut, n < |sg| - 1, ds[free[n]].next)], free, sg, nOut, n + 1)
  {
    assert free[n] !in free[..n];
    assert free[..n + 1] == free[..n] + [free[n]];
  }

  /** What the driver hands to the device: the buffers in order, those behind the first nOut for the device to write. */
  ghost predicate Carries(ds: seq<Desc>, c: seq<nat>, sg: seq<Buf>, nOut: nat) {
    |c| == |sg| && forall i :: 0 <= i < |c| ==> c[i] < |ds| && ds[c[i]].buf == sg[i] && (ds[c[i]].write <==> i >= nOut)
  }

  lemma AddShape(num: nat, ds: seq<Desc>, es: seq<Desc>, cookies: seq<Option<Cookie>>, freeHead: nat, next: nat,
                 free: seq<nat>, chains: map<nat, seq<nat>>, sg: seq<Buf>, nOut: nat, cookie: Cookie)
    requires Shape(num, ds, cookies, freeHead, |free|, free, chains) && 0 < |sg| <= |free|
    requires Filled(ds, es, free, sg, nOut, |sg|) && (|sg| < |free| ==> next == free[|sg|])
    ensures freeHead < num && freeHead !in chains
    ensures Shape(num, es, cookies[freeHead := Some(cookie)], next, |free| - |sg|, free[|sg|..],
                  chains[freeHead := free[..|sg|]])
    ensures Carries(es, free[..|sg|], sg, nOut)
  {
    var n := |sg|;
    var c := free[..n];
    TakePartition(num, free, chains, n);
    SplitElems(free, n);
    assert free[0] in Elems(free);
    NewChain(ds, es, free, sg, nOut);
    OldLists(num, ds, es, free, chains, c);
    hide Partition, ChainOk, Linked, Elems, NoDup;
  }

  lemma NewChain(ds: seq<Desc>, es: seq<Desc>, free: seq<nat>, sg: seq<Buf>, nOut: nat)
    requires Linked(ds, free) && NoDup(free) && 0 < |sg| <= |free| && Filled(ds, es, free, sg, nOut, |sg|)
    ensures ChainOk(es, free[..|sg|]) && Carries(es, free[..|sg|], sg, nOut) && Linked(es, free[|sg|..])
    ensures forall d :: 0 <= d < |ds| && d !in free[..|sg|] ==> es[d] == ds[d]
  {
    var n := |sg|;
    SplitElems(free, n);
    assert forall d :: d in free[n..] ==> d in Elems(free[n..]);
    assert forall d :: d in free[..n] ==> d in Elems(free[..n]);
    LinkedFrame(ds, es, free[n..]);
  }

  /** Chains that were there do not see the new one. */
  lemma OldLists(num: nat, ds: seq<Desc>, es: seq<Desc>, free: seq<nat>, chains: map<nat, seq<nat>>, c: seq<nat>)
    requires Partition(num, free, chains) && |ds| == |es| == num && (forall d :: d in c ==> d in free)
    requires forall h :: h in chains ==> ChainOk(ds, chains[h])
    requires forall d :: 0 <= d < num && d !in c ==> es[d] == ds[d]
    ensures forall h :: h in chains ==> ChainOk(es, chains[h])
  {
    forall h | h in chains ensures ChainOk(es, chains[h]) {
      OwnedIn(chains, h);
      assert forall d :: d in chains[h] ==> d in Elems(chains[h]);
      assert forall d :: d in free ==> d in Elems(free);
      ChainFrame(ds, es, chains[h]);
    }
  }

  /** The available ring still holds the heads of the publications from `taken` on; the device has consumed all before
      them, as it has returned that many. */
  ghost predicate AvailOk(num: nat, avail: seq<nat>, taken: nat, added: nat, published: seq<nat>) {
    && num > 0 && |avail| == num && |published| == added
    && forall t: nat :: taken <= t < added ==> avail[Slot(t, num)] == published[t]
  }

  /** A new publication overwrites none of them. */
  lemma AvailPush(num: nat, avail: seq<nat>, taken: nat, added: nat, published: seq<nat>, head: nat)
    requires AvailOk(num, avail, taken, added, published) && taken <= added < taken + num
    ensures AvailOk(num, avail[Slot(added, num) := head], taken, added + 1, published + [head])
  {
    var more, ps := avail[Slot(added, num) := head], published + [head];
    forall t: nat | taken <= t < added + 1
      ensures more[Slot(t, num)] == ps[t]
    {
      if t < added {
        SlotsApart(t, added, num);
      }
    }
  }

  lemma AvailPop(num: nat, avail: seq<nat>, taken: nat, added: nat, published: seq<nat>)
    requires AvailOk(num, avail, taken, added, published)
    ensures AvailOk(num, avail, taken + 1, added, published)
  {
  }

  class Vq {
    const num: nat
    const desc: array<Desc>
    const cookies: array<Option<Cookie>>
    const avail: array<nat>
    const used: array<Used>
    var freeHead: nat
    var numFree: nat
    var availIdx: nat
    var usedIdx: nat
    var lastUsed: nat
    ghost var free: seq<nat>
    ghost var chains: map<nat, seq<nat>>
    /** Heads in the used ring that the driver has not taken yet. */
    ghost var returned: seq<nat>
    /** How much the device wrote for each of them. */
    ghost var lens: seq<nat>
    /** The indices as they would be without wrapping. */
    ghost var added: nat
    ghost var taken: nat
    /** All heads ever made available, in order. */
    ghost var published: seq<nat>

    ghost predicate Valid()
      reads this, desc, cookies, avail, used
    {
      && RingSize(num) && desc.Length == cookies.Length == avail.Length == used.Length == num
      && Shape(num, desc[..], cookies[..], freeHead, numFree, free, chains)
      && RingOk(num, used[..], taken, returned, lens, chains)
      && AvailOk(num, avail[..], taken, added, published)
      && added == taken + |chains|
      && availIdx == Wrap(added) && lastUsed == Wrap(taken) && usedIdx == Wrap(taken + |returned|)
    }

    /** What users of the queue know of it. */
    lemma Facts()
      requires Valid()
      ensures cookies.Length == num && Partition(num, free, chains) && numFree == |free|
      ensures NoDup(returned) && |lens| == |returned| && forall h :: h in returned ==> h in chains
      ensures forall h :: h in chains ==> h < num && cookies[h].Some?
    {
      forall h | h in chains ensures h < num {
        HeadOwned(chains, h);
      }
      assert forall h :: 0 <= h < num ==> cookies[..][h] == cookies[h];
    }

    /** The outstanding buffers are counted by the difference of the wrapped indices. */
    lemma Outstanding()
      requires Valid()
      ensures availIdx < WRAP && lastUsed < WRAP && Minus(availIdx, lastUsed) == |chains|
    {
      ChainsBound(num, free, chains);
      WrapDiff(added, taken);
    }

    /** virtqueue_create: all descriptors in one free list. */
    constructor (num: nat)
      requires RingSize(num)
      ensures Valid() && chains == map[] && numFree == this.num == num && returned == [] && added == 0
      ensures fresh(desc) && fresh(cookies) && fresh(avail) && fresh(used)
    {
      hide Wrap, Minus, Shape, RingSize, RingOk, AvailOk;
      this.num := num;
      desc := new Desc[num](i => Desc(Buf(0, 0), false, false, i + 1));
      cookies := new Option<Cookie>[num](_ => None);
      avail := new nat[num](_ => 0);
      used := new Used[num](_ => Used(0, 0));
      freeHead, numFree, availIdx, usedIdx, lastUsed := 0, num, 0, 0, 0;
      free, chains, returned, lens, added, taken := seq(num, i => i), map[], [], [], 0, 0;
      published := [];
      new;
      InitShape(num, desc[..], cookies[..], free);
      InitRings(num, used[..], avail[..]);
    }

    /** The loop of vq_add: fills descriptors along the free list. */
    method Fill(head: nat, sg: seq<Buf>, nOut: nat, ghost f: seq<nat>) returns (next: nat)
      requires |sg| <= |f| && Linked(desc[..], f) && NoDup(f) && (f != [] ==> head == f[0])
      modifies desc
      ensures Filled(old(desc[..]), desc[..], f, sg, nOut, |sg|)
      ensures |sg| < |f| ==> next == f[|sg|]
    {
      hide Wrap, Minus, Linked;
      ghost var ds := desc[..];
      next := head;
      FillBegins(ds, f, sg, nOut);
      var i := 0;
      while i < |sg|
        invariant 0 <= i <= |sg| && Filled(ds, desc[..], f, sg, nOut, i)
        invariant i < |f| ==> next == f[i]
      {
        FillStep(ds, desc[..], f, sg, nOut, i);
        var at := next;
        next := desc[at].next;
        desc[at] := Desc(sg[i], i >= nOut, i + 1 < |sg|, next);
        NextFree(ds, f, i);
        i := i + 1;
      }
    }

    /** vq_add: -ENOSPC exactly when there are not enough free descriptors; otherwise one more chain, which carries the
        given buffers, and no other chain is touched. */
    method Add(sg: seq<Buf>, nOut: nat, cookie: Cookie) returns (r: Result<()>)
      requires Valid() && 0 < |sg| && nOut <= |sg|
      modifies this, desc, cookies, avail
      ensures Valid()
      ensures r.Ok? <==> |sg| <= old(numFree)
      ensures r.Err? ==> r.error == ENOSPC && chains == old(chains) && numFree == old(numFree)
      ensures r.Ok? ==> old(freeHead) !in old(chains) && old(freeHead) < num
                        && chains == old(chains)[old(freeHead) := old(free)[..|sg|]]
      ensures r.Ok? ==> Carries(desc[..], chains[old(freeHead)], sg, nOut) && cookies[old(freeHead)] == Some(cookie)
      ensures r.Ok? ==> numFree == old(numFree) - |sg| && published == old(published) + [old(freeHead)]
      ensures returned == old(returned) && lens == old(lens) && usedIdx == old(usedIdx)
      ensures forall h :: 0 <= h < num && (r.Err? || h != old(freeHead)) ==> cookies[h] == old(cookies[h])
    {
      hide Wrap, Minus, Shape, RingOk, Carries, Slot, RingSize, AvailOk;
      SizePositive(num);
      if |sg| > numFree {
        return Err(ENOSPC);
      }
      AddChain(sg, nOut, cookie);
      return Ok(());
    }

    method AddChain(sg: seq<Buf>, nOut: nat, cookie: Cookie)
      requires Valid() && 0 < |sg| <= numFree && nOut <= |sg|
      modifies this, desc, cookies, avail
      ensures Valid() && returned == old(returned) && lens == old(lens) && usedIdx == old(usedIdx)
      ensures old(freeHead) !in old(chains) && old(freeHead) < num && |sg| <= |old(free)|
      ensures chains == old(chains)[old(freeHead) := old(free)[..|sg|]] && numFree == old(numFree) - |sg|
      ensures Carries(desc[..], chains[old(freeHead)], sg, nOut)
      ensures cookies[..] == old(cookies[..])[old(freeHead) := Some(cookie)]
      ensures published == old(published) + [old(freeHead)]
    {
      hide Wrap, Minus, Shape, RingOk, Carries, Slot, Filled, Partition, NoDup, Linked, RingSize, AvailOk;
      SizePositive(num);
      ShapeFacts(num, desc[..], cookies[..], freeHead, numFree, free, chains);
      ghost var ds, cs := desc[..], cookies[..];
      var head := freeHead;
      var next := Fill(head, sg, nOut, free);
      AddShape(num, ds, desc[..], cs, head, next, free, chains, sg, nOut, cookie);
      ChainsFit(num, desc[..], cs[head := Some(cookie)], next, numFree - |sg|, free[|sg|..],
                chains[head := free[..|sg|]]);
      RingMore(num, used[..], taken, returned, lens, chains, head, free[..|sg|]);
      cookies[head] := Some(cookie);
      assert cookies[..] == cs[head := Some(cookie)];
      ModMod(added, num);
      AvailPush(num, avail[..], taken, added, published, head);
      ghost var av := avail[..];
      avail[Slot(availIdx, num)] := head;
      assert avail[..] == av[Slot(added, num) := head];
      MapGrows(chains, head, free[..|sg|]);
      Publish(next, |sg|, head, free[|sg|..], chains[head := free[..|sg|]], published + [head]);
    }

    /** The index updates at the end of vq_add. */
    method Publish(next: nat, n: nat, head: nat, ghost f: seq<nat>, ghost cm: map<nat, seq<nat>>, ghost ps: seq<nat>)
      requires desc.Length == cookies.Length == avail.Length == used.Length == num && RingSize(num) && n <= numFree
      requires Shape(num, desc[..], cookies[..], next, numFree - n, f, cm)
      requires RingOk(num, used[..], taken, returned, lens, cm) && AvailOk(num, avail[..], taken, added + 1, ps)
      requires added + 1 == taken + |cm| && availIdx == Wrap(added) && lastUsed == Wrap(taken)
      requires usedIdx == Wrap(taken + |returned|)
      modifies this
      ensures Valid() && returned == old(returned) && lens == old(lens) && usedIdx == old(usedIdx)
      ensures chains == cm && numFree == old(numFree) - n && published == ps
    {
      hide Wrap, Minus, Shape, RingOk, RingSize, AvailOk;
      IdxStep(added);
      ghost var ds, cs, us, av := desc[..], cookies[..], used[..], avail[..];
      freeHead, numFree, availIdx := next, numFree - n, Wrap(availIdx + 1);
      free, chains, added, published := f, cm, added + 1, ps;
      assert desc[..] == ds && cookies[..] == cs && used[..] == us && avail[..] == av;
    }

    /** The device returns an outstanding head. This is what the driver relies on of the device. */
    method DeviceReturn(h: nat, len: nat)
      requires Valid() && h in chains && h !in returned
      modifies this`usedIdx, this`returned, this`lens, used
      ensures Valid() && returned == old(returned) + [h] && lens == old(lens) + [len]
    {
      hide Wrap, Minus, Shape, Slot, RingSize, AvailOk;
      SizePositive(num);
      ReturnedFewer(num, desc[..], cookies[..], freeHead, numFree, free, chains, returned, h);
      ModMod(taken + |returned|, num);
      ghost var us := used[..];
      used[Slot(usedIdx, num)] := Used(h, len);
      assert used[..] == us[Slot(taken + |returned|, num) := Used(h, len)];
      RingPush(num, us, taken, returned, lens, chains, h, len);
      IdxStep(taken + |returned|);
      usedIdx := Wrap(usedIdx + 1);
      returned, lens := returned + [h], lens + [len];
    }

    /** vq_get_buf: the cookie of the oldest returned head, whose descriptors go back to the free list; none if the
        device has returned nothing. Its assertions hold, whatever the device returned. */
    method GetBuf() returns (cookie: Option<Cookie>, len: nat, ghost head: nat)
      requires Valid()
      modifies this, desc, cookies
      ensures Valid() && (cookie.None? <==> old(returned) == [])
      ensures |old(lens)| == |old(returned)|
      ensures cookie.None? ==> chains == old(chains) && returned == old(returned) && lens == old(lens)
                               && cookies[..] == old(cookies[..])
      ensures cookie.Some? ==>
                head == old(returned)[0] && head in old(chains) && head < num && cookie == old(cookies[head])
      ensures cookie.Some? ==> chains == old(chains) - {head} && returned == old(returned)[1..]
                               && lens == old(lens)[1..] && len == old(lens)[0]
      ensures cookie.Some? ==> numFree == old(numFree) + |old(chains)[head]|
      ensures cookie.Some? ==> cookies[..] == old(cookies[..])[head := None]
      ensures added == old(added)
    {
      hide Wrap, Minus, Shape, Slot, RingSize, AvailOk;
      SizePositive(num);
      head, len := 0, 0;
      ReturnedAtMost(num, desc[..], cookies[..], freeHead, numFree, free, chains, returned);
      WrapDiff(taken + |returned|, taken);
      WrapDiff(added, taken);
      var pending := Minus(usedIdx, lastUsed);
      if pending == 0 {
        return None, 0, 0;
      }
      assert pending <= Minus(availIdx, lastUsed);
      ModMod(taken, num);
      var elem := used[Slot(lastUsed, num)];
      var h := elem.id;
      assert elem == Used(returned[0], lens[0]) by {
        assert used[..][RingSlot(taken, 0, num)] == Used(returned[0], lens[0]);
      }
      HeadFacts(num, desc[..], cookies[..], freeHead, numFree, free, chains, h);
      assert h < num && cookies[h].Some?;
      cookie := cookies[h];
      head, len := h, elem.len;
      GiveBack(h);
    }

    /** The rest of vq_get_buf: the chain of a head goes to the front of the free list. */
    method GiveBack(h: nat)
      requires Valid() && returned != [] && h == returned[0]
      modifies this, desc, cookies
      ensures Valid() && h in old(chains) && h < num && chains == old(chains) - {h} && returned == old(returned)[1..]
      ensures old(lens) != [] && lens == old(lens)[1..]
      ensures numFree == old(numFree) + |old(chains)[h]| && cookies[..] == old(cookies[..])[h := None]
      ensures added == old(added)
    {
      hide Wrap, Minus, Shape, Slot, RingSize, RingOk, ChainOk, AvailOk;
      SizePositive(num);
      ghost var ds, cs := desc[..], cookies[..];
      FirstReturned(num, used[..], taken, returned, lens, chains);
      ghost var c := chains[h];
      HeadFacts(num, ds, cs, freeHead, numFree, free, chains, h);
      cookies[h] := None;
      assert cookies[..] == cs[h := None];
      var tail, n := Tail(h, c);
      assert desc[..] == ds;
      GiveShape(num, ds, cs, freeHead, numFree, free, chains, h);
      desc[tail] := desc[tail].(next := freeHead);
      assert desc[..] == ds[tail := ds[tail].(next := freeHead)];
      RingPop(num, used[..], taken, returned, lens, chains);
      AvailPop(num, avail[..], taken, added, published);
      MapShrinks(chains, h);
      Retire(h, n, c + free, chains - {h}, returned[1..], lens[1..]);
    }

    /** The index updates at the end of vq_get_buf. */
    method Retire(h: nat, n: nat, ghost f: seq<nat>, ghost cm: map<nat, seq<nat>>, ghost rs: seq<nat>,
                  ghost ls: seq<nat>)
      requires desc.Length == cookies.Length == avail.Length == used.Length == num && RingSize(num)
      requires Shape(num, desc[..], cookies[..], h, numFree + n, f, cm)
      requires RingOk(num, used[..], taken + 1, rs, ls, cm) && AvailOk(num, avail[..], taken + 1, added, published)
      requires added == taken + 1 + |cm| && availIdx == Wrap(added) && lastUsed == Wrap(taken)
      requires usedIdx == Wrap(taken + 1 + |rs|)
      modifies this
      ensures Valid() && chains == cm && returned == rs && lens == ls
      ensures numFree == old(numFree) + n && added == old(added)
    {
      hide Wrap, Minus, Shape, RingOk, RingSize, AvailOk;
      IdxStep(taken);
      ghost var ds, cs, us, av := desc[..], cookies[..], used[..], avail[..];
      freeHead, numFree, lastUsed := h, numFree + n, Wrap(lastUsed + 1);
      free, chains, returned, lens, taken := f, cm, rs, ls, taken + 1;
      assert desc[..] == ds && cookies[..] == cs && used[..] == us && avail[..] == av;
    }

    /** The loop of vq_get_buf: follows the NEXT flags to the end of the chain. */
    method Tail(h: nat, ghost c: seq<nat>) returns (tail: nat, n: nat)
      requires desc.Length == num && ChainOk(desc[..], c) && c[0] == h
      ensures tail == c[|c| - 1] && n == |c|
    {
      tail, n := h, 0;
      while desc[tail].more
        invariant n < |c| && tail == c[n] && tail < num
        decreases |c| - n
      {
        assert desc[..][c[n]].more && desc[..][c[n]].next == c[n + 1];
        n := n + 1;
        tail := desc[tail].next;
      }
      assert !desc[..][c[n]].more;
      n := n + 1;
    }
  }

  lemma ReturnedAtMost(num: nat, ds: seq<Desc>, cookies: seq<Option<Cookie>>, freeHead: nat, numFree: nat,
                       free: seq<nat>, chains: map<nat, seq<nat>>, returned: seq<nat>)
    requires Shape(num, ds, cookies, freeHead, numFree, free, chains) && NoDup(returned)
    requires forall x :: x in returned ==> x in chains
    ensures |returned| <= |chains| <= num
  {
    ChainsBound(num, free, chains);
    FewReturned(returned, chains.Keys);
    assert |chains| == |chains.Keys|;
  }

  lemma ReturnedFewer(num: nat, ds: seq<Desc>, cookies: seq<Option<Cookie>>, freeHead: nat, numFree: nat,
                      free: seq<nat>, chains: map<nat, seq<nat>>, returned: seq<nat>, h: nat)
    requires Shape(num, ds, cookies, freeHead, numFree, free, chains) && NoDup(returned)
    requires h in chains && h !in returned && forall x :: x in returned ==> x in chains
    ensures |returned| < |chains| <= num
  {
    ChainsBound(num, free, chains);
    FewReturned(returned, chains.Keys - {h});
    assert |chains| == |chains.Keys|;
  }

  lemma RingPush(num: nat, used: seq<Used>, last: nat, returned: seq<nat>, lens: seq<nat>, chains: map<nat, seq<nat>>,
                 h: nat, len: nat)
    requires RingOk(num, used, last, returned, lens, chains) && h in chains && h !in returned && |returned| < num
    ensures RingOk(num, used[Slot(last + |returned|, num) := Used(h, len)], last, returned + [h], lens + [len], chains)
  {
    var s := Slot(last + |returned|, num);
    forall k | 0 <= k < |returned| ensures RingSlot(last, k, num) != s {
      SlotsApart(last + k, last + |returned|, num);
    }
    assert RingSlot(last, |returned|, num) == s;
    hide Slot, RingSlot;
  }

  lemma RingPop(num: nat, used: seq<Used>, last: nat, returned: seq<nat>, lens: seq<nat>, chains: map<nat, seq<nat>>)
    requires RingOk(num, used, last, returned, lens, chains) && returned != []
    ensures RingOk(num, used, last + 1, returned[1..], lens[1..], chains - {returned[0]})
  {
    hide Slot;
    forall k | 0 <= k < |returned[1..]|
      ensures used[RingSlot(last + 1, k, num)] == Used(returned[1..][k], lens[1..][k])
    {
      assert RingSlot(last + 1, k, num) == RingSlot(last, k + 1, num);
      assert used[RingSlot(last, k + 1, num)] == Used(returned[k + 1], lens[k + 1]);
    }
  }

  lemma FirstReturned(num: nat, used: seq<Used>, last: nat, returned: seq<nat>, lens: seq<nat>, chains: map<nat,
                      seq<nat>>)
    requires RingOk(num, used, last, returned, lens, chains) && returned != []
    ensures returned[0] in chains && lens != []
  {
  }

  lemma MapShrinks(chains: map<nat, seq<nat>>, h: nat)
    requires h in chains
    ensures |chains - {h}| == |chains| - 1
  {
    assert (chains - {h}).Keys == chains.Keys - {h};
    assert |chains - {h}| == |(chains - {h}).Keys| && |chains| == |chains.Keys|;
  }

  lemma HeadFacts(num: nat, ds: seq<Desc>, cookies: seq<Option<Cookie>>, freeHead: nat, numFree: nat,
                  free: seq<nat>, chains: map<nat, seq<nat>>, h: nat)
    requires Shape(num, ds, cookies, freeHead, numFree, free, chains) && h in chains
    ensures h < num && cookies[h].Some? && ChainOk(ds, chains[h]) && chains[h][0] == h
    ensures forall i :: 0 <= i < |chains[h]| ==> chains[h][i] < num
  {
    HeadOwned(chains, h);
  }

  lemma GiveShape(num: nat, ds: seq<Desc>, cookies: seq<Option<Cookie>>, freeHead: nat, numFree: nat,
                  free: seq<nat>, chains: map<nat, seq<nat>>, h: nat)
    requires Shape(num, ds, cookies, freeHead, numFree, free, chains) && h in chains && h < num
    requires ChainOk(ds, chains[h]) && chains[h][|chains[h]| - 1] < |ds|
    ensures var c := chains[h];
      var tail := c[|c| - 1];
      Shape(num, ds[tail := ds[tail].(next := freeHead)], cookies[h := None], h, numFree + |c|, c + free, chains - {h})
  {
    var c := chains[h];
    var tail := c[|c| - 1];
    var es := ds[tail := ds[tail].(next := freeHead)];
    hide Partition, ChainOk, Linked;
    ChainSimple(ds, c);
    GivePartition(num, free, chains, h);
    GiveLinked(num, ds, free, chains, h, freeHead);
    forall k | k in chains && k != h ensures ChainOk(es, chains[k]) {
      KeptChain(num, ds, free, chains, h, k, freeHead);
    }
  }

  lemma ChainSimple(ds: seq<Desc>, c: seq<nat>)
    requires ChainOk(ds, c)
    ensures c != [] && NoDup(c)
  {
  }

  /** The last descriptor of the chain leads to the free list. */
  lemma GiveLinked(num: nat, ds: seq<Desc>, free: seq<nat>, chains: map<nat, seq<nat>>, h: nat, freeHead: nat)
    requires Partition(num, free, chains) && h in chains && ChainOk(ds, chains[h]) && Linked(ds, free)
    requires chains[h][|chains[h]| - 1] < |ds| && (free != [] ==> freeHead == free[0])
    ensures var c := chains[h];
      var tail := c[|c| - 1];
      c[0] == h && Linked(ds[tail := ds[tail].(next := freeHead)], c + free)
  {
    var c := chains[h];
    var tail := c[|c| - 1];
    var es := ds[tail := ds[tail].(next := freeHead)];
    OwnedIn(chains, h);
    assert tail in Elems(c);
    assert forall d :: d in free ==> d in Elems(free);
    LinkedFrame(ds, es, free);
    assert Linked(es, c);
    JoinLinked(es, c, free);
  }

  lemma KeptChain(num: nat, ds: seq<Desc>, free: seq<nat>, chains: map<nat, seq<nat>>, h: nat, k: nat, freeHead: nat)
    requires Partition(num, free, chains) && h in chains && k in chains && k != h
    requires ChainOk(ds, chains[k]) && ChainOk(ds, chains[h]) && chains[h][|chains[h]| - 1] < |ds|
    ensures var tail := chains[h][|chains[h]| - 1];
      ChainOk(ds[tail := ds[tail].(next := freeHead)], chains[k])
  {
    var tail := chains[h][|chains[h]| - 1];
    assert tail in Elems(chains[h]);
    assert forall d :: d in chains[k] ==> d in Elems(chains[k]);
    ChainFrame(ds, ds[tail := ds[tail].(next := freeHead)], chains[k]);
  }

  lemma ShapeFacts(num: nat, ds: seq<Desc>, cookies: seq<Option<Cookie>>, freeHead: nat, numFree: nat,
                   free: seq<nat>, chains: map<nat, seq<nat>>)
    requires Shape(num, ds, cookies, freeHead, numFree, free, chains)
    ensures |ds| == num && numFree == |free| && NoDup(free) && (free != [] ==> freeHead == free[0])
    ensures forall i :: 0 <= i < |free| ==> free[i] < num
    ensures Linked(ds, free)
    ensures Partition(num, free, chains)
  {
  }

  lemma ChainsFit(num: nat, ds: seq<Desc>, cookies: seq<Option<Cookie>>, freeHead: nat, numFree: nat,
                  free: seq<nat>, chains: map<nat, seq<nat>>)
    requires Shape(num, ds, cookies, freeHead, numFree, free, chains)
    ensures |chains| <= num
  {
    ChainsBound(num, free, chains);
  }

  lemma MapGrows(chains: map<nat, seq<nat>>, h: nat, c: seq<nat>)
    requires h !in chains
    ensures |chains[h := c]| == |chains| + 1
  {
  }

  lemma FillBegins(ds: seq<Desc>, free: seq<nat>, sg: seq<Buf>, nOut: nat)
    requires Linked(ds, free)
    ensures Filled(ds, ds, free, sg, nOut, 0)
  {
  }

  lemma InitRings(num: nat, used: seq<Used>, avail: seq<nat>)
    requires RingSize(num) && |used| == |avail| == num
    ensures RingOk(num, used, 0, [], [], map[]) && AvailOk(num, avail, 0, 0, []) && Wrap(0) == 0
  {
    hide Slot, RingSlot;
  }

  lemma InitShape(num: nat, ds: seq<Desc>, cookies: seq<Option<Cookie>>, free: seq<nat>)
    requires |ds| == |cookies| == |free| == num
    requires forall i :: 0 <= i < num ==> ds[i].next == i + 1 && cookies[i] == None && free[i] == i
    ensures Shape(num, ds, cookies, 0, num, free, map[])
  {
    var none: map<nat, seq<nat>> := map[];
    assert Owned(none) == {};
    forall d ensures d in Elems(free) <==> 0 <= d < num {
      if 0 <= d < num { assert free[d] == d; }
    }
  }

  lemma NextFree(ds: seq<Desc>, free: seq<nat>, i: nat)
    requires Linked(ds, free) && i < |free|
    ensures i + 1 < |free| ==> ds[free[i]].next == free[i + 1]
  {
  }

  lemma IdxStep(t: nat)
    ensures Wrap(Wrap(t) + 1) == Wrap(t + 1)
  {
  }

  lemma RingMore(num: nat, used: seq<Used>, last: nat, returned: seq<nat>, lens: seq<nat>, chains: map<nat, seq<nat>>,
                 h: nat, c: seq<nat>)
    requires RingOk(num, used, last, returned, lens, chains)
    ensures RingOk(num, used, last, returned, lens, chains[h := c])
  {
  }
}
