/** Request slots of the virtio block driver: drivers/block/virtio-blk.c.

    A task reserves one of 16 slots, submits a chain of at most three descriptors for it, and waits for the slot's
    completion; the interrupt handler collects what the device returned, records the results, and then signals the
    completions one by one. Each method is one stretch of code with the driver's lock held, so any number of tasks and
    the handler interleave between them.
 */
module VirtioBlk {
  import opened Errno
  import opened Virtqueue

  const SLOTS: nat := 16
  const QUEUE_SIZE: nat := 64

  /** REQUEST_FREE, REQUEST_PREPARING and REQUEST_SUBMITTED; the last until the slot is released. */
  datatype RequestState = Free | Preparing | Submitted

  /** `tag` names the request that the slot serves. `answered`: the handler has recorded its result. `done` is the count
      of the slot's completion. */
  datatype Slot = Slot(state: RequestState, tag: nat, expected: nat, answered: bool, result: Result<()>, done: nat)

  /** What the handler makes of the device's answer: the number of bytes written, and the status byte. */
  function Outcome(written: nat, expected: nat, status: nat): Result<()> {
    if written != expected then Err(EIO)
    else if status == 0 then Ok(())
    else if status == 2 then Err(EOPNOTSUPP)
    else Err(EIO)
  }

  // ---------------------------------------------------------------------------------------------
  // There is always room for a reserved slot
  // ---------------------------------------------------------------------------------------------

  lemma {:induction false} OwnedBound(chains: map<nat, seq<nat>>, k: nat)
    requires forall h :: h in chains ==> |chains[h]| <= k
    ensures |Owned(chains)| <= k * |chains|
    decreases |chains|
  {
    if |chains| == 0 {
      assert chains == map[];
      assert Owned(chains) == {};
    } else {
      var h :| h in chains;
      MapShrinks(chains, h);
      var rest := chains - {h};
      assert forall x :: x in rest ==> rest[x] == chains[x];
      OwnedBound(rest, k);
      ElemsAtMost(chains[h]);
      OwnedSplit(chains, h);
      UnionBound(Owned(rest), Elems(chains[h]));
      assert k * |chains| == k * (|chains| - 1) + k;
    }
  }

  lemma OwnedSplit(chains: map<nat, seq<nat>>, h: nat)
    requires h in chains
    ensures Owned(chains) == Owned(chains - {h}) + Elems(chains[h])
  {
    var rest := chains - {h};
    forall d ensures d in Owned(chains) <==> d in Owned(rest) || d in Elems(chains[h]) {
      if d in Owned(chains) {
        var k :| k in chains && d in chains[k];
        if k != h { assert rest[k] == chains[k]; }
      }
      if d in Owned(rest) {
        var k :| k in rest && d in rest[k];
        assert chains[k] == rest[k];
      }
    }
  }

  lemma UnionBound(a: set<nat>, b: set<nat>)
    ensures |a + b| <= |a| + |b|
  {
    assert a + b == a + (b - a);
    assert |a + (b - a)| == |a| + |b - a|;
    assert |b - a| <= |b| by { assert b == (b - a) + (b * a); }
  }

  lemma {:induction false} ElemsAtMost(l: seq<nat>)
    ensures |Elems(l)| <= |l|
  {
    if l == [] {
      assert Elems(l) == {};
    } else {
      ElemsAtMost(l[1..]);
      assert Elems(l) == {l[0]} + Elems(l[1..]);
      UnionBound({l[0]}, Elems(l[1..]));
    }
  }

  ghost function Below(n: nat): set<nat> {
    if n == 0 then {} else Below(n - 1) + {n - 1}
  }

  lemma {:induction false} BelowFacts(n: nat)
    ensures |Below(n)| == n && forall d: nat :: d in Below(n) <==> d < n
  {
    if n > 0 { BelowFacts(n - 1); }
  }

  /** The free descriptors are those that no chain owns. */
  lemma FreeCount(num: nat, free: seq<nat>, chains: map<nat, seq<nat>>)
    requires Partition(num, free, chains)
    ensures |free| + |Owned(chains)| == num
  {
    ElemsCount(free);
    BelowFacts(num);
    assert Below(num) == Elems(free) + Owned(chains);
  }

  /** No more keys than values, if different keys have different values. */
  lemma {:induction false} Injective(keys: set<nat>, f: map<nat, nat>, values: set<nat>)
    requires forall h :: h in keys ==> h in f && f[h] in values
    requires forall h, k :: h in keys && k in keys && h != k ==> f[h] != f[k]
    ensures |keys| <= |values|
    decreases |keys|
  {
    if keys != {} {
      var h :| h in keys;
      Injective(keys - {h}, f, values - {f[h]});
    }
  }

  // ---------------------------------------------------------------------------------------------
  // The driver
  // ---------------------------------------------------------------------------------------------

  /** Each outstanding chain belongs to one submitted, unanswered slot. A result waits to be signalled exactly while its
      slot is in the handler's batch, and a completion counts at most one signal. */
  ghost predicate SlotsOk(slots: seq<Slot>, batch: seq<nat>, cookies: seq<Option<Cookie>>, chains: map<nat, seq<nat>>) {
    && |slots| == SLOTS
    && (forall h :: h in chains ==>
          h < |cookies| && cookies[h].Some? && cookies[h].value < SLOTS && |chains[h]| <= 3
          && slots[cookies[h].value].state.Submitted? && !slots[cookies[h].value].answered)
    && (forall h, k :: h in chains && k in chains && h != k && h < |cookies| && k < |cookies| ==>
          cookies[h] != cookies[k])
    && (forall i :: 0 <= i < SLOTS ==> slots[i].done <= 1 && (slots[i].answered ==> slots[i].state.Submitted?)
                                       && (slots[i].answered && slots[i].done == 0 <==> i in batch)
                                       && (slots[i].done == 1 ==> slots[i].answered))
    && (forall i :: i in batch ==> i < SLOTS) && NoDup(batch)
  }

  /** Requests under way have different tags. */
  ghost predicate TagsApart(slots: seq<Slot>) {
    forall i, j :: 0 <= i < j < |slots| && slots[i].state.Submitted? && slots[j].state.Submitted? ==>
                     slots[i].tag != slots[j].tag
  }

  /** What the device wrote for a request: how many bytes, and the status. */
  datatype Answer = Answer(written: nat, status: nat)

  /** What a returned head stands for is what the device answered to the request of its slot; a recorded result is made
      of the answer to the slot's own request. */
  ghost predicate AnswersOk(slots: seq<Slot>, status: seq<nat>, answers: map<nat, Answer>, cookies: seq<Option<Cookie>>,
                            returned: seq<nat>, lens: seq<nat>)
  {
    && |slots| == |status| == SLOTS && |lens| == |returned|
    && (forall k :: 0 <= k < |returned| ==>
          returned[k] < |cookies| && cookies[returned[k]].Some? && cookies[returned[k]].value < SLOTS
          && var i := cookies[returned[k]].value;
             slots[i].tag in answers && answers[slots[i].tag] == Answer(lens[k], status[i]))
    && (forall i :: 0 <= i < SLOTS && slots[i].answered ==>
          slots[i].tag in answers
          && slots[i].result == Outcome(answers[slots[i].tag].written, slots[i].expected, answers[slots[i].tag].status))
  }

  lemma FewerChains(i: nat, slots: seq<Slot>, batch: seq<nat>, cookies: seq<Option<Cookie>>,
                    chains: map<nat, seq<nat>>)
    requires SlotsOk(slots, batch, cookies, chains) && i < SLOTS && !slots[i].state.Submitted?
    ensures |chains| <= SLOTS - 1
  {
    hide Below, NoDup;
    var f := map h | h in chains.Keys && h < |cookies| && cookies[h].Some? :: cookies[h].value;
    BelowFacts(SLOTS);
    Injective(chains.Keys, f, Below(SLOTS) - {i});
    assert |chains| == |chains.Keys|;
  }

  /** With 64 descriptors, 16 slots and at most three descriptors for each, a slot that is not submitted finds three. */
  lemma RoomForOne(i: nat, slots: seq<Slot>, batch: seq<nat>, cookies: seq<Option<Cookie>>, free: seq<nat>,
                   chains: map<nat, seq<nat>>)
    requires SlotsOk(slots, batch, cookies, chains) && i < SLOTS && !slots[i].state.Submitted?
    requires Partition(QUEUE_SIZE, free, chains)
    ensures |free| >= 3
  {
    hide Partition;
    FewerChains(i, slots, batch, cookies, chains);
    OwnedBound(chains, 3);
    FreeCount(QUEUE_SIZE, free, chains);
  }

  lemma SubmitSlots(slots: seq<Slot>, batch: seq<nat>, cookies: seq<Option<Cookie>>, chains: map<nat, seq<nat>>,
                    h: nat, c: seq<nat>, i: nat, tag: nat, expected: nat)
    requires SlotsOk(slots, batch, cookies, chains) && i < SLOTS && slots[i].state.Preparing?
    requires h !in chains && h < |cookies| && |c| <= 3
    ensures slots[i].done == 0
    ensures SlotsOk(slots[i := Slot(Submitted, tag, expected, false, slots[i].result, 0)], batch,
                    cookies[h := Some(i)], chains[h := c])
  {
  }

  lemma SubmitAnswers(slots: seq<Slot>, batch: seq<nat>, status: seq<nat>, answers: map<nat, Answer>,
                      cookies: seq<Option<Cookie>>, chains: map<nat, seq<nat>>, returned: seq<nat>, lens: seq<nat>,
                      h: nat, i: nat, tag: nat, expected: nat)
    requires SlotsOk(slots, batch, cookies, chains) && AnswersOk(slots, status, answers, cookies, returned, lens)
    requires i < SLOTS && slots[i].state.Preparing? && h !in chains && h < |cookies|
    requires forall x :: x in returned ==> x in chains
    ensures AnswersOk(slots[i := Slot(Submitted, tag, expected, false, slots[i].result, 0)], status, answers,
                      cookies[h := Some(i)], returned, lens)
  {
  }

  lemma DeviceAnswers(slots: seq<Slot>, batch: seq<nat>, status: seq<nat>, answers: map<nat, Answer>,
                      cookies: seq<Option<Cookie>>, chains: map<nat, seq<nat>>, returned: seq<nat>, lens: seq<nat>,
                      h: nat, len: nat, st: nat)
    requires SlotsOk(slots, batch, cookies, chains) && AnswersOk(slots, status, answers, cookies, returned, lens)
    requires h in chains && h !in returned && forall x :: x in returned ==> x in chains
    requires TagsApart(slots)
    ensures h < |cookies| && cookies[h].Some? && cookies[h].value < SLOTS
    ensures var i := cookies[h].value;
      AnswersOk(slots, status[i := st], answers[slots[i].tag := Answer(len, st)], cookies, returned + [h], lens + [len])
  {
    var i := cookies[h].value;
    forall k | 0 <= k < |returned| ensures cookies[returned[k]].value != i {
      assert returned[k] in returned;
    }
  }

  /** One pass of the handler's loop, on one returned head. */
  lemma CollectSlots(slots: seq<Slot>, batch: seq<nat>, cookies: seq<Option<Cookie>>, chains: map<nat, seq<nat>>,
                     h: nat,
                     r: Result<()>)
    requires SlotsOk(slots, batch, cookies, chains) && h in chains
    ensures h < |cookies| && cookies[h].Some? && cookies[h].value < SLOTS
    ensures var i := cookies[h].value;
      slots[i].state.Submitted? && slots[i].done == 0
      && SlotsOk(slots[i := slots[i].(answered := true, result := r)], batch + [i], cookies[h := None], chains - {h})
  {
    var i := cookies[h].value;
    assert i !in batch;
    var slots2 := slots[i := slots[i].(answered := true, result := r)];
    assert forall x :: x in batch + [i] <==> x in batch || x == i;
    JoinNoDup(batch, [i]);
  }

  lemma CollectAnswers(slots: seq<Slot>, batch: seq<nat>, status: seq<nat>, answers: map<nat, Answer>,
                       cookies: seq<Option<Cookie>>, chains: map<nat, seq<nat>>, returned: seq<nat>, lens: seq<nat>)
    requires SlotsOk(slots, batch, cookies, chains) && AnswersOk(slots, status, answers, cookies, returned, lens)
    requires returned != [] && NoDup(returned) && forall x :: x in returned ==> x in chains
    ensures var h := returned[0];
      && h < |cookies| && cookies[h].Some? && cookies[h].value < SLOTS
      && var i := cookies[h].value;
         AnswersOk(slots[i := slots[i].(answered := true, result := Outcome(lens[0], slots[i].expected, status[i]))],
                   status, answers, cookies[h := None], returned[1..], lens[1..])
  {
    var h := returned[0];
    var i := cookies[h].value;
    forall k | 0 <= k < |returned[1..]|
      ensures returned[1..][k] == returned[k + 1] != h && cookies[returned[k + 1]].value != i
    {
      assert returned[k + 1] in returned;
    }
  }

  class Blk {
    const vq: Vq
    var slots: seq<Slot>
    /** The status bytes, which the device writes. */
    var status: seq<nat>
    /** Slots whose results the handler has recorded and not signalled yet. */
    var batch: seq<nat>
    /** What the device answered, by request. */
    ghost var answers: map<nat, Answer>

    ghost predicate Valid()
      reads this, vq, vq.desc, vq.cookies, vq.avail, vq.used
    {
      && vq.Valid() && vq.num == QUEUE_SIZE
      && SlotsOk(slots, batch, vq.cookies[..], vq.chains)
      && AnswersOk(slots, status, answers, vq.cookies[..], vq.returned, vq.lens)
      && TagsApart(slots)
    }

    constructor ()
      ensures Valid() && fresh(vq) && fresh(vq.desc) && fresh(vq.cookies) && fresh(vq.avail) && fresh(vq.used)
      ensures forall i :: 0 <= i < SLOTS ==> slots[i].state.Free?
    {
      vq := new Vq(QUEUE_SIZE);
      slots := seq(SLOTS, _ => Slot(Free, 0, 0, false, Ok(()), 0));
      status := seq(SLOTS, _ => 0);
      batch, answers := [], map[];
    }

    /** reserve_request: the first free slot, none only if all are taken. */
    method Reserve() returns (r: Option<nat>)
      requires Valid()
      modifies this`slots
      ensures Valid()
      ensures r.None? ==> slots == old(slots) && forall i :: 0 <= i < SLOTS ==> !slots[i].state.Free?
      ensures r.Some? ==> r.value < SLOTS && old(slots)[r.value].state.Free?
                          && slots == old(slots)[r.value := old(slots)[r.value].(state := Preparing)]
    {
      hide Vq.Valid;
      var i := 0;
      while i < SLOTS
        invariant 0 <= i <= SLOTS && slots == old(slots) && forall j :: 0 <= j < i ==> !slots[j].state.Free?
      {
        if slots[i].state.Free? {
          slots := slots[i := slots[i].(state := Preparing)];
          return Some(i);
        }
        i := i + 1;
      }
      return None;
    }

    /** submit_request for a reserved slot. The virtqueue has room for it, whatever the other slots are doing. */
    method Submit(i: nat, tag: nat, sg: seq<Buf>, nOut: nat, expected: nat)
      requires Valid() && i < SLOTS && slots[i].state.Preparing? && 0 < |sg| <= 3 && nOut <= |sg|
      requires tag !in answers && forall j :: 0 <= j < SLOTS ==> slots[j].tag != tag
      modifies this, vq, vq.desc, vq.cookies, vq.avail
      ensures Valid() && answers == old(answers) && batch == old(batch)
      ensures slots == old(slots)[i := Slot(Submitted, tag, expected, false, old(slots)[i].result, 0)]
      ensures |vq.chains| == |old(vq.chains)| + 1
    {
      hide SlotsOk, AnswersOk, Vq.Valid, Partition, NoDup, Carries, Virtqueue.Slot;
      vq.Facts();
      Sizes(slots, batch, status, answers, vq.cookies[..], vq.chains, vq.returned, vq.lens);
      RoomForOne(i, slots, batch, vq.cookies[..], vq.free, vq.chains);
      ghost var cs, chains, head := vq.cookies[..], vq.chains, vq.freeHead;
      var r := vq.Add(sg, nOut, i);
      assert r.Ok?;
      assert vq.cookies[..] == cs[head := Some(i)];
      SubmitSlots(slots, batch, cs, chains, head, vq.chains[head], i, tag, expected);
      SubmitAnswers(slots, batch, status, answers, cs, chains, vq.returned, vq.lens, head, i, tag, expected);
      MapGrows(chains, head, vq.chains[head]);
      slots := slots[i := Slot(Submitted, tag, expected, false, slots[i].result, 0)];
    }

    /** The device answers an outstanding request: it writes the status byte and returns the head. */
    method DeviceAnswer(h: nat, len: nat, st: nat)
      requires Valid() && h in vq.chains && h !in vq.returned
      modifies this`status, this`answers, vq, vq.used
      ensures Valid() && vq.returned == old(vq.returned) + [h]
      ensures exists i :: 0 <= i < SLOTS && vq.cookies[h] == Some(i)
                          && answers == old(answers)[slots[i].tag := Answer(len, st)]
    {
      hide SlotsOk, AnswersOk, Vq.Valid, Partition, NoDup;
      vq.Facts();
      Sizes(slots, batch, status, answers, vq.cookies[..], vq.chains, vq.returned, vq.lens);
      DeviceAnswers(slots, batch, status, answers, vq.cookies[..], vq.chains, vq.returned, vq.lens, h, len, st);
      ghost var cs := vq.cookies[..];
      var i := vq.cookies[h].value;
      vq.DeviceReturn(h, len);
      assert vq.cookies[..] == cs;
      status := status[i := st];
      answers := answers[slots[i].tag := Answer(len, st)];
    }

    /** virtio_blk_done with the lock held: records the result of everything returned. The request it finds for each
        cookie is a submitted one. */
    method Collect()
      requires Valid() && batch == []
      modifies this`slots, this`batch, vq, vq.desc, vq.cookies
      ensures Valid() && vq.returned == [] && |batch| == |old(vq.returned)|
      ensures forall i :: 0 <= i < SLOTS ==> slots[i].tag == old(slots)[i].tag && slots[i].state == old(slots)[i].state
                                             && slots[i].expected == old(slots)[i].expected
    {
      hide SlotsOk, AnswersOk, Vq.Valid;
      Sizes(slots, batch, status, answers, vq.cookies[..], vq.chains, vq.returned, vq.lens);
      var more := true;
      while more
        invariant Valid() && answers == old(answers) && status == old(status)
        invariant !more ==> vq.returned == []
        invariant |batch| + |vq.returned| == |old(vq.returned)|
        invariant |slots| == |old(slots)| == SLOTS
        invariant forall i :: 0 <= i < SLOTS ==>
                    slots[i].tag == old(slots)[i].tag && slots[i].state == old(slots)[i].state
                                                 && slots[i].expected == old(slots)[i].expected
        decreases |vq.returned|, more
      {
        more := CollectOne();
      }
    }

    method CollectOne() returns (more: bool)
      requires Valid()
      modifies this`slots, this`batch, vq, vq.desc, vq.cookies
      ensures Valid() && |slots| == |old(slots)| == SLOTS
      ensures more <==> old(vq.returned) != []
      ensures !more ==> slots == old(slots) && batch == old(batch) && vq.returned == old(vq.returned)
      ensures more ==> |batch| == |old(batch)| + 1 && vq.returned == old(vq.returned)[1..]
      ensures forall i :: 0 <= i < SLOTS ==> slots[i].tag == old(slots)[i].tag && slots[i].state == old(slots)[i].state
                                             && slots[i].expected == old(slots)[i].expected
    {
      hide SlotsOk, AnswersOk, Vq.Valid, Partition, NoDup, Virtqueue.Slot;
      vq.Facts();
      Sizes(slots, batch, status, answers, vq.cookies[..], vq.chains, vq.returned, vq.lens);
      ghost var cs, chains, returned, lens := vq.cookies[..], vq.chains, vq.returned, vq.lens;
      var cookie, written, h := vq.GetBuf();
      if cookie.None? {
        return false;
      }
      CollectSlots(slots, batch, cs, chains, h, Err(EIO));
      CollectAnswers(slots, batch, status, answers, cs, chains, returned, lens);
      var i := cookie.value;
      assert slots[i].state.Submitted?;
      var r := Outcome(written, slots[i].expected, status[i]);
      CollectSlots(slots, batch, cs, chains, h, r);
      slots := slots[i := slots[i].(answered := true, result := r)];
      batch := batch + [i];
      return true;
    }

    /** The handler signals the completion of the next slot of its batch. */
    method CompleteNext()
      requires Valid() && batch != []
      modifies this`slots, this`batch
      ensures Valid() && batch == old(batch)[1..] && old(batch)[0] < SLOTS
      ensures slots == old(slots)[old(batch)[0] := old(slots)[old(batch)[0]].(done := 1)]
    {
      hide Vq.Valid;
      CompleteSlots(slots, batch, vq.cookies[..], vq.chains);
      var i := batch[0];
      slots := slots[i := slots[i].(done := slots[i].done + 1)];
      batch := batch[1..];
    }

    /** The waiter of a slot whose completion is signalled: takes the completion, reads the result, releases the slot.
        The result is made of what the device answered to the waiter's own request. */
    method Finish(i: nat, tag: nat) returns (r: Result<()>)
      requires Valid() && i < SLOTS && slots[i].done > 0 && slots[i].tag == tag
      modifies this`slots
      ensures Valid() && tag in answers
      ensures r == Outcome(answers[tag].written, old(slots)[i].expected, answers[tag].status)
      ensures slots == old(slots)[i := old(slots)[i].(state := Free, answered := false, done := 0)]
    {
      hide Vq.Valid;
      FinishSlots(slots, batch, vq.cookies[..], vq.chains, i);
      r := slots[i].result;
      slots := slots[i := slots[i].(state := Free, answered := false, done := slots[i].done - 1)];
    }
  }

  lemma Sizes(slots: seq<Slot>, batch: seq<nat>, status: seq<nat>, answers: map<nat, Answer>,
              cookies: seq<Option<Cookie>>, chains: map<nat, seq<nat>>, returned: seq<nat>, lens: seq<nat>)
    requires SlotsOk(slots, batch, cookies, chains) && AnswersOk(slots, status, answers, cookies, returned, lens)
    ensures |slots| == |status| == SLOTS && |lens| == |returned|
  {
  }

  lemma CompleteSlots(slots: seq<Slot>, batch: seq<nat>, cookies: seq<Option<Cookie>>, chains: map<nat, seq<nat>>)
    requires SlotsOk(slots, batch, cookies, chains) && batch != []
    ensures batch[0] < SLOTS && slots[batch[0]].done == 0 && slots[batch[0]].answered
    ensures SlotsOk(slots[batch[0] := slots[batch[0]].(done := 1)], batch[1..], cookies, chains)
  {
    var i := batch[0];
    assert i in batch && i !in batch[1..];
    assert forall x :: x in batch <==> x == i || x in batch[1..];
  }

  lemma FinishSlots(slots: seq<Slot>, batch: seq<nat>, cookies: seq<Option<Cookie>>, chains: map<nat, seq<nat>>, i: nat)
    requires SlotsOk(slots, batch, cookies, chains) && i < SLOTS && slots[i].done > 0
    ensures slots[i].done == 1 && slots[i].answered
    ensures SlotsOk(slots[i := slots[i].(state := Free, answered := false, done := 0)], batch, cookies, chains)
  {
  }
}
