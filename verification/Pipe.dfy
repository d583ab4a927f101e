/** Pipes: fs/pipe.c.

    Readers and writers hold the pipe's mutex while they copy, so what one of them does between taking and dropping it
    is one stretch that no other reader or writer sees in parts. A call that has to wait drops the mutex and tries
    again later; here it returns Blocked and is called again with what is left. The last reader may go away at any
    time, and the user's memory may fault after any number of bytes.
 */
module Pipe {
  import opened Errno

  const SIZE: nat := 4096
  /** The range of the head and tail counters. */
  const WRAP: nat := 0x1_0000_0000

  type Byte = nat

  function Slot(i: nat): (r: nat)
    ensures r < SIZE
  {
    i % SIZE
  }

  /** The difference of two counters, as unsigned arithmetic gives it. */
  function Diff(a: nat, b: nat): nat
    requires a < WRAP && b < WRAP
  {
    (a + WRAP - b) % WRAP
  }

  lemma WrapFacts(h: nat, t: nat, n: nat)
    requires t <= h <= t + SIZE
    ensures Diff(h % WRAP, t % WRAP) == h - t
    ensures Slot(h % WRAP) == Slot(h) && Slot(t % WRAP) == Slot(t)
    ensures (h % WRAP + n) % WRAP == (h + n) % WRAP && (t % WRAP + n) % WRAP == (t + n) % WRAP
  {
    WrapDiff(h, t);
    WrapSlot(h);
    WrapSlot(t);
    WrapAdd(h, n);
    WrapAdd(t, n);
  }

  lemma WrapDiff(h: nat, t: nat)
    requires t <= h <= t + SIZE
    ensures Diff(h % WRAP, t % WRAP) == h - t
  {
  }

  /** The size of the buffer divides the range of the counters. */
  lemma WrapSlot(x: nat)
    ensures Slot(x % WRAP) == Slot(x)
  {
  }

  lemma WrapAdd(x: nat, n: nat)
    ensures (x % WRAP + n) % WRAP == (x + n) % WRAP
  {
  }

  /** A chunk that does not pass the end of the buffer occupies consecutive slots. */
  lemma ChunkSlots(i: nat, n: nat, k: nat)
    requires Slot(i) + n <= SIZE && k < n
    ensures Slot(i + k) == Slot(i) + k
  {
  }

  lemma SlotsApart(i: nat, j: nat)
    requires i < j < i + SIZE
    ensures Slot(i) != Slot(j)
  {
  }

  /** Done: everything was written. Blocked: the call has to wait. Again: it would, but may not. Broken: there is no
      reader. Fault: the user's memory failed. */
  datatype Outcome = Done | Blocked | Again | Broken | Fault

  function Min(a: nat, b: nat): nat {
    if a < b then a else b
  }

  /** The buffer holds the bytes from t to h of the stream. */
  ghost predicate Holds(b: seq<Byte>, stream: seq<Byte>, t: nat, h: nat) {
    && |b| == SIZE && t <= h <= |stream|
    && forall i :: t <= i < h ==> b[Slot(i)] == stream[i]
  }

  class Ring {
    const buffer: array<Byte>
    var head: nat
    var tail: nat
    var readers: nat
    var writers: nat
    /** All bytes ever accepted from writers, and how many of them went to readers. */
    ghost var accepted: seq<Byte>
    ghost var consumed: nat

    ghost predicate Valid()
      reads this, buffer
    {
      && buffer.Length == SIZE
      && consumed <= |accepted| <= consumed + SIZE
      && head == |accepted| % WRAP && tail == consumed % WRAP
      && Holds(buffer[..], accepted, consumed, |accepted|)
    }

    constructor ()
      ensures Valid() && accepted == [] && consumed == 0 && readers == writers == 1 && fresh(buffer)
    {
      buffer := new Byte[SIZE](_ => 0);
      head, tail, readers, writers := 0, 0, 1, 1;
      accepted, consumed := [], 0;
    }

    /** How many bytes are in the pipe: the wrapped difference of the counters. */
    lemma Fill()
      requires Valid()
      ensures head < WRAP && tail < WRAP && Diff(head, tail) == |accepted| - consumed <= SIZE
      ensures head == tail <==> consumed == |accepted|
    {
      WrapFacts(|accepted|, consumed, 0);
    }

    /** One pass of pipe_read's loop: a run of bytes up to the end of the buffer, of which the user's memory takes
        `room` at most. */
    method ReadChunk(want: nat, room: nat) returns (got: seq<Byte>, count: nat)
      requires Valid() && want > 0 && head != tail
      modifies this`tail, this`consumed
      ensures Valid() && accepted == old(accepted) && 0 < count <= want && count <= |accepted| - old(consumed)
      ensures |got| == Min(count, room)
      ensures consumed == old(consumed) + |got| && got == accepted[old(consumed)..consumed]
    {
      hide Holds, Diff, Slot;
      WrapFacts(|accepted|, consumed, 0);
      var offset := Slot(tail);
      count := Min(Min(Diff(head, tail), SIZE - offset), want);
      var copied := Min(count, room);
      WrapFacts(|accepted|, consumed, copied);
      got := buffer[offset..offset + copied];
      ReadMatches(buffer[..], accepted, consumed, |accepted|, copied);
      tail := (tail + copied) % WRAP;
      consumed := consumed + copied;
    }

    /** pipe_read once it has the mutex, with `room` bytes of user memory that can be written before a fault: takes
        bytes from the front of the stream until the request is full or the pipe is empty. */
    method Read(want: nat, room: nat, nonblock: bool) returns (got: seq<Byte>, out: Outcome)
      requires Valid()
      modifies this`tail, this`consumed
      ensures Valid() && accepted == old(accepted)
      ensures consumed == old(consumed) + |got| && got == accepted[old(consumed)..consumed]
      ensures out.Blocked? || out.Again? <==> old(consumed) == |accepted| && writers > 0
      ensures out.Blocked? || out.Again? ==> got == [] && (out.Again? <==> nonblock)
      ensures !out.Blocked? && !out.Again? ==> |got| == Min(room, Min(want, |accepted| - old(consumed)))
      ensures out.Fault? <==> !out.Blocked? && !out.Again? && room < Min(want, |accepted| - old(consumed))
      ensures out != Broken
    {
      hide Diff, Holds;
      got := [];
      Fill();
      if head == tail && writers > 0 {
        return [], if nonblock then Again else Blocked;
      }
      while |got| < want && head != tail
        invariant Valid() && accepted == old(accepted) && |got| <= want && |got| <= room
        invariant consumed == old(consumed) + |got| && got == accepted[old(consumed)..consumed]
        invariant head == tail <==> consumed == |accepted|
        decreases want - |got|
      {
        var more, count := ReadChunk(want - |got|, room - |got|);
        got := got + more;
        Fill();
        if |more| != count {
          return got, Fault;
        }
      }
      out := Done;
    }

    /** One pass of pipe_write's loop behind the check for room. */
    method WriteChunk(data: seq<Byte>, room: nat) returns (count: nat, copied: nat)
      requires Valid() && data != [] && |accepted| - consumed < SIZE
      modifies this`head, this`accepted, buffer
      ensures Valid() && consumed == old(consumed) && 0 < count <= |data|
      ensures count <= SIZE - (|old(accepted)| - consumed)
      ensures copied == Min(count, room) && accepted == old(accepted) + data[..copied]
    {
      hide Holds, Diff, Slot;
      WrapFacts(|accepted|, consumed, 0);
      var offset := Slot(head);
      count := Min(Min(SIZE - Diff(head, tail), SIZE - offset), |data|);
      copied := Min(count, room);
      WrapFacts(|accepted|, consumed, copied);
      ghost var b := buffer[..];
      forall k | 0 <= k < copied {
        buffer[offset + k] := data[k];
      }
      assert buffer[..] == b[..offset] + data[..copied] + b[offset + copied..];
      WriteMatches(b, buffer[..], accepted, consumed, |accepted|, data[..copied]);
      head := (head + copied) % WRAP;
      accepted := accepted + data[..copied];
    }

    /** pipe_write from taking the mutex until it finishes, fails or has to wait: appends a prefix of what is left to
        the stream. `whole` says that the call asked for no more than the pipe holds. Such a call waits only while it
        has written nothing, so what it writes is contiguous in the stream. `room` bytes of user memory can be read,
        and `stays` says after how many bytes there still is a reader. */
    method Write(data: seq<Byte>, whole: bool, room: nat, nonblock: bool, stays: nat -> bool)
      returns (done: nat, out: Outcome)
      requires Valid() && (whole ==> |data| <= SIZE)
      modifies this`head, this`accepted, buffer
      ensures Valid() && consumed == old(consumed) && done <= |data| && accepted == old(accepted) + data[..done]
      ensures out.Done? <==> done == |data|
      ensures whole && (out.Blocked? || out.Again?) ==> done == 0 && |data| > SIZE - (|accepted| - consumed)
      ensures !whole && (out.Blocked? || out.Again?) ==> |accepted| - consumed == SIZE
      ensures out.Blocked? ==> !nonblock
      ensures out.Again? ==> nonblock
      ensures out.Fault? ==> done == room
      ensures readers == 0 && data != [] ==> out.Broken? && done == 0
      ensures out.Broken? ==> readers == 0 || (done > 0 && !stays(done))
    {
      hide Diff, Holds, Ring.Valid;
      done := 0;
      while done < |data|
        invariant Valid() && consumed == old(consumed) && done <= |data| && accepted == old(accepted) + data[..done]
        invariant whole && done > 0 ==> |accepted| - consumed + (|data| - done) <= SIZE
        invariant readers == 0 ==> done == 0
        invariant done <= room
        decreases |data| - done
      {
        Fill();
        if readers == 0 {
          return done, Broken;
        }
        if done > 0 && !stays(done) {
          // the last reader went away meanwhile
          return done, Broken;
        }
        var need := if whole then |data| - done else 1;
        if SIZE - Diff(head, tail) < need {
          return done, if nonblock then Again else Blocked;
        }
        var count, copied := WriteChunk(data[done..], room - done);
        assert data[..done] + data[done..][..copied] == data[..done + copied];
        done := done + copied;
        if copied != count {
          return done, Fault;
        }
      }
      out := Done;
    }
  }

  lemma ReadMatches(b: seq<Byte>, stream: seq<Byte>, t: nat, h: nat, n: nat)
    requires Holds(b, stream, t, h) && t + n <= h && Slot(t) + n <= SIZE
    ensures b[Slot(t)..Slot(t) + n] == stream[t..t + n]
    ensures Holds(b, stream, t + n, h)
  {
    hide Slot;
    var x, y := b[Slot(t)..Slot(t) + n], stream[t..t + n];
    forall k | 0 <= k < n ensures x[k] == y[k] {
      ChunkSlots(t, n, k);
      assert b[Slot(t + k)] == stream[t + k];
    }
  }

  /** Writing a chunk behind the head leaves what is in the pipe alone. */
  lemma WriteMatches(b: seq<Byte>, c: seq<Byte>, stream: seq<Byte>, t: nat, h: nat, x: seq<Byte>)
    requires Holds(b, stream, t, h) && h == |stream| && h + |x| <= t + SIZE && Slot(h) + |x| <= SIZE && |c| == SIZE
    requires c == b[..Slot(h)] + x + b[Slot(h) + |x|..]
    ensures Holds(c, stream + x, t, h + |x|)
  {
    hide Slot;
    var s := stream + x;
    forall i | t <= i < h + |x| ensures c[Slot(i)] == s[i] {
      if i >= h {
        ChunkSlots(h, |x|, i - h);
      } else {
        SlotOutside(i, h, |x|);
        assert b[Slot(i)] == stream[i];
      }
    }
  }

  lemma SlotOutside(i: nat, h: nat, n: nat)
    requires i < h && h + n <= i + SIZE && Slot(h) + n <= SIZE
    ensures Slot(i) < Slot(h) || Slot(i) >= Slot(h) + n
  {
    if Slot(h) <= Slot(i) < Slot(h) + n {
      var k := Slot(i) - Slot(h);
      ChunkSlots(h, n, k);
      SlotsApart(i, h + k);
    }
  }

  /** A call of pipe_write, which may take the mutex several times. */
  class WriteCall {
    const data: seq<Byte>
    var done: nat
    var running: bool

    ghost predicate Valid()
      reads this
    {
      done <= |data| && (running && |data| <= SIZE ==> done == 0)
    }

    constructor (data: seq<Byte>)
      ensures Valid() && this.data == data && done == 0 && running
    {
      this.data, done, running := data, 0, true;
    }

    /** The next attempt of the call: locks the mutex, which a signal may interrupt, and writes; if it has to wait, a
        signal may end that too. The result is None if the call goes on. Whatever else other tasks did between two
        attempts, this one appends the next bytes of the call to the stream, in one piece; a call for no more than the
        pipe holds writes in one attempt only. The count it returns is what it wrote, except that a call which is
        interrupted at the mutex after it wrote something returns an error. */
    method Attempt(ring: Ring, lockOk: bool, room: nat, nonblock: bool, waitOk: bool, stays: nat -> bool)
      returns (r: Option<Result<nat>>)
      requires Valid() && ring.Valid() && running && (done < |data| || data == [])
      modifies this`done, this`running, ring`head, ring`accepted, ring.buffer
      ensures Valid() && ring.Valid() && ring.consumed == old(ring.consumed) && old(done) <= done
      ensures ring.accepted == old(ring.accepted) + data[old(done)..done] && (running <==> r.None?)
      ensures r.Some? && r.value.Ok? ==> r.value.value == done && (done > 0 || data == [])
      ensures lockOk && done == |data| ==> r == Some(Ok(|data|))
      ensures r.None? ==> lockOk && waitOk && !nonblock && done < |data|
      ensures r.None? && |data| > SIZE ==> |ring.accepted| - ring.consumed == SIZE
      ensures r.Some? && r.value.Err? ==> r.value.error in {EINTR, EPIPE, EFAULT, EAGAIN}
      ensures lockOk && ring.readers == 0 && data != [] ==>
                r == Some(if old(done) > 0 then Ok(old(done)) else Err(EPIPE))
      ensures r == Some(Err(EPIPE)) ==> ring.readers == 0
      ensures r == Some(Err(EFAULT)) ==> room == 0
      ensures r == Some(Err(EAGAIN)) ==> nonblock && |ring.accepted| - ring.consumed + Min(|data|, SIZE) > SIZE
      ensures lockOk && r == Some(Err(EINTR)) ==>
                !waitOk && !nonblock && |ring.accepted| - ring.consumed + Min(|data|, SIZE) > SIZE
      ensures !lockOk ==> r == Some(Err(EINTR)) && done == old(done)
      ensures r.Some? && r.value.Err? && done > 0 <==> !lockOk && old(done) > 0
      ensures (forall n: nat :: stays(n)) && ring.readers > 0 && lockOk && waitOk && !nonblock && room >= |data| ==>
                r.None? || r == Some(Ok(|data|))
    {
      hide Holds;
      if !lockOk {
        running := false;
        return Some(Err(EINTR));
      }
      var n, out := ring.Write(data[done..], |data| <= SIZE, room, nonblock, stays);
      assert data[done..][..n] == data[done..done + n];
      done := done + n;
      running := out.Blocked? && waitOk;
      match out
      case Done => return Some(Ok(done));
      case Broken => return Some(if done > 0 then Ok(done) else Err(EPIPE));
      case Fault => return Some(if done > 0 then Ok(done) else Err(EFAULT));
      case Again => return Some(if done > 0 then Ok(done) else Err(EAGAIN));
      case Blocked =>
        if !waitOk {
          return Some(if done > 0 then Ok(done) else Err(EINTR));
        }
        return None;
    }
  }

  /** What another task does while it has the mutex. */
  datatype Act = Takes(want: nat, room: nat) | Gives(bytes: seq<Byte>, whole: bool, room: nat)

  /** One attempt of a call, and what other tasks do before it. */
  datatype Turn = Turn(acts: seq<Act>, lockOk: bool, room: nat, waitOk: bool, stays: nat -> bool)

  /** Other tasks read from the front of the stream and append to it; they take nothing back. */
  method Others(ring: Ring, acts: seq<Act>)
    requires ring.Valid()
    modifies ring, ring.buffer
    ensures ring.Valid() && old(ring.accepted) <= ring.accepted && old(ring.consumed) <= ring.consumed
  {
    hide Holds, Diff, Ring.Valid;
    for i := 0 to |acts|
      invariant ring.Valid() && old(ring.accepted) <= ring.accepted && old(ring.consumed) <= ring.consumed
    {
      match acts[i] {
        case Takes(want, room) =>
          var got, out := ring.Read(want, room, true);
        case Gives(bytes, whole, room) =>
          var n, out := ring.Write(bytes, whole && |bytes| <= SIZE, room, true, _ => true);
      }
    }
  }

  /** The first n bytes of data are one piece of the stream. */
  ghost predicate Piece(stream: seq<Byte>, at: nat, data: seq<Byte>, n: nat) {
    n <= |data| && at + n <= |stream| && stream[at..at + n] == data[..n]
  }

  lemma PieceAppended(was: seq<Byte>, now: seq<Byte>, data: seq<Byte>, n: nat)
    requires n <= |data| && now == was + data[0..n]
    ensures Piece(now, |was|, data, n)
  {
  }

  /** A whole call of pipe_write, with other readers and writers at work between its attempts. A call for no more than
      the pipe holds leaves one contiguous piece in the stream, of the length that it returns, or nothing. */
  method Call(ring: Ring, data: seq<Byte>, turns: seq<Turn>, nonblock: bool)
    returns (r: Option<Result<nat>>, ghost at: nat, ghost wrote: nat)
    requires ring.Valid()
    modifies ring, ring.buffer
    ensures ring.Valid() && old(ring.accepted) <= ring.accepted && wrote <= |data|
    ensures |data| <= SIZE ==> Piece(ring.accepted, at, data, wrote)
    ensures |data| <= SIZE && wrote > 0 ==> |old(ring.accepted)| <= at
    ensures |data| <= SIZE ==> wrote == if r.Some? && r.value.Ok? then r.value.value else 0
    ensures r.Some? && r.value.Ok? ==> r.value.value == wrote
  {
    hide Holds, Diff, Ring.Valid, Piece;
    PieceAppended(ring.accepted, ring.accepted, data, 0);
    var call := new WriteCall(data);
    r, at := None, |ring.accepted|;
    var i := 0;
    while i < |turns| && r.None?
      invariant ring.Valid() && old(ring.accepted) <= ring.accepted && fresh(call) && call.Valid() && call.data == data
      invariant call.running <==> r.None?
      invariant call.running ==> call.done < |data| || data == []
      invariant |data| <= SIZE ==> Piece(ring.accepted, at, data, call.done)
      invariant |data| <= SIZE && call.done > 0 ==> |old(ring.accepted)| <= at
      invariant |data| <= SIZE ==> call.done == if r.Some? && r.value.Ok? then r.value.value else 0
      invariant r.Some? && r.value.Ok? ==> r.value.value == call.done
      decreases |turns| - i
    {
      Others(ring, turns[i].acts);
      ghost var before := ring.accepted;
      r := call.Attempt(ring, turns[i].lockOk, turns[i].room, nonblock, turns[i].waitOk, turns[i].stays);
      at := |before|;
      if |data| <= SIZE {
        PieceAppended(before, ring.accepted, data, call.done);
      }
      i := i + 1;
    }
    wrote := call.done;
  }

  /** A call for one byte more than an empty pipe holds writes all but that byte and waits; a signal that arrives while
      it takes the mutex again makes it return EINTR, and the count of what it wrote is lost. */
  method LostCount() returns (ring: Ring, wrote: nat, r: Option<Result<nat>>)
    ensures fresh(ring) && fresh(ring.buffer) && ring.Valid()
    ensures r == Some(Err(EINTR)) && wrote == SIZE == |ring.accepted|
  {
    hide Holds, Diff;
    ring := new Ring();
    var call := new WriteCall(seq(SIZE + 1, _ => 0));
    var yes := (n: nat) => true;
    assert forall n: nat :: yes(n);
    var first := call.Attempt(ring, true, SIZE + 1, false, true, yes);
    r := call.Attempt(ring, false, SIZE + 1, false, true, yes);
    wrote := call.done;
  }
}
