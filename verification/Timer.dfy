/** Timers with synchronous cancel: kernel/timer.c.

    One CPU's timer base: the queued timers in order of deadline and start sequence, a pointer to the first one, the
    tick handler, and tasks that wait for a running callback to drain. A step is one stretch with the base's lock held;
    the callback runs between two of them.
 */
module Timer {
  import opened Errno

  type Id = nat
  type Task = nat

  datatype TState = Idle | Queued | Running | Draining

  datatype Entry = Entry(id: Id, deadline: nat, sequence: nat)

  /** The order of the queue: by deadline, and by start among equal deadlines. */
  predicate Before(a: Entry, b: Entry) {
    a.deadline < b.deadline || (a.deadline == b.deadline && a.sequence < b.sequence)
  }

  ghost predicate Sorted(q: seq<Entry>) {
    forall i, j :: 0 <= i < j < |q| ==> Before(q[i], q[j])
  }

  // ---------------------------------------------------------------------------------------------
  // Finding the place of a timer
  // ---------------------------------------------------------------------------------------------

  datatype Tree = Nil | Node(left: Tree, entry: Entry, right: Tree)

  function Inorder(t: Tree): seq<Entry> {
    if t.Nil? then [] else Inorder(t.left) + [t.entry] + Inorder(t.right)
  }

  lemma Window(q: seq<Entry>, t: Tree, lo: nat, hi: nat) returns (m: nat)
    requires t.Node? && lo <= hi <= |q| && Inorder(t) == q[lo..hi]
    ensures lo <= m < hi && q[m] == t.entry && Inorder(t.left) == q[lo..m] && Inorder(t.right) == q[m + 1..hi]
  {
    var l, r := Inorder(t.left), Inorder(t.right);
    m := lo + |l|;
    var s := q[lo..hi];
    assert s[|l|] == t.entry && s[..|l|] == l && s[|l| + 1..] == r;
  }

  lemma NilEmpty(t: Tree)
    requires t.Nil?
    ensures Inorder(t) == []
  {
  }

  /** timer_start's descent: where the timer belongs, and whether it is now the first one. */
  method Place(t: Tree, e: Entry) returns (first: bool, ghost at: nat)
    requires Sorted(Inorder(t)) && forall i :: 0 <= i < |Inorder(t)| ==> Inorder(t)[i].sequence < e.sequence
    ensures at <= |Inorder(t)| && (first <==> at == 0)
    ensures forall i :: 0 <= i < at ==> Before(Inorder(t)[i], e)
    ensures forall i :: at <= i < |Inorder(t)| ==> Before(e, Inorder(t)[i])
    ensures Insert(Inorder(t), e) == Inorder(t)[..at] + [e] + Inorder(t)[at..]
  {
    hide Inorder, Insert;
    ghost var q := Inorder(t);
    ghost var lo, hi := 0, |q|;
    var node := t;
    first := true;
    while node.Node?
      invariant 0 <= lo <= hi <= |q| && Inorder(node) == q[lo..hi] && (first <==> lo == 0)
      invariant forall i :: 0 <= i < lo ==> Before(q[i], e)
      invariant forall i :: hi <= i < |q| ==> Before(e, q[i])
      decreases node
    {
      ghost var m := Window(q, node, lo, hi);
      if Before(e, node.entry) {
        node := node.left;
        hi := m;
      } else {
        assert q[m] == node.entry && Inorder(t)[m].sequence < e.sequence;
        assert Before(q[m], e);
        node := node.right;
        first := false;
        lo := m + 1;
      }
    }
    NilEmpty(node);
    at := lo;
    PlaceInserts(q, e, at);
  }

  // ---------------------------------------------------------------------------------------------
  // Steps
  // ---------------------------------------------------------------------------------------------

  /** The tick handler: not running, between two timers, or in the callback of one. */
  datatype Handler = Off | Looping(now: nat) | Calling(now: nat, id: Id)

  /** `syncs`: the tasks in timer_cancel_sync and their timers. `asleep`: those of them that sleep on the drain queue.
      */
  datatype State = State(
    queue: seq<Entry>,
    first: Option<Id>,
    nextSequence: nat,
    states: map<Id, TState>,
    handler: Handler,
    syncs: map<Task, Id>,
    asleep: set<Task>)
  {
    function At(t: Id): TState {
      StateOf(states, t)
    }
  }

  function StateOf(states: map<Id, TState>, t: Id): TState {
    if t in states then states[t] else Idle
  }

  datatype Event =
    | Start(t: Id, deadline: nat)
    | Cancel(t: Id)
    | SyncBegin(w: Task, t: Id)
    | SyncPass(w: Task)
    | TickBegin(now: nat)
    | TickStep
    | CallbackEnd

  ghost predicate Enabled(s: State, e: Event) {
    match e
    case Start(_, _) => true
    case Cancel(_) => true
    case SyncBegin(w, _) => w !in s.syncs
    case SyncPass(w) => w in s.syncs && w !in s.asleep
    case TickBegin(_) => s.handler.Off?
    case TickStep => s.handler.Looping?
    case CallbackEnd => s.handler.Calling?
  }

  function Insert(q: seq<Entry>, e: Entry): seq<Entry> {
    if q == [] || Before(e, q[0]) then [e] + q else [q[0]] + Insert(q[1..], e)
  }

  function Remove(q: seq<Entry>, t: Id): seq<Entry> {
    if q == [] then [] else if q[0].id == t then q[1..] else [q[0]] + Remove(q[1..], t)
  }

  function FirstOf(q: seq<Entry>): Option<Id> {
    if q == [] then None else Some(q[0].id)
  }

  function DeadlineOf(q: seq<Entry>, t: Id): nat {
    if q == [] then 0 else if q[0].id == t then q[0].deadline else DeadlineOf(q[1..], t)
  }

  /** rb_next of the first timer. */
  function SecondOf(q: seq<Entry>): Option<Id> {
    if |q| < 2 then None else Some(q[1].id)
  }

  /** timer_start on an idle timer. */
  function Started(s: State, t: Id, deadline: nat): State {
    var e := Entry(t, deadline, s.nextSequence);
    var q := Insert(s.queue, e);
    s.(queue := q, first := if q[0] == e then Some(t) else s.first, nextSequence := s.nextSequence + 1,
       states := s.states[t := Queued])
  }

  /** remove_timer_locked. */
  function Unqueued(s: State, t: Id, st: TState): State {
    s.(queue := Remove(s.queue, t), first := if s.first == Some(t) then SecondOf(s.queue) else s.first,
       states := s.states[t := st])
  }

  /** timer_cancel_locked: 1 if it removed the timer, 0 if it was idle, -EBUSY while its callback runs. */
  function Cancelled(s: State, t: Id): (State, Result<nat>) {
    match s.At(t)
    case Queued => (Unqueued(s, t, Idle), Ok(1))
    case Running => (s.(states := s.states[t := Draining]), Err(EBUSY))
    case Draining => (s, Err(EBUSY))
    case Idle => (s, Ok(0))
  }

  function Apply(s: State, e: Event): State {
    match e
    case Start(t, deadline) => if s.At(t).Idle? then Started(s, t, deadline) else s
    case Cancel(t) => Cancelled(s, t).0
    case SyncBegin(w, t) => s.(syncs := s.syncs[w := t])
    case SyncPass(w) =>
      if w !in s.syncs then s
      else
        var (u, r) := Cancelled(s, s.syncs[w]);
        if r.Ok? then u.(syncs := u.syncs - {w}) else u.(asleep := u.asleep + {w})
    case TickBegin(now) => s.(handler := Looping(now))
    case TickStep =>
      if !s.handler.Looping? then s
      else if s.first.None? || DeadlineOf(s.queue, s.first.value) > s.handler.now then s.(handler := Off)
      else Unqueued(s, s.first.value, Running).(handler := Calling(s.handler.now, s.first.value))
    case CallbackEnd =>
      if !s.handler.Calling? then s
      else
        var t := s.handler.id;
        s.(states := s.states[t := Idle], handler := Looping(s.handler.now),
           asleep := if s.At(t).Draining? then {} else s.asleep)
  }

  // ---------------------------------------------------------------------------------------------
  // The invariant
  // ---------------------------------------------------------------------------------------------

  ghost predicate InQueue(q: seq<Entry>, t: Id) {
    exists i :: 0 <= i < |q| && q[i].id == t
  }

  ghost predicate DistinctIds(q: seq<Entry>) {
    forall i, j :: 0 <= i < j < |q| ==> q[i].id != q[j].id
  }

  /** The queue is in order, its timers are those in state QUEUED, and `first` is the first of them. */
  ghost predicate QueueOk(q: seq<Entry>, first: Option<Id>, next: nat, states: map<Id, TState>) {
    && Sorted(q) && DistinctIds(q) && first == FirstOf(q)
    && (forall x :: x in q ==> x.sequence < next)
    && (forall t: Id :: StateOf(states, t).Queued? <==> InQueue(q, t))
  }

  predicate InCall(st: TState) {
    st.Running? || st.Draining?
  }

  /** The timer in its callback is the one that the handler calls. */
  ghost predicate CallOk(states: map<Id, TState>, handler: Handler) {
    forall t: Id :: InCall(StateOf(states, t)) <==> (handler.Calling? && handler.id == t)
  }

  /** Who sleeps on the drain queue waits for a timer that is draining. */
  ghost predicate SleepOk(states: map<Id, TState>, syncs: map<Task, Id>, asleep: set<Task>) {
    forall w: Task :: w in asleep ==> w in syncs && StateOf(states, syncs[w]).Draining?
  }

  ghost predicate Inv(s: State) {
    && QueueOk(s.queue, s.first, s.nextSequence, s.states)
    && CallOk(s.states, s.handler)
    && SleepOk(s.states, s.syncs, s.asleep)
  }

  lemma {:induction false} InsertFacts(q: seq<Entry>, e: Entry)
    requires Sorted(q) && DistinctIds(q) && !InQueue(q, e.id)
    requires forall x :: x in q ==> x.sequence < e.sequence
    ensures Sorted(Insert(q, e)) && DistinctIds(Insert(q, e)) && |Insert(q, e)| == |q| + 1
    ensures forall x :: x in Insert(q, e) <==> x in q || x == e
    ensures Insert(q, e)[0] == e || (q != [] && Insert(q, e)[0] == q[0] && q[0] != e)
    ensures forall t: Id :: InQueue(Insert(q, e), t) <==> InQueue(q, t) || t == e.id
  {
    if q == [] {
      assert Insert(q, e) == [e];
    } else if Before(e, q[0]) {
      var r := [e] + q;
      forall i, j | 0 <= i < j < |r| ensures Before(r[i], r[j]) && r[i].id != r[j].id {
        if i == 0 { assert j > 1 ==> Before(q[0], q[j - 1]); }
      }
      MembersPush(q, e);
    } else {
      TailFacts(q);
      InsertFacts(q[1..], e);
      var t := Insert(q[1..], e);
      var r := [q[0]] + t;
      forall j | 0 <= j < |t| ensures Before(q[0], t[j]) && q[0].id != t[j].id {
        assert t[j] in t;
      }
      MembersPush(t, q[0]);
    }
  }

  lemma MembersPush(q: seq<Entry>, e: Entry)
    ensures forall x :: x in [e] + q <==> x == e || x in q
    ensures forall t: Id :: InQueue([e] + q, t) <==> t == e.id || InQueue(q, t)
  {
    forall t: Id ensures InQueue([e] + q, t) <==> t == e.id || InQueue(q, t) {
      if i :| 0 <= i < |q| && q[i].id == t { assert ([e] + q)[i + 1].id == t; }
      if t == e.id { assert ([e] + q)[0].id == t; }
      if i :| 0 <= i < |[e] + q| && ([e] + q)[i].id == t {
        if i > 0 { assert q[i - 1].id == t; }
      }
    }
  }

  lemma TailFacts(q: seq<Entry>)
    requires q != [] && Sorted(q) && DistinctIds(q)
    ensures Sorted(q[1..]) && DistinctIds(q[1..])
    ensures forall x :: x in q <==> x == q[0] || x in q[1..]
    ensures forall x :: x in q[1..] ==> Before(q[0], x) && x.id != q[0].id
    ensures forall t: Id :: InQueue(q[1..], t) <==> InQueue(q, t) && t != q[0].id
  {
    assert q == [q[0]] + q[1..];
    MembersPush(q[1..], q[0]);
    assert forall x :: x in q[1..] ==> exists i :: 0 < i < |q| && q[i] == x;
    assert !InQueue(q[1..], q[0].id);
  }

  lemma {:induction false} RemoveFacts(q: seq<Entry>, t: Id)
    requires Sorted(q) && DistinctIds(q) && InQueue(q, t)
    ensures Sorted(Remove(q, t)) && DistinctIds(Remove(q, t))
    ensures forall x :: x in Remove(q, t) <==> x in q && x.id != t
    ensures forall u: Id :: InQueue(Remove(q, t), u) <==> InQueue(q, u) && u != t
    ensures FirstOf(Remove(q, t)) == if q[0].id == t then SecondOf(q) else Some(q[0].id)
  {
    hide Before, Sorted, DistinctIds;
    TailFacts(q);
    hide InQueue;
    if q[0].id != t {
      RemoveFacts(q[1..], t);
      var r := Remove(q[1..], t);
      MembersPush(r, q[0]);
      forall j | 0 <= j < |r| ensures Before(q[0], r[j]) && q[0].id != r[j].id {
        assert r[j] in r;
      }
      PushFacts(r, q[0]);
    }
  }

  lemma PushFacts(q: seq<Entry>, e: Entry)
    requires Sorted(q) && DistinctIds(q) && forall j :: 0 <= j < |q| ==> Before(e, q[j]) && e.id != q[j].id
    ensures Sorted([e] + q) && DistinctIds([e] + q)
  {
  }

  /** The place that the descent finds is where the queue takes the timer. */
  lemma {:induction false} PlaceInserts(q: seq<Entry>, e: Entry, at: nat)
    requires at <= |q| && (forall i :: 0 <= i < at ==> Before(q[i], e))
    requires (forall i :: at <= i < |q| ==> Before(e, q[i]))
    ensures Insert(q, e) == q[..at] + [e] + q[at..]
  {
    if at > 0 {
      PlaceInserts(q[1..], e, at - 1);
      assert q[..at] + [e] + q[at..] == [q[0]] + (q[1..][..at - 1] + [e] + q[1..][at - 1..]);
    }
  }

  // ---------------------------------------------------------------------------------------------
  // Every step keeps the invariant
  // ---------------------------------------------------------------------------------------------

  lemma StateSet(states: map<Id, TState>, t: Id, st: TState)
    ensures StateOf(states[t := st], t) == st
    ensures forall x: Id :: x != t ==> StateOf(states[t := st], x) == StateOf(states, x)
  {
  }

  /** A timer outside its callback changes state; nobody who sleeps waits for it. */
  lemma QuietState(states: map<Id, TState>, t: Id, st: TState, handler: Handler, syncs: map<Task, Id>,
                   asleep: set<Task>)
    requires CallOk(states, handler) && SleepOk(states, syncs, asleep) && !InCall(StateOf(states, t)) && !InCall(st)
    ensures CallOk(states[t := st], handler) && SleepOk(states[t := st], syncs, asleep)
  {
    StateSet(states, t, st);
    hide StateOf;
    var after := states[t := st];
    forall x: Id ensures InCall(StateOf(after, x)) <==> (handler.Calling? && handler.id == x) {
      assert InCall(StateOf(states, x)) <==> (handler.Calling? && handler.id == x);
    }
  }

  lemma StartKeeps(s: State, t: Id, deadline: nat)
    requires Inv(s)
    ensures Inv(Apply(s, Start(t, deadline)))
  {
    if s.At(t).Idle? {
      InsertFacts(s.queue, Entry(t, deadline, s.nextSequence));
      QuietState(s.states, t, Queued, s.handler, s.syncs, s.asleep);
      StateSet(s.states, t, Queued);
      hide Sorted, DistinctIds, InQueue, Insert, CallOk, SleepOk, StateOf;
    }
  }

  lemma UnqueuedKeeps(s: State, t: Id, st: TState)
    requires Inv(s) && s.At(t).Queued? && !st.Queued?
    ensures var u := Unqueued(s, t, st); QueueOk(u.queue, u.first, u.nextSequence, u.states)
  {
    assert InQueue(s.queue, t);
    RemoveFacts(s.queue, t);
    StateSet(s.states, t, st);
    hide Sorted, DistinctIds, InQueue, Remove, StateOf;
  }

  lemma CancelKeeps(s: State, t: Id)
    requires Inv(s)
    ensures Inv(Cancelled(s, t).0)
    ensures Cancelled(s, t).1.Err? <==> s.At(t).Running? || s.At(t).Draining?
    ensures Cancelled(s, t).1.Err? ==> Cancelled(s, t).0.At(t).Draining?
    ensures Cancelled(s, t).1.Ok? ==> Cancelled(s, t).0.At(t).Idle?
    ensures Cancelled(s, t).0.syncs == s.syncs && Cancelled(s, t).0.asleep == s.asleep
  {
    hide Sorted, DistinctIds, InQueue, Remove;
    StateSet(s.states, t, Draining);
    if s.At(t).Queued? {
      UnqueuedKeeps(s, t, Idle);
      QuietState(s.states, t, Idle, s.handler, s.syncs, s.asleep);
    } else if s.At(t).Running? {
      DrainKeeps(s, t);
    }
    hide QueueOk, CallOk, SleepOk;
  }

  lemma DrainKeeps(s: State, t: Id)
    requires Inv(s) && s.At(t).Running?
    ensures Inv(s.(states := s.states[t := Draining]))
  {
    StateSet(s.states, t, Draining);
    hide Sorted, DistinctIds, InQueue, StateOf;
  }

  lemma FirstInQueue(s: State)
    requires Inv(s) && s.queue != []
    ensures s.first == Some(s.queue[0].id) && s.At(s.queue[0].id).Queued?
    ensures DeadlineOf(s.queue, s.queue[0].id) == s.queue[0].deadline
  {
    assert InQueue(s.queue, s.queue[0].id);
  }

  lemma TickStepKeeps(s: State)
    requires Inv(s) && s.handler.Looping?
    ensures Inv(Apply(s, TickStep))
  {
    hide Sorted, DistinctIds, InQueue, Remove, DeadlineOf;
    if s.queue != [] {
      FirstInQueue(s);
      UnqueuedKeeps(s, s.queue[0].id, Running);
      StateSet(s.states, s.queue[0].id, Running);
    }
    hide QueueOk, StateOf;
    assert forall x: Id :: !InCall(StateOf(s.states, x));
    var u := Apply(s, TickStep);
    forall x: Id ensures InCall(StateOf(u.states, x)) <==> (u.handler.Calling? && u.handler.id == x) {
      assert !InCall(StateOf(s.states, x));
    }
  }

  lemma SyncPassKeeps(s: State, w: Task)
    requires Inv(s) && Enabled(s, SyncPass(w))
    ensures Inv(Apply(s, SyncPass(w)))
  {
    CancelKeeps(s, s.syncs[w]);
    hide QueueOk, Cancelled;
  }

  lemma SyncBeginKeeps(s: State, w: Task, t: Id)
    requires Inv(s) && Enabled(s, SyncBegin(w, t))
    ensures Inv(Apply(s, SyncBegin(w, t)))
  {
    hide QueueOk;
    assert w !in s.asleep;
  }

  lemma StepKeeps(s: State, e: Event)
    requires Inv(s) && Enabled(s, e)
    ensures Inv(Apply(s, e))
  {
    hide QueueOk;
    match e
    case Start(t, deadline) => StartKeeps(s, t, deadline);
    case Cancel(t) => CancelKeeps(s, t);
    case SyncBegin(w, t) => SyncBeginKeeps(s, w, t);
    case SyncPass(w) => SyncPassKeeps(s, w);
    case TickBegin(now) =>
    case TickStep => TickStepKeeps(s);
    case CallbackEnd => CallbackEndKeeps(s);
  }

  lemma CallbackEndKeeps(s: State)
    requires Inv(s) && s.handler.Calling?
    ensures Inv(Apply(s, CallbackEnd))
  {
    hide Sorted, DistinctIds, InQueue;
    var u := Apply(s, CallbackEnd);
    assert forall x: Id :: x != s.handler.id ==> StateOf(u.states, x) == StateOf(s.states, x);
    assert StateOf(s.states, s.handler.id).Running? || StateOf(s.states, s.handler.id).Draining?;
  }

  // ---------------------------------------------------------------------------------------------
  // What fires, and what does not
  // ---------------------------------------------------------------------------------------------

  /** A timer that fires is due, and the first of all queued ones; when the tick returns, none is due. */
  lemma FiresInOrder(s: State)
    requires Inv(s) && s.handler.Looping?
    ensures var u := Apply(s, TickStep);
      && (u.handler.Calling? ==>
            s.queue != [] && u.handler.id == s.queue[0].id && s.queue[0].deadline <= s.handler.now
            && forall x :: x in s.queue ==> x == s.queue[0] || Before(s.queue[0], x))
      && (u.handler.Off? ==> u.queue == s.queue && forall x :: x in s.queue ==> x.deadline > s.handler.now)
  {
    if s.queue != [] {
      FirstInQueue(s);
      TailFacts(s.queue);
    }
  }

  ghost predicate Runs(s: State, es: seq<Event>)
    decreases |es|
  {
    es == [] || (Enabled(s, es[0]) && Runs(Apply(s, es[0]), es[1..]))
  }

  ghost function After(s: State, es: seq<Event>): State
    requires Runs(s, es)
    decreases |es|
  {
    if es == [] then s else After(Apply(s, es[0]), es[1..])
  }

  const BOOT := State([], None, 0, map[], Off, map[], {})

  lemma {:induction false} RunKeeps(s: State, es: seq<Event>)
    requires Inv(s) && Runs(s, es)
    ensures Inv(After(s, es))
    decreases |es|
  {
    if es != [] {
      StepKeeps(s, es[0]);
      RunKeeps(Apply(s, es[0]), es[1..]);
    }
  }

  /** On every run: `first` is the minimum of the queue, a timer is queued or in its callback exactly when its state
      says so, and a task that waits for a drain sleeps only while its timer is draining, so that the end of the
      callback, which is still to come, wakes it. */
  lemma Safe(es: seq<Event>)
    requires Runs(BOOT, es)
    ensures var s := After(BOOT, es);
      && s.first == FirstOf(s.queue) && Sorted(s.queue)
      && (forall t: Id :: s.At(t).Queued? <==> InQueue(s.queue, t))
      && (forall w: Task :: w in s.asleep ==>
            w in s.syncs && s.At(s.syncs[w]).Draining? && s.handler.Calling? && s.handler.id == s.syncs[w])
  {
    RunKeeps(BOOT, es);
  }

  /** The tick handler does not hold the timer: it is not queued and its callback does not run. */
  ghost predicate Released(s: State, t: Id) {
    s.At(t).Idle? && !InQueue(s.queue, t) && !(s.handler.Calling? && s.handler.id == t)
  }

  /** When timer_cancel_sync returns, its timer is released. */
  lemma SyncReleases(s: State, w: Task)
    requires Inv(s) && Enabled(s, SyncPass(w)) && w !in Apply(s, SyncPass(w)).syncs
    ensures Released(Apply(s, SyncPass(w)), s.syncs[w])
  {
    StepKeeps(s, SyncPass(w));
    CancelKeeps(s, s.syncs[w]);
  }

  /** And until somebody starts it again, no step of anyone gives it back to the handler. */
  lemma {:induction false} StaysReleased(s: State, es: seq<Event>, t: Id)
    requires Inv(s) && Runs(s, es) && Released(s, t)
    requires forall i :: 0 <= i < |es| ==> !(es[i].Start? && es[i].t == t)
    ensures Released(After(s, es), t)
    decreases |es|
  {
    if es != [] {
      StepKeeps(s, es[0]);
      IdleStays(s, es[0], t);
      StaysReleased(Apply(s, es[0]), es[1..], t);
    }
  }

  lemma IdleStays(s: State, e: Event, t: Id)
    requires Inv(s) && Enabled(s, e) && Released(s, t) && !(e.Start? && e.t == t) && Inv(Apply(s, e))
    ensures Released(Apply(s, e), t)
  {
    if e.TickStep? && s.queue != [] { FirstInQueue(s); }
    hide Sorted, DistinctIds, InQueue, Insert, Remove, DeadlineOf;
    assert Apply(s, e).At(t).Idle?;
  }

  // ---------------------------------------------------------------------------------------------
  // What each step is for
  // ---------------------------------------------------------------------------------------------

  /** The queue without the timer t, and otherwise as it was. */
  ghost predicate Lost(q: seq<Entry>, r: seq<Entry>, t: Id) {
    !InQueue(r, t) && forall x :: x in r <==> x in q && x.id != t
  }

  /** What a step does: u is the state after it. */
  ghost predicate Does(s: State, e: Event, u: State)
    requires Enabled(s, e)
  {
    match e
    case Start(t, deadline) =>
      if s.At(t).Idle? then
        && u.At(t).Queued? && |u.queue| == |s.queue| + 1 && u.nextSequence == s.nextSequence + 1
        && forall x :: x in u.queue <==> x in s.queue || x == Entry(t, deadline, s.nextSequence)
      else u == s
    case Cancel(t) => Stops(s, t, u)
    case SyncBegin(w, t) => w in u.syncs && u.syncs[w] == t && w !in u.asleep && u.queue == s.queue
    case SyncPass(w) =>
      var t := s.syncs[w];
      && Stops(s, t, u)
      && if InCall(s.At(t)) then w in u.asleep && w in u.syncs else w !in u.syncs && w !in u.asleep
    case TickBegin(now) => u.handler == Looping(now) && u.queue == s.queue
    case TickStep =>
      if s.queue != [] && s.queue[0].deadline <= s.handler.now then
        var t := s.queue[0].id;
        u.handler == Calling(s.handler.now, t) && u.At(t).Running? && Lost(s.queue, u.queue, t)
      else u.handler.Off? && u.queue == s.queue
    case CallbackEnd =>
      && u.handler == Looping(s.handler.now) && u.At(s.handler.id).Idle? && u.queue == s.queue
      && forall w :: w in s.asleep ==> w !in u.asleep
  }

  /** A queued timer is taken out, one in its callback is marked, and an idle one stays idle. */
  ghost predicate Stops(s: State, t: Id, u: State) {
    match s.At(t)
    case Queued => u.At(t).Idle? && Lost(s.queue, u.queue, t)
    case Idle => u.At(t).Idle? && u.queue == s.queue
    case _ => u.At(t).Draining? && u.queue == s.queue && u.handler == s.handler
  }

  lemma CancelStops(s: State, t: Id)
    requires Inv(s)
    ensures Stops(s, t, Cancelled(s, t).0)
    ensures Cancelled(s, t).1 == if s.At(t).Queued? then Ok(1) else if s.At(t).Idle? then Ok(0) else Err(EBUSY)
  {
    StateSet(s.states, t, Idle);
    StateSet(s.states, t, Draining);
    if s.At(t).Queued? {
      assert InQueue(s.queue, t);
      RemoveFacts(s.queue, t);
    }
    hide Sorted, DistinctIds, InQueue, Remove, StateOf;
  }

  lemma StepDoes(s: State, e: Event)
    requires Inv(s) && Enabled(s, e)
    ensures Does(s, e, Apply(s, e))
  {
    hide Inv, Stops, Cancelled, Started, Lost, DeadlineOf, StateOf;
    match e
    case Start(t, deadline) => StartDoes(s, t, deadline);
    case Cancel(t) => CancelStops(s, t);
    case SyncBegin(w, t) => SyncAwake(s, w);
    case SyncPass(w) => SyncPassDoes(s, w);
    case TickBegin(now) =>
    case TickStep => TickStepDoes(s);
    case CallbackEnd => CallbackEndDoes(s);
  }

  lemma StartDoes(s: State, t: Id, deadline: nat)
    requires Inv(s)
    ensures Does(s, Start(t, deadline), Apply(s, Start(t, deadline)))
  {
    if s.At(t).Idle? {
      InsertFacts(s.queue, Entry(t, deadline, s.nextSequence));
      StateSet(s.states, t, Queued);
      hide Sorted, DistinctIds, InQueue, Insert, CallOk, SleepOk, StateOf;
    }
  }

  lemma SyncAwake(s: State, w: Task)
    requires Inv(s) && w !in s.syncs
    ensures w !in s.asleep
  {
    hide QueueOk, CallOk, StateOf;
  }

  lemma SyncPassDoes(s: State, w: Task)
    requires Inv(s) && Enabled(s, SyncPass(w))
    ensures Does(s, SyncPass(w), Apply(s, SyncPass(w)))
  {
    hide QueueOk, Cancelled, CallOk, SleepOk, Lost;
    CancelStops(s, s.syncs[w]);
    CancelKeeps(s, s.syncs[w]);
  }

  lemma TickStepDoes(s: State)
    requires Inv(s) && s.handler.Looping?
    ensures Does(s, TickStep, Apply(s, TickStep))
  {
    if s.queue != [] {
      var t := s.queue[0].id;
      FirstInQueue(s);
      assert InQueue(s.queue, t);
      RemoveFacts(s.queue, t);
      StateSet(s.states, t, Running);
    }
    hide Sorted, DistinctIds, InQueue, Remove, StateOf, DeadlineOf;
  }

  lemma CallbackEndDoes(s: State)
    requires Inv(s) && s.handler.Calling?
    ensures Does(s, CallbackEnd, Apply(s, CallbackEnd))
  {
    hide QueueOk;
    StateSet(s.states, s.handler.id, Idle);
    forall w | w in s.asleep ensures s.At(s.handler.id).Draining? {
      assert InCall(StateOf(s.states, s.syncs[w]));
    }
  }

  /** A timer that was started keeps its place and its deadline until it is cancelled or fires. */
  lemma StaysQueued(s: State, e: Event, x: Entry)
    requires Inv(s) && Enabled(s, e) && x in s.queue
    requires !(e.Cancel? && e.t == x.id) && !(e.SyncPass? && s.syncs[e.w] == x.id)
    ensures x in Apply(s, e).queue ||
            (e.TickStep? && x == s.queue[0] && Apply(s, e).handler == Calling(s.handler.now, x.id))
  {
    hide Apply, Sorted;
    StepDoes(s, e);
    QueuedState(s, x);
    hide Inv;
    if e.TickStep? { OneEntry(s.queue, x); }
  }

  lemma QueuedState(s: State, x: Entry)
    requires Inv(s) && x in s.queue
    ensures s.At(x.id).Queued? && DistinctIds(s.queue)
  {
    assert InQueue(s.queue, x.id);
  }

  lemma OneEntry(q: seq<Entry>, x: Entry)
    requires DistinctIds(q) && x in q
    ensures q != [] && (x.id == q[0].id ==> x == q[0])
  {
  }
}
