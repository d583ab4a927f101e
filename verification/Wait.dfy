/** Sleeping and waking: kernel/wait.c, kernel/mutex.c and kernel/completion.c.

    mutex_lock_state, wait_for_completion_state and wait_for_completion_until are one loop around different resources:
    under the wait queue's lock leave the queue, take the resource if it is available, give up if a signal or the
    deadline says so, and otherwise queue up and sleep. Any number of tasks run it at once. A step is a stretch of
    code between two points where others can interfere; signals and the scheduler do not take the queue's lock, so
    they also interfere between the decision to sleep and the sleep.
 */
module Wait {
  import opened Errno

  type Task = nat

  const UINT32_MAX: nat := 0xFFFF_FFFF

  /** A mutex, or a completion with its count of pending notifications. */
  datatype Resource = Mutex(owner: Option<Task>) | Completion(done: nat)

  /** How a task waits: the sleep state, or until a deadline. */
  datatype Kind = Uninterruptible | Interruptible | Killable | Timed

  /** Deciding: holds the queue's lock and is about to sleep. Waiting: has a queue entry. */
  datatype Pc = Out | Trying | Deciding | Waiting

  /** Run: runnable. Going: the sleep state is set but the task is still on its CPU. Slept: switched out. */
  datatype Mode = Run | Going | Slept

  datatype Thread = Thread(pc: Pc, kind: Kind, mode: Mode)

  const OUTSIDE := Thread(Out, Uninterruptible, Run)

  /** `pending` and `killed`: tasks with a signal, with SIGKILL. `armed` and `fired`: deadline timers. `completes` and
      `taken` count notifications and successful waits; `saturated` says that the count has reached its maximum. */
  datatype State = State(
    tasks: set<Task>,
    res: Resource,
    queue: seq<Task>,
    threads: map<Task, Thread>,
    lock: Option<Task>,
    pending: set<Task>,
    killed: set<Task>,
    armed: set<Task>,
    fired: set<Task>,
    completes: nat,
    taken: nat,
    saturated: bool)
  {
    function At(t: Task): Thread {
      if t in threads then threads[t] else OUTSIDE
    }
  }

  predicate Available(r: Resource) {
    if r.Mutex? then r.owner.None? else r.done > 0
  }

  /** How many tasks the resource can satisfy. */
  function Units(r: Resource): nat {
    if r.Mutex? then (if r.owner.None? then 1 else 0) else r.done
  }

  /** Becoming the owner, or take_completion_locked. */
  function Take(r: Resource, t: Task): Resource
    requires Available(r)
  {
    if r.Mutex? then Mutex(Some(t)) else if r.done == UINT32_MAX then r else Completion(r.done - 1)
  }

  /** complete: the count stops at its maximum. */
  function Notified(r: Resource): Resource
    requires r.Completion?
  {
    if r.done == UINT32_MAX then r else Completion(r.done + 1)
  }

  /** signal_pending_state. */
  predicate Interrupted(s: State, t: Task, k: Kind) {
    (k.Interruptible? && t in s.pending) || (k.Killable? && t in s.killed)
  }

  // ---------------------------------------------------------------------------------------------
  // Wake-ups
  // ---------------------------------------------------------------------------------------------

  predicate Asleep(th: map<Task, Thread>, t: Task) {
    t in th && th[t].mode != Run
  }

  /** sched_wake on a task that sleeps. */
  function Woken(th: map<Task, Thread>, t: Task): map<Task, Thread> {
    if t in th then th[t := th[t].(mode := Run)] else th
  }

  /** wake_up_one: the first sleeper of the queue. */
  function WakeOne(q: seq<Task>, th: map<Task, Thread>): map<Task, Thread> {
    if q == [] then th else if Asleep(th, q[0]) then Woken(th, q[0]) else WakeOne(q[1..], th)
  }

  /** wake_up_all. */
  function WakeAll(q: seq<Task>, th: map<Task, Thread>): map<Task, Thread> {
    if q == [] then th else WakeAll(q[1..], Woken(th, q[0]))
  }

  /** The loop of wake_up_one_locked wakes the first sleeper of the queue, and leaves every other task alone. */
  method WakeUpOne(q: seq<Task>, th: map<Task, Thread>) returns (r: map<Task, Thread>)
    ensures r == WakeOne(q, th)
    ensures (r == th && forall i: nat :: i < |q| ==> !Asleep(th, q[i])) ||
            exists i: nat :: FirstAsleep(q, th, i) && r == Woken(th, q[i])
  {
    var i := 0;
    while i < |q|
      invariant 0 <= i <= |q| && WakeOne(q[i..], th) == WakeOne(q, th)
      invariant forall j: nat :: j < i ==> !Asleep(th, q[j])
    {
      assert q[i..][0] == q[i] && q[i..][1..] == q[i + 1..];
      if Asleep(th, q[i]) {
        assert FirstAsleep(q, th, i);
        return Woken(th, q[i]);
      }
      i := i + 1;
    }
    return th;
  }

  ghost predicate FirstAsleep(q: seq<Task>, th: map<Task, Thread>, i: nat) {
    i < |q| && Asleep(th, q[i]) && forall j: nat :: j < i ==> !Asleep(th, q[j])
  }

  /** The loop of wake_up_all_locked makes exactly the tasks of the queue runnable. */
  method WakeUpAll(q: seq<Task>, th: map<Task, Thread>) returns (r: map<Task, Thread>)
    ensures r == WakeAll(q, th) && r.Keys == th.Keys
    ensures forall t :: t in th ==> r[t] == if t in q then th[t].(mode := Run) else th[t]
  {
    WakeAllFacts(q, th);
    r := th;
    var i := 0;
    while i < |q|
      invariant 0 <= i <= |q| && WakeAll(q[i..], r) == WakeAll(q, th)
    {
      assert q[i..][0] == q[i] && q[i..][1..] == q[i + 1..];
      r := Woken(r, q[i]);
      i := i + 1;
    }
  }

  /** Waking one leaves everyone alone but at most one sleeper of the queue, and finds one if there is one. */
  lemma {:induction false} WakeOneFacts(q: seq<Task>, th: map<Task, Thread>)
    ensures WakeOne(q, th).Keys == th.Keys
    ensures forall t :: t in th ==> WakeOne(q, th)[t].pc == th[t].pc && WakeOne(q, th)[t].kind == th[t].kind
    ensures (WakeOne(q, th) == th && forall t :: t in q ==> !Asleep(th, t)) ||
            exists t :: t in q && Asleep(th, t) && WakeOne(q, th) == Woken(th, t)
  {
    if q != [] {
      if Asleep(th, q[0]) {
        assert q[0] in q;
      } else {
        WakeOneFacts(q[1..], th);
        assert forall t :: t in q ==> t == q[0] || t in q[1..];
      }
    }
  }

  lemma {:induction false} WakeAllFacts(q: seq<Task>, th: map<Task, Thread>)
    ensures WakeAll(q, th).Keys == th.Keys
    ensures forall t :: t in th ==> WakeAll(q, th)[t] == if t in q then th[t].(mode := Run) else th[t]
  {
    if q != [] {
      WakeAllFacts(q[1..], Woken(th, q[0]));
      assert forall t :: t in q <==> t == q[0] || t in q[1..];
    }
  }

  // ---------------------------------------------------------------------------------------------
  // Steps
  // ---------------------------------------------------------------------------------------------

  datatype Event =
    | Start(t: Task, kind: Kind)
    | Attempt(t: Task, expired: bool, startOk: bool)
    | Prepare(t: Task)
    | Park(t: Task)
    | Signal(t: Task, fatal: bool)
    | TimerFire(t: Task)
    | Release(t: Task)
    | TryTake(t: Task)
    | Complete
    | CompleteAll

  ghost predicate Enabled(s: State, e: Event) {
    match e
    case Start(t, _) => t in s.tasks && s.At(t).pc.Out?
    case Attempt(t, expired, _) =>
      && s.lock.None? && (s.At(t).pc.Trying? || s.At(t).pc.Waiting?) && s.At(t).mode.Run?
      && (t in s.fired ==> expired)
    case Prepare(t) => s.At(t).pc.Deciding?
    case Park(t) => s.At(t).pc.Waiting? && s.At(t).mode.Going?
    case Signal(t, _) => t in s.tasks
    case TimerFire(t) => s.lock.None? && t in s.armed && t !in s.fired
    case Release(t) => s.lock.None? && s.res == Mutex(Some(t))
    case TryTake(t) => s.lock.None? && t in s.tasks
    case Complete => s.lock.None? && s.res.Completion?
    case CompleteAll => s.lock.None? && s.res.Completion?
  }

  function Without(q: seq<Task>, t: Task): seq<Task> {
    if q == [] then [] else if q[0] == t then Without(q[1..], t) else [q[0]] + Without(q[1..], t)
  }

  /** The task is done waiting; its deadline timer is cancelled. */
  ghost function Leave(s: State, t: Task): State {
    s.(threads := s.threads[t := OUTSIDE], armed := s.armed - {t}, fired := s.fired - {t})
  }

  /** One pass of the waiting loop, up to the decision to sleep. */
  ghost function Attempted(s: State, t: Task, expired: bool, startOk: bool): State {
    var q := s.(queue := Without(s.queue, t));
    var k := s.At(t).kind;
    if Available(s.res) then Leave(q.(res := Take(s.res, t), taken := s.taken + 1), t)
    else if Interrupted(s, t, k) then Leave(q, t)
    else if k.Timed? && expired then Leave(q, t)
    else if k.Timed? && t !in s.armed && !startOk then Leave(q, t)
    else q.(threads := s.threads[t := Thread(Deciding, k, Run)], lock := Some(t),
            armed := if k.Timed? then s.armed + {t} else s.armed)
  }

  ghost function Apply(s: State, e: Event): State
    requires Enabled(s, e)
  {
    match e
    case Start(t, k) => s.(threads := s.threads[t := Thread(Trying, k, Run)])
    case Attempt(t, expired, startOk) => Attempted(s, t, expired, startOk)
    case Prepare(t) =>
      s.(queue := s.queue + [t], threads := s.threads[t := Thread(Waiting, s.At(t).kind, Going)], lock := None)
    case Park(t) =>
      var m := if Interrupted(s, t, s.At(t).kind) then Run else Slept;
      s.(threads := s.threads[t := s.At(t).(mode := m)])
    case Signal(t, fatal) =>
      var k := s.At(t).kind;
      s.(pending := s.pending + {t}, killed := if fatal then s.killed + {t} else s.killed,
         threads := if k.Interruptible? || (k.Killable? && fatal) then Woken(s.threads, t) else s.threads)
    case TimerFire(t) => s.(fired := s.fired + {t}, threads := Woken(s.threads, t))
    case Release(t) => s.(res := Mutex(None), threads := WakeOne(s.queue, s.threads))
    case TryTake(t) => if Available(s.res) then s.(res := Take(s.res, t), taken := s.taken + 1) else s
    case Complete =>
      s.(res := Notified(s.res), threads := WakeOne(s.queue, s.threads), completes := s.completes + 1,
         saturated := s.saturated || Notified(s.res) == Completion(UINT32_MAX))
    case CompleteAll =>
      s.(res := Completion(UINT32_MAX), threads := WakeAll(s.queue, s.threads), saturated := true)
  }

  // ---------------------------------------------------------------------------------------------
  // The invariant
  // ---------------------------------------------------------------------------------------------

  ghost predicate NoDup(q: seq<Task>) {
    forall i, j :: 0 <= i < j < |q| ==> q[i] != q[j]
  }

  ghost function Runners(q: seq<Task>, th: map<Task, Thread>): set<Task> {
    set t | t in q && !Asleep(th, t)
  }

  function Min(a: nat, b: nat): nat {
    if a < b then a else b
  }

  /** A task that is queued sleeps only while its deadline timer is still to fire, and is switched out only without a
      signal that would end its wait. */
  ghost predicate ThreadOk(s: State, t: Task) {
    var h := s.At(t);
    && (h.pc.Waiting? <==> t in s.queue)
    && (h.pc.Deciding? <==> s.lock == Some(t))
    && (!h.mode.Run? ==> h.pc.Waiting?)
    && (h.pc.Deciding? && h.kind.Timed? ==> t in s.armed && t !in s.fired)
    && (!h.mode.Run? && h.kind.Timed? ==> t in s.armed && t !in s.fired)
    && (h.mode.Slept? ==> !Interrupted(s, t, h.kind))
    && (h.pc.Out? ==> t !in s.armed && t !in s.fired)
    && (t in s.fired ==> t in s.armed)
  }

  ghost predicate Inv(s: State) {
    && |s.tasks| <= UINT32_MAX
    && s.threads.Keys <= s.tasks
    && NoDup(s.queue)
    && (forall t :: ThreadOk(s, t))
    && (s.res.Completion? ==> s.res.done <= UINT32_MAX)
    && |Runners(s.queue, s.threads)| >= Min(Units(s.res), |s.queue|)
    && (s.lock.Some? ==> !Available(s.res))
    && (s.res.Completion? && !s.saturated ==> s.taken + s.res.done == s.completes)
    && (s.res == Completion(UINT32_MAX) ==> s.saturated)
  }

  // ---------------------------------------------------------------------------------------------
  // Every step keeps the invariant
  // ---------------------------------------------------------------------------------------------

  lemma {:induction false} WithoutFacts(q: seq<Task>, t: Task)
    ensures forall x :: x in Without(q, t) <==> x in q && x != t
    ensures NoDup(q) ==> NoDup(Without(q, t)) && |Without(q, t)| == |q| - (if t in q then 1 else 0)
  {
    if q != [] {
      WithoutFacts(q[1..], t);
      assert forall x :: x in q <==> x == q[0] || x in q[1..];
      if NoDup(q) {
        assert NoDup(q[1..]) && q[0] !in q[1..];
        if q[0] != t {
          PrependNoDup(q[0], Without(q[1..], t));
        }
      }
    }
  }

  lemma PrependNoDup(x: Task, q: seq<Task>)
    requires NoDup(q) && x !in q
    ensures NoDup([x] + q)
  {
  }

  lemma {:induction false} QueueBound(q: seq<Task>, tasks: set<Task>)
    requires NoDup(q) && forall x :: x in q ==> x in tasks
    ensures |q| <= |tasks|
  {
    if q != [] {
      assert q[0] in tasks && q[0] !in q[1..];
      assert forall x :: x in q[1..] ==> x in q;
      QueueBound(q[1..], tasks - {q[0]});
    }
  }

  /** Waking more tasks does not lose a runner. */
  lemma RunnersGrow(q: seq<Task>, th: map<Task, Thread>, th2: map<Task, Thread>)
    requires forall t :: t in q && !Asleep(th, t) ==> !Asleep(th2, t)
    ensures |Runners(q, th)| <= |Runners(q, th2)|
  {
    Subset(Runners(q, th), Runners(q, th2));
  }

  lemma Subset(a: set<Task>, b: set<Task>)
    requires a <= b
    ensures |a| <= |b|
  {
    assert |b| == |a| + |b - a|;
  }

  lemma {:induction false} RunnersAll(q: seq<Task>, th: map<Task, Thread>)
    requires NoDup(q) && forall t :: t in q ==> !Asleep(th, t)
    ensures |Runners(q, th)| == |q|
  {
    if q == [] {
      assert Runners(q, th) == {};
    } else {
      RunnersAll(q[1..], th);
      assert q[0] !in q[1..];
      assert Runners(q, th) == {q[0]} + Runners(q[1..], th);
    }
  }

  /** A notification adds a runner, or everyone queued is one. */
  lemma WakeOneCount(q: seq<Task>, th: map<Task, Thread>)
    requires NoDup(q)
    ensures |Runners(q, WakeOne(q, th))| >= Min(|Runners(q, th)| + 1, |q|)
  {
    WakeOneFacts(q, th);
    if WakeOne(q, th) == th && forall t :: t in q ==> !Asleep(th, t) {
      RunnersAll(q, th);
    } else {
      var t :| t in q && Asleep(th, t) && WakeOne(q, th) == Woken(th, t);
      assert Runners(q, WakeOne(q, th)) == Runners(q, th) + {t};
    }
  }

  /** The queue after a task left it. */
  lemma LeaveCount(q: seq<Task>, th: map<Task, Thread>, th2: map<Task, Thread>, t: Task)
    requires NoDup(q) && !Asleep(th, t) && forall x :: x != t ==> (Asleep(th2, x) <==> Asleep(th, x))
    ensures |Runners(Without(q, t), th2)| == |Runners(q, th)| - (if t in q then 1 else 0)
  {
    WithoutFacts(q, t);
    assert Runners(Without(q, t), th2) == Runners(q, th) - {t};
    if t in q { assert t in Runners(q, th); }
  }

  lemma QueueInTasks(s: State)
    requires Inv(s)
    ensures |s.queue| <= |s.tasks|
  {
    forall x | x in s.queue ensures x in s.tasks {
      assert ThreadOk(s, x);
    }
    QueueBound(s.queue, s.tasks);
  }

  lemma AttemptCount(s: State, t: Task, expired: bool, startOk: bool)
    requires Inv(s) && Enabled(s, Attempt(t, expired, startOk))
    ensures var u := Attempted(s, t, expired, startOk);
      NoDup(u.queue) && |Runners(u.queue, u.threads)| >= Min(Units(u.res), |u.queue|)
  {
    hide Runners;
    var u := Attempted(s, t, expired, startOk);
    WithoutFacts(s.queue, t);
    LeaveCount(s.queue, s.threads, u.threads, t);
    QueueInTasks(s);
  }

  lemma AttemptThreads(s: State, t: Task, expired: bool, startOk: bool)
    requires Inv(s) && Enabled(s, Attempt(t, expired, startOk))
    ensures forall x :: ThreadOk(Attempted(s, t, expired, startOk), x)
  {
    hide Runners;
    var u := Attempted(s, t, expired, startOk);
    WithoutFacts(s.queue, t);
    forall x ensures ThreadOk(u, x) {
      assert ThreadOk(s, x) && ThreadOk(s, t);
    }
  }

  lemma AttemptKeeps(s: State, t: Task, expired: bool, startOk: bool)
    requires Inv(s) && Enabled(s, Attempt(t, expired, startOk))
    ensures Inv(Attempted(s, t, expired, startOk))
  {
    AttemptCount(s, t, expired, startOk);
    AttemptThreads(s, t, expired, startOk);
    assert ThreadOk(s, t);
    hide ThreadOk, Runners;
  }

  lemma PrepareKeeps(s: State, t: Task)
    requires Inv(s) && Enabled(s, Prepare(t))
    ensures Inv(Apply(s, Prepare(t)))
  {
    var u := Apply(s, Prepare(t));
    assert ThreadOk(s, t);
    assert t !in s.queue;
    assert Runners(u.queue, u.threads) == Runners(s.queue, s.threads);
    forall x ensures ThreadOk(u, x) {
      assert ThreadOk(s, x);
    }
  }

  /** A step that only wakes or moves one task that is not in the way of others. */
  lemma StartKeeps(s: State, t: Task, k: Kind)
    requires Inv(s) && Enabled(s, Start(t, k))
    ensures Inv(Apply(s, Start(t, k)))
  {
    var u := Apply(s, Start(t, k));
    assert ThreadOk(s, t);
    RunnersGrow(s.queue, s.threads, u.threads);
    forall x ensures ThreadOk(u, x) {
      assert ThreadOk(s, x);
    }
  }

  lemma ParkKeeps(s: State, t: Task)
    requires Inv(s) && Enabled(s, Park(t))
    ensures Inv(Apply(s, Park(t)))
  {
    var u := Apply(s, Park(t));
    RunnersGrow(s.queue, s.threads, u.threads);
    forall x ensures ThreadOk(u, x) {
      assert ThreadOk(s, x);
    }
  }

  lemma SignalKeeps(s: State, t: Task, fatal: bool)
    requires Inv(s) && Enabled(s, Signal(t, fatal))
    ensures Inv(Apply(s, Signal(t, fatal)))
  {
    var u := Apply(s, Signal(t, fatal));
    RunnersGrow(s.queue, s.threads, u.threads);
    forall x ensures ThreadOk(u, x) {
      assert ThreadOk(s, x);
    }
  }

  lemma TimerFireKeeps(s: State, t: Task)
    requires Inv(s) && Enabled(s, TimerFire(t))
    ensures Inv(Apply(s, TimerFire(t)))
  {
    var u := Apply(s, TimerFire(t));
    RunnersGrow(s.queue, s.threads, u.threads);
    forall x ensures ThreadOk(u, x) {
      assert ThreadOk(s, x);
    }
  }

  /** A notification that adds one unit at most and wakes one waiter, or all. */
  lemma NotifyKeeps(s: State, u: State, all: bool)
    requires Inv(s) && s.lock.None?
    requires u.threads == if all then WakeAll(s.queue, s.threads) else WakeOne(s.queue, s.threads)
    requires u == s.(res := u.res, threads := u.threads, completes := u.completes, saturated := u.saturated)
    requires u.res.Completion? ==> u.res.done <= UINT32_MAX
    requires u.res.Completion? && !u.saturated ==> u.taken + u.res.done == u.completes
    requires u.res == Completion(UINT32_MAX) ==> u.saturated
    requires !all ==> Units(u.res) <= Units(s.res) + 1
    ensures Inv(u)
  {
    hide WakeOne, WakeAll, Runners;
    QueueInTasks(s);
    if !all {
      WakeOneFacts(s.queue, s.threads);
      WakeOneCount(s.queue, s.threads);
    } else {
      WakeAllFacts(s.queue, s.threads);
      RunnersAll(s.queue, u.threads);
    }
    forall x ensures ThreadOk(u, x) {
      assert ThreadOk(s, x);
    }
  }

  lemma StepKeeps(s: State, e: Event)
    requires Inv(s) && Enabled(s, e)
    ensures Inv(Apply(s, e))
  {
    match e
    case Start(t, k) => StartKeeps(s, t, k);
    case Attempt(t, expired, startOk) => AttemptKeeps(s, t, expired, startOk);
    case Prepare(t) => PrepareKeeps(s, t);
    case Park(t) => ParkKeeps(s, t);
    case Signal(t, fatal) => SignalKeeps(s, t, fatal);
    case TimerFire(t) => TimerFireKeeps(s, t);
    case Release(t) => NotifyKeeps(s, Apply(s, e), false);
    case TryTake(t) => TryTakeKeeps(s, t);
    case Complete => NotifyKeeps(s, Apply(s, e), false);
    case CompleteAll => NotifyKeeps(s, Apply(s, e), true);
  }

  lemma TryTakeKeeps(s: State, t: Task)
    requires Inv(s) && Enabled(s, TryTake(t))
    ensures Inv(Apply(s, TryTake(t)))
  {
    hide Runners;
    var u := Apply(s, TryTake(t));
    forall x ensures ThreadOk(u, x) {
      assert ThreadOk(s, x);
    }
  }

  // ---------------------------------------------------------------------------------------------
  // Whole runs
  // ---------------------------------------------------------------------------------------------

  ghost predicate Runs(s: State, es: seq<Event>)
    decreases |es|
  {
    es == [] || (Enabled(s, es[0]) && Runs(Apply(s, es[0]), es[1..]))
  }

  ghost function After(s: State, es: seq<Event>): State
    requires Runs(s, es)
    decreases |es|
  {
    if es == [] then s else After(Apply(s, es[0]), es[1..])
  }

  ghost function Fresh(tasks: set<Task>, res: Resource): State {
    State(tasks, res, [], map[], None, {}, {}, {}, {}, 0, 0, false)
  }

  ghost predicate Initial(res: Resource) {
    res == Mutex(None) || res == Completion(0)
  }

  lemma {:induction false} RunKeeps(s: State, es: seq<Event>)
    requires Inv(s) && Runs(s, es)
    ensures Inv(After(s, es))
    decreases |es|
  {
    if es != [] {
      StepKeeps(s, es[0]);
      RunKeeps(Apply(s, es[0]), es[1..]);
    }
  }

  lemma Reachable(tasks: set<Task>, res: Resource, es: seq<Event>)
    requires |tasks| <= UINT32_MAX && Initial(res) && Runs(Fresh(tasks, res), es)
    ensures Inv(After(Fresh(tasks, res), es))
  {
    RunKeeps(Fresh(tasks, res), es);
  }

  /** No lost wakeup: whatever the interleaving, of the tasks queued at least as many are runnable as the resource can
      satisfy; so a free mutex that somebody waits for has a runnable waiter. */
  lemma NoLostWakeup(tasks: set<Task>, res: Resource, es: seq<Event>)
    requires |tasks| <= UINT32_MAX && Initial(res) && Runs(Fresh(tasks, res), es)
    ensures var s := After(Fresh(tasks, res), es);
      && |Runners(s.queue, s.threads)| >= Min(Units(s.res), |s.queue|)
      && (s.res == Mutex(None) && s.queue != [] ==> exists t :: t in s.queue && !Asleep(s.threads, t))
  {
    Reachable(tasks, res, es);
    var s := After(Fresh(tasks, res), es);
    if s.res == Mutex(None) && s.queue != [] {
      assert |Runners(s.queue, s.threads)| >= 1;
      var t :| t in Runners(s.queue, s.threads);
    }
  }

  /** Whatever the interleaving so far, if the resource is available and somebody waits, there is a waiter that can take
      its next pass now, and that pass takes the resource whatever signal is pending and deadline passed. */
  lemma AvailableWins(tasks: set<Task>, res: Resource, es: seq<Event>) returns (t: Task)
    requires |tasks| <= UINT32_MAX && Initial(res) && Runs(Fresh(tasks, res), es)
    requires var s := After(Fresh(tasks, res), es); Available(s.res) && s.queue != []
    ensures var s := After(Fresh(tasks, res), es);
      && t in s.queue && Enabled(s, Attempt(t, true, false))
      && forall expired, startOk :: Enabled(s, Attempt(t, expired, startOk)) ==>
           Won(s, Apply(s, Attempt(t, expired, startOk)), t)
  {
    Reachable(tasks, res, es);
    var s := After(Fresh(tasks, res), es);
    assert |Runners(s.queue, s.threads)| >= 1;
    t :| t in Runners(s.queue, s.threads);
    assert ThreadOk(s, t);
    WithoutFacts(s.queue, t);
  }

  /** The task has the resource and is no longer waiting. */
  ghost predicate Won(s: State, u: State, t: Task) {
    && Available(s.res) && u.res == Take(s.res, t) && u.taken == s.taken + 1
    && u.At(t) == OUTSIDE && t !in u.queue && t !in u.armed
  }

  /** The task gave up: it took nothing, and is no longer waiting. */
  ghost predicate GaveUp(s: State, u: State, t: Task) {
    u.res == s.res && u.taken == s.taken && u.At(t) == OUTSIDE && t !in u.queue && t !in u.armed
  }

  /** A signal that counts is pending, or the deadline has passed, or its timer cannot be started. */
  ghost predicate MustEnd(s: State, t: Task, expired: bool, startOk: bool) {
    || Interrupted(s, t, s.At(t).kind)
    || (s.At(t).kind.Timed? && (expired || (t !in s.armed && !startOk)))
  }

  /** A pass in any run ends the wait with the resource exactly if it is available; without it exactly if it is not and
      it must end; and otherwise the task goes on to sleep. */
  lemma PassOutcome(tasks: set<Task>, res: Resource, es: seq<Event>, t: Task, expired: bool, startOk: bool)
    requires |tasks| <= UINT32_MAX && Initial(res) && Runs(Fresh(tasks, res), es)
    requires Enabled(After(Fresh(tasks, res), es), Attempt(t, expired, startOk))
    ensures var s := After(Fresh(tasks, res), es);
      var u := Apply(s, Attempt(t, expired, startOk));
      && (Won(s, u, t) <==> Available(s.res))
      && (GaveUp(s, u, t) <==> !Available(s.res) && MustEnd(s, t, expired, startOk))
      && (u.lock == Some(t) <==> !Won(s, u, t) && !GaveUp(s, u, t))
  {
    Reachable(tasks, res, es);
    var s := After(Fresh(tasks, res), es);
    assert ThreadOk(s, t);
    WithoutFacts(s.queue, t);
  }

  /** Until complete_all or saturation, the successful waits are never more than the notifications. */
  lemma NeverMoreTaken(tasks: set<Task>, es: seq<Event>)
    requires |tasks| <= UINT32_MAX && Runs(Fresh(tasks, Completion(0)), es)
    ensures var s := After(Fresh(tasks, Completion(0)), es);
      !s.saturated ==> s.res.Completion? && s.taken + s.res.done == s.completes
  {
    Reachable(tasks, Completion(0), es);
    StaysCompletion(Fresh(tasks, Completion(0)), es);
  }

  lemma {:induction false} StaysCompletion(s: State, es: seq<Event>)
    requires s.res.Completion? && Runs(s, es)
    ensures After(s, es).res.Completion?
    decreases |es|
  {
    if es != [] { StaysCompletion(Apply(s, es[0]), es[1..]); }
  }

  /** No signal and no deadline is lost either: a task that is switched out in an interruptible wait has no signal, and
      one that sleeps until a deadline has a timer that is still to fire. */
  lemma NoLostSignal(tasks: set<Task>, res: Resource, es: seq<Event>, t: Task)
    requires |tasks| <= UINT32_MAX && Initial(res) && Runs(Fresh(tasks, res), es)
    ensures var s := After(Fresh(tasks, res), es);
      && (s.At(t).mode.Slept? && s.At(t).kind.Interruptible? ==> t !in s.pending)
      && (s.At(t).mode.Slept? && s.At(t).kind.Killable? ==> t !in s.killed)
      && (!s.At(t).mode.Run? && s.At(t).kind.Timed? ==> t in s.armed && t !in s.fired)
  {
    Reachable(tasks, res, es);
    assert ThreadOk(After(Fresh(tasks, res), es), t);
  }

  // ---------------------------------------------------------------------------------------------
  // What each step is for
  // ---------------------------------------------------------------------------------------------

  /** The first sleeper of the queue runs now, and everyone else is as before. */
  ghost predicate OneWoken(s: State, u: State) {
    && (forall i: nat :: FirstAsleep(s.queue, s.threads, i) ==> u.At(s.queue[i]) == s.At(s.queue[i]).(mode := Run))
    && (forall t :: !(exists i: nat :: FirstAsleep(s.queue, s.threads, i) && s.queue[i] == t) ==> u.At(t) == s.At(t))
  }

  /** What a step does: u is the state after it. */
  ghost predicate Does(s: State, e: Event, u: State)
    requires Enabled(s, e)
  {
    match e
    case Start(t, k) => u.At(t) == Thread(Trying, k, Run)
    case Attempt(t, expired, startOk) =>
      var k := s.At(t).kind;
      if Units(s.res) > 0 then Got(s, t, u) && u.At(t).pc.Out? && t !in u.queue && t !in u.armed
      else if Interrupted(s, t, k) || (k.Timed? && (expired || (t !in s.armed && !startOk))) then
        u.res == s.res && u.At(t).pc.Out? && t !in u.queue && t !in u.armed
      else u.res == s.res && u.At(t).pc.Deciding? && u.lock == Some(t) && (k.Timed? ==> t in u.armed)
    case Prepare(t) => u.queue == s.queue + [t] && u.At(t).pc.Waiting? && u.At(t).mode.Going? && u.lock.None?
    case Park(t) => u.At(t).pc.Waiting? && (u.At(t).mode.Slept? <==> !Interrupted(s, t, s.At(t).kind))
    case Signal(t, fatal) =>
      && t in u.pending && (fatal ==> t in u.killed)
      && (s.At(t).kind.Interruptible? || (s.At(t).kind.Killable? && fatal) ==> u.At(t).mode.Run?)
    case TimerFire(t) => t in u.fired && u.At(t).mode.Run?
    case Release(t) => u.res == Mutex(None) && OneWoken(s, u)
    case TryTake(t) => if Units(s.res) > 0 then Got(s, t, u) else u == s
    case Complete =>
      u.res.Completion? && u.res.done == Min(s.res.done + 1, UINT32_MAX) && OneWoken(s, u)
    case CompleteAll => u.res == Completion(UINT32_MAX) && forall t :: t in s.queue ==> u.At(t).mode.Run?
  }

  /** The task has what it waited for: it owns the mutex, or one notification is used up, unless all were given. */
  ghost predicate Got(s: State, t: Task, u: State)
    requires Units(s.res) > 0
  {
    && u.taken == s.taken + 1
    && (s.res.Mutex? ==> u.res == Mutex(Some(t)))
    && (s.res.Completion? ==>
          u.res == Completion(if s.res.done == UINT32_MAX then UINT32_MAX else s.res.done - 1))
  }

  lemma WokenOne(s: State, u: State)
    requires u.threads == WakeOne(s.queue, s.threads)
    ensures OneWoken(s, u)
  {
    FirstWoken(s.queue, s.threads);
    forall i: nat | FirstAsleep(s.queue, s.threads, i) ensures u.At(s.queue[i]) == s.At(s.queue[i]).(mode := Run) {
    }
    forall t | !(exists i: nat :: FirstAsleep(s.queue, s.threads, i) && s.queue[i] == t) ensures u.At(t) == s.At(t) {
    }
  }

  lemma {:induction false} FirstWoken(q: seq<Task>, th: map<Task, Thread>)
    ensures forall i: nat :: FirstAsleep(q, th, i) ==> WakeOne(q, th) == Woken(th, q[i])
    ensures WakeOne(q, th) == th || exists i: nat :: FirstAsleep(q, th, i)
  {
    if q != [] {
      if Asleep(th, q[0]) {
        assert FirstAsleep(q, th, 0);
      } else {
        FirstWoken(q[1..], th);
        forall i: nat | FirstAsleep(q, th, i) ensures WakeOne(q, th) == Woken(th, q[i]) {
          assert forall j: nat :: j < i - 1 ==> q[1..][j] == q[j + 1];
          assert FirstAsleep(q[1..], th, i - 1) && q[1..][i - 1] == q[i];
        }
        if i: nat :| FirstAsleep(q[1..], th, i) {
          forall j: nat | j < i + 1 ensures !Asleep(th, q[j]) {
            if j > 0 { assert q[1..][j - 1] == q[j]; }
          }
          assert FirstAsleep(q, th, i + 1);
        }
      }
    }
  }

  lemma StepDoes(s: State, e: Event)
    requires Inv(s) && Enabled(s, e)
    ensures Does(s, e, Apply(s, e))
  {
    hide Inv, WakeOne, WakeAll, OneWoken, Without;
    var u := Apply(s, e);
    match e
    case Attempt(t, _, _) => WithoutFacts(s.queue, t);
    case Release(_) => WokenOne(s, u);
    case Complete => WokenOne(s, u);
      CountBound(s);
    case CompleteAll => WakeAllFacts(s.queue, s.threads);
    case TimerFire(t) => ArmedKnown(s, t);
    case _ =>
  }

  lemma CountBound(s: State)
    requires Inv(s) && s.res.Completion?
    ensures s.res.done <= UINT32_MAX
  {
  }

  /** A timer is armed only for a task that waits. */
  lemma ArmedKnown(s: State, t: Task)
    requires Inv(s) && t in s.armed
    ensures t in s.threads
  {
    assert ThreadOk(s, t);
  }
}
