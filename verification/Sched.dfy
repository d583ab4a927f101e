/** The scheduler: kernel/sched.c.

    Each CPU has a run queue with a FIFO of ready tasks, a current task and an idle task. A step is one stretch with
    the run queue's lock held; a switch holds it from sched_prepare_switch_locked through switch_to to
    sched_finish_switch_locked, so it is one step.
 */
module Sched {

  type Task = nat
  type Cpu = nat

  datatype TState = New | Runnable | Interruptible | Uninterruptible | Killable | Stopped | Zombie

  datatype Entity = Entity(state: TState, cpu: Cpu, idle: bool, onRq: bool, onCpu: bool, needResched: bool)

  datatype Rq = Rq(curr: Task, idle: Task, ready: seq<Task>, nr: int)

  const FRESH := Entity(New, 0, false, false, false, false)

  datatype State = State(tasks: map<Task, Entity>, rqs: map<Cpu, Rq>)
  {
    /** A task that nobody has set up yet is new. */
    function At(t: Task): Entity {
      if t in tasks then tasks[t] else FRESH
    }
  }

  predicate Sleeping(st: TState) {
    st.Interruptible? || st.Uninterruptible? || st.Killable?
  }

  // ---------------------------------------------------------------------------------------------
  // Placement
  // ---------------------------------------------------------------------------------------------

  /** The d-th CPU after next, around the ring. */
  function Around(next: nat, d: nat, n: nat): nat
    requires next < n && d <= n
  {
    if next + d < n then next + d else next + d - n
  }

  /** select_cpu: the least loaded CPU, and of those the first from next on; placement continues behind it. */
  method SelectCpu(loads: seq<int>, next: nat) returns (selected: nat, follow: nat)
    requires next < |loads|
    ensures selected < |loads| && forall c :: 0 <= c < |loads| ==> loads[selected] <= loads[c]
    ensures exists d :: 0 <= d < |loads| && selected == Around(next, d, |loads|)
                        && forall k :: 0 <= k < d ==> loads[Around(next, k, |loads|)] > loads[selected]
    ensures follow == Around(selected, 1, |loads|)
  {
    var n := |loads|;
    var cpu := next;
    selected := cpu;
    var least := loads[cpu];
    ghost var d := 0;
    var i := 1;
    while i < n
      invariant 1 <= i <= n && cpu == Around(next, i - 1, n)
      invariant 0 <= d < i && selected == Around(next, d, n) && least == loads[selected]
      invariant forall k :: 0 <= k < d ==> loads[Around(next, k, n)] > least
      invariant forall k :: 0 <= k < i ==> least <= loads[Around(next, k, n)]
    {
      cpu := cpu + 1;
      if cpu == n {
        cpu := 0;
      }
      if loads[cpu] < least {
        selected, least := cpu, loads[cpu];
        d := i;
      }
      i := i + 1;
    }
    follow := selected + 1;
    if follow == n {
      follow := 0;
    }
    forall c | 0 <= c < n ensures loads[selected] <= loads[c] {
      var k := if c >= next then c - next else c + n - next;
      assert Around(next, k, n) == c;
    }
  }

  // ---------------------------------------------------------------------------------------------
  // Steps
  // ---------------------------------------------------------------------------------------------

  /** enqueue_task; `task_set_need_resched` marks an idle current task. */
  function Enqueue(s: State, c: Cpu, t: Task): State
    requires c in s.rqs
  {
    var rq := s.rqs[c];
    var tasks := s.tasks[t := s.At(t).(onRq := true)];
    var marked :=
      if rq.curr == rq.idle && rq.curr in tasks then tasks[rq.curr := tasks[rq.curr].(needResched := true)] else tasks;
    State(marked, s.rqs[c := rq.(ready := rq.ready + [t])])
  }

  function Counted(s: State, c: Cpu): State
    requires c in s.rqs
  {
    s.(rqs := s.rqs[c := s.rqs[c].(nr := s.rqs[c].nr + 1)])
  }

  /** The assertion of enqueue_task. */
  predicate MayEnqueue(s: State, c: Cpu, t: Task)
    requires c in s.rqs
  {
    !s.At(t).onRq && t != s.rqs[c].idle
  }

  datatype Event =
    | Publish(t: Task, c: Cpu)
    | Wake(t: Task, states: set<TState>)
    | SetSleep(c: Cpu, st: TState)
    | Tick(c: Cpu)
    | Switch(c: Cpu, rotate: bool, signal: bool)
    | Exit(c: Cpu)

  ghost predicate Enabled(s: State, e: Event) {
    match e
    case Publish(t, c) => c in s.rqs && s.At(t).state.New?
    case Wake(t, states) => t in s.tasks && forall st :: st in states ==> Sleeping(st) || st.Stopped?
    case SetSleep(c, st) => c in s.rqs && s.rqs[c].curr != s.rqs[c].idle && (Sleeping(st) || st.Stopped?)
    case Tick(c) => c in s.rqs
    case Switch(c, _, _) => c in s.rqs
    case Exit(c) => c in s.rqs && s.rqs[c].curr != s.rqs[c].idle
  }

  function Updated(s: State, t: Task, e: Entity): State {
    s.(tasks := s.tasks[t := e])
  }

  /** prev leaves the CPU and the head of the queue, or idle, takes it. */
  function Picked(s: State, c: Cpu): State
    requires c in s.rqs
  {
    var rq := s.rqs[c];
    var prev := rq.curr;
    var s1 := Updated(s, prev, s.At(prev).(needResched := false));
    var next := if rq.ready == [] then rq.idle else rq.ready[0];
    var s2 := Updated(s1, next, s1.At(next).(onRq := false, onCpu := true));
    var s3 := if prev == next then s2 else Updated(s2, prev, s2.At(prev).(onCpu := false));
    s3.(rqs := s.rqs[c := rq.(curr := next, ready := if rq.ready == [] then [] else rq.ready[1..])])
  }

  /** sched_switch: a blocked task is counted off; a runnable one keeps the CPU, or goes to the tail. */
  function Switched(s: State, c: Cpu, rotate: bool, signal: bool): State
    requires c in s.rqs
  {
    var rq := s.rqs[c];
    var prev := rq.curr;
    var p := s.At(prev);
    var st := if signal && (p.state.Interruptible? || p.state.Killable?) then Runnable else p.state;
    var s1 := Updated(s, prev, p.(state := st));
    if st != Runnable then
      Picked(s1.(rqs := s.rqs[c := rq.(nr := rq.nr - 1)]), c)
    else if rq.ready == [] then
      Updated(s1, prev, s1.At(prev).(needResched := false))
    else if prev == rq.idle then Picked(s1, c)
    else if !rotate && !p.needResched then s1
    else Picked(Enqueue(s1, c, prev), c)
  }

  function Apply(s: State, e: Event): State
    requires e.Publish? ==> e.c in s.rqs
    requires e.SetSleep? ==> e.c in s.rqs
    requires e.Tick? ==> e.c in s.rqs
    requires e.Switch? ==> e.c in s.rqs
    requires e.Exit? ==> e.c in s.rqs
  {
    match e
    case Publish(t, c) =>
      Counted(Enqueue(Updated(s, t, Entity(Runnable, c, false, false, false, s.At(t).needResched)), c, t), c)
    case Wake(t, states) =>
      var w := s.At(t);
      if w.state !in states then s
      else
        var s1 := Updated(s, t, w.(state := Runnable));
        if w.onCpu || w.cpu !in s.rqs then s1
        else Counted(Enqueue(s1, w.cpu, t), w.cpu)
    case SetSleep(c, st) => Updated(s, s.rqs[c].curr, s.At(s.rqs[c].curr).(state := st))
    case Tick(c) =>
      var rq := s.rqs[c];
      if rq.curr == rq.idle || rq.ready == [] then s
      else Updated(s, rq.curr, s.At(rq.curr).(needResched := true))
    case Switch(c, rotate, signal) => Switched(s, c, rotate, signal)
    case Exit(c) => Switched(Updated(s, s.rqs[c].curr, s.At(s.rqs[c].curr).(state := Zombie)), c, false, false)
  }

  // ---------------------------------------------------------------------------------------------
  // The invariant
  // ---------------------------------------------------------------------------------------------

  ghost predicate NoDup(q: seq<Task>) {
    forall i, j :: 0 <= i < j < |q| ==> q[i] != q[j]
  }

  /** What holds of a run queue while its lock is free. */
  ghost predicate RqOk(s: State, c: Cpu)
    requires c in s.rqs
  {
    var rq := s.rqs[c];
    && NoDup(rq.ready)
    && (forall t :: t in rq.ready ==> s.At(t).cpu == c && s.At(t).onRq)
    && rq.curr in s.tasks && s.At(rq.curr).cpu == c && !s.At(rq.curr).onRq && !s.At(rq.curr).state.New?
    && (s.At(rq.curr).idle ==> rq.curr == rq.idle)
    && rq.idle in s.tasks && s.At(rq.idle).cpu == c && s.At(rq.idle).idle
    && rq.nr == |rq.ready| + (if rq.curr == rq.idle then 0 else 1)
    && (rq.curr == rq.idle && rq.ready != [] ==> s.At(rq.idle).needResched)
  }

  /** What holds of a task: it is on the queue of its CPU exactly when on_rq says so, and then it is runnable and not
      running; it runs exactly when on_cpu says so; and a runnable task is running or queued. */
  ghost predicate TaskOk(s: State, t: Task) {
    var e := s.At(t);
    && (e.state.New? ==> !e.onRq && !e.onCpu && !e.idle)
    && (!e.state.New? ==> e.cpu in s.rqs)
    && (e.idle ==> e.state.Runnable? && !e.onRq)
    && (e.onRq ==> e.cpu in s.rqs && t in s.rqs[e.cpu].ready && e.state.Runnable? && !e.onCpu)
    && (!e.idle && !e.state.New? && e.cpu in s.rqs ==> (e.onCpu <==> s.rqs[e.cpu].curr == t))
    && (e.state.Runnable? && !e.idle ==> e.onRq || e.onCpu)
  }

  ghost predicate Inv(s: State) {
    && (forall c :: c in s.rqs ==> RqOk(s, c))
    && (forall t :: TaskOk(s, t))
  }

  // ---------------------------------------------------------------------------------------------
  // Every step keeps the invariant
  // ---------------------------------------------------------------------------------------------

  lemma AppendNoDup(q: seq<Task>, t: Task)
    requires NoDup(q) && t !in q
    ensures NoDup(q + [t])
  {
  }

  /** A task that can be enqueued: runnable, and neither queued nor running. */
  ghost predicate Loose(s: State, c: Cpu, t: Task) {
    && c in s.rqs && (forall d :: d in s.rqs ==> RqOk(s, d)) && (forall x :: x != t ==> TaskOk(s, x))
    && s.At(t).state.Runnable? && s.At(t).cpu == c && !s.At(t).onRq && !s.At(t).onCpu && !s.At(t).idle
    && s.rqs[c].curr != t
  }

  lemma EnqueueFacts(s: State, c: Cpu, t: Task)
    requires c in s.rqs && s.rqs[c].curr != t && s.rqs[c].curr in s.tasks
    ensures var u, rq := Counted(Enqueue(s, c, t), c), s.rqs[c];
      && u.rqs == s.rqs[c := rq.(ready := rq.ready + [t], nr := rq.nr + 1)]
      && u.At(t) == s.At(t).(onRq := true) && (forall x :: x in s.tasks ==> x in u.tasks)
      && u.At(rq.curr) == s.At(rq.curr).(needResched := rq.curr == rq.idle || s.At(rq.curr).needResched)
      && forall x :: x != t && x != rq.curr ==> u.At(x) == s.At(x)
  {
  }

  lemma EnqueueRq(s: State, u: State, c: Cpu, t: Task, d: Cpu)
    requires Loose(s, c, t) && u == Counted(Enqueue(s, c, t), c) && d in s.rqs
    ensures RqOk(u, d)
  {
    hide NoDup, Counted, Enqueue, TaskOk;
    assert RqOk(s, c) && RqOk(s, d);
    EnqueueFacts(s, c, t);
    AppendNoDup(s.rqs[c].ready, t);
  }

  lemma EnqueueTask(s: State, u: State, c: Cpu, t: Task, x: Task)
    requires Loose(s, c, t) && u == Counted(Enqueue(s, c, t), c)
    ensures TaskOk(u, x)
  {
    hide NoDup, Counted, Enqueue;
    assert RqOk(s, c);
    EnqueueFacts(s, c, t);
    assert t in s.rqs[c].ready + [t] && forall y :: y in s.rqs[c].ready ==> y in s.rqs[c].ready + [t];
    if x != t { assert TaskOk(s, x); }
  }

  /** Enqueueing it, and counting it. */
  lemma EnqueueKeeps(s: State, u: State, c: Cpu, t: Task)
    requires Loose(s, c, t) && u == Counted(Enqueue(s, c, t), c)
    ensures Inv(u)
  {
    assert u.rqs.Keys == s.rqs.Keys;
    hide Counted, Enqueue, RqOk, TaskOk;
    forall d | d in u.rqs ensures RqOk(u, d) {
      EnqueueRq(s, u, c, t, d);
    }
    forall x ensures TaskOk(u, x) {
      EnqueueTask(s, u, c, t, x);
    }
  }

  lemma PublishKeeps(s: State, t: Task, c: Cpu)
    requires Inv(s) && Enabled(s, Publish(t, c))
    ensures MayEnqueue(s, c, t) && Inv(Apply(s, Publish(t, c)))
  {
    assert TaskOk(s, t) && RqOk(s, c);
    var s1 := Updated(s, t, Entity(Runnable, c, false, false, false, s.At(t).needResched));
    hide NoDup;
    forall d | d in s1.rqs ensures RqOk(s1, d) {
      assert RqOk(s, d);
    }
    forall x | x != t ensures TaskOk(s1, x) {
      assert TaskOk(s, x);
    }
    EnqueueKeeps(s1, Apply(s, Publish(t, c)), c, t);
  }

  lemma WakeKeeps(s: State, t: Task, states: set<TState>)
    requires Inv(s) && Enabled(s, Wake(t, states))
    ensures s.At(t).state in states && !s.At(t).onCpu ==> s.At(t).cpu in s.rqs && MayEnqueue(s, s.At(t).cpu, t)
    ensures Inv(Apply(s, Wake(t, states)))
  {
    var c := s.At(t).cpu;
    assert TaskOk(s, t);
    if s.At(t).state in states {
      assert RqOk(s, c);
      var s1 := Updated(s, t, s.At(t).(state := Runnable));
      hide NoDup;
      forall d | d in s1.rqs ensures RqOk(s1, d) {
        assert RqOk(s, d);
      }
      forall x | x != t ensures TaskOk(s1, x) {
        assert TaskOk(s, x);
      }
      if s.At(t).onCpu {
        assert TaskOk(s1, t);
      } else {
        EnqueueKeeps(s1, Apply(s, Wake(t, states)), c, t);
      }
    }
  }

  lemma SetSleepKeeps(s: State, c: Cpu, st: TState)
    requires Inv(s) && Enabled(s, SetSleep(c, st))
    ensures Inv(Apply(s, SetSleep(c, st)))
  {
    hide NoDup;
    var u := Apply(s, SetSleep(c, st));
    assert RqOk(s, c) && TaskOk(s, s.rqs[c].curr);
    forall d | d in u.rqs ensures RqOk(u, d) {
      assert RqOk(s, d);
    }
    forall x ensures TaskOk(u, x) {
      assert TaskOk(s, x);
    }
  }

  lemma TickKeeps(s: State, c: Cpu)
    requires Inv(s) && Enabled(s, Tick(c))
    ensures Inv(Apply(s, Tick(c)))
  {
    hide NoDup;
    var u := Apply(s, Tick(c));
    assert RqOk(s, c) && TaskOk(s, s.rqs[c].curr);
    forall d | d in u.rqs ensures RqOk(u, d) {
      assert RqOk(s, d);
    }
    forall x ensures TaskOk(u, x) {
      assert TaskOk(s, x);
    }
  }

  /** The run queue in which pick_next_task is called: its current task is blocked and no longer counted, or idle, or
      queued behind the others. */
  ghost predicate QueueYields(s: State, c: Cpu)
    requires c in s.rqs
  {
    var rq := s.rqs[c];
    var e := s.At(rq.curr);
    && NoDup(rq.ready)
    && (forall t :: t in rq.ready ==> s.At(t).cpu == c && s.At(t).onRq)
    && rq.idle in s.tasks && s.At(rq.idle).cpu == c && s.At(rq.idle).idle
    && (e.idle ==> rq.curr == rq.idle && rq.ready != [] && e.state.Runnable? && !e.onRq)
    && rq.curr in s.tasks && e.cpu == c && !e.state.New?
    && rq.nr == |rq.ready|
    && (e.onRq <==> rq.curr in rq.ready)
    && (!e.idle ==> (e.onRq <==> e.state.Runnable?) && (rq.curr in rq.ready ==> rq.ready[0] != rq.curr))
  }

  /** Everything is in order but for the task that gives up the CPU. */
  ghost predicate Yielding(s: State, c: Cpu) {
    && c in s.rqs && QueueYields(s, c)
    && (forall d :: d in s.rqs && d != c ==> RqOk(s, d))
    && (forall t :: t != s.rqs[c].curr ==> TaskOk(s, t))
  }

  lemma PickedFacts(s: State, c: Cpu)
    requires c in s.rqs && (s.rqs[c].ready == [] ==> s.rqs[c].idle != s.rqs[c].curr)
    requires s.rqs[c].ready != [] ==> s.rqs[c].ready[0] != s.rqs[c].curr
    ensures var rq, u := s.rqs[c], Picked(s, c);
      var next := if rq.ready == [] then rq.idle else rq.ready[0];
      && u.rqs == s.rqs[c := rq.(curr := next, ready := if rq.ready == [] then [] else rq.ready[1..])]
      && next in u.tasks && u.At(next) == s.At(next).(onRq := false, onCpu := true)
      && u.At(rq.curr) == s.At(rq.curr).(needResched := false, onCpu := false)
      && (forall x :: x in s.tasks ==> x in u.tasks)
      && forall x :: x != next && x != rq.curr ==> u.At(x) == s.At(x)
  {
  }

  lemma PickOwn(s: State, u: State, c: Cpu)
    requires Yielding(s, c) && u == Picked(s, c)
    ensures c in u.rqs && RqOk(u, c)
  {
    hide NoDup, Picked;
    PickedFacts(s, c);
    TailNoDup(s.rqs[c].ready);
    assert TaskOk(s, u.rqs[c].curr);
  }

  lemma PickOther(s: State, u: State, c: Cpu, d: Cpu)
    requires Yielding(s, c) && u == Picked(s, c) && d in s.rqs && d != c
    ensures d in u.rqs && RqOk(u, d)
  {
    hide NoDup, Picked;
    PickedFacts(s, c);
    assert RqOk(s, d) && TaskOk(s, u.rqs[c].curr);
  }

  lemma PickTask(s: State, u: State, c: Cpu, x: Task)
    requires Yielding(s, c) && u == Picked(s, c)
    ensures TaskOk(u, x)
  {
    hide NoDup, Picked, RqOk;
    PickedFacts(s, c);
    TailNoDup(s.rqs[c].ready);
    assert TaskOk(s, u.rqs[c].curr);
    if x != s.rqs[c].curr { assert TaskOk(s, x); }
  }

  lemma PickKeeps(s: State, c: Cpu)
    requires Yielding(s, c)
    ensures Inv(Picked(s, c))
  {
    hide QueueYields, RqOk, TaskOk;
    var u := Picked(s, c);
    forall d | d in u.rqs ensures RqOk(u, d) {
      if d == c { PickOwn(s, u, c); } else { PickOther(s, u, c, d); }
    }
    forall x ensures TaskOk(u, x) {
      PickTask(s, u, c, x);
    }
  }

  lemma TailNoDup(q: seq<Task>)
    requires NoDup(q)
    ensures q != [] ==> NoDup(q[1..]) && forall t :: t in q[1..] <==> t in q && t != q[0]
  {
    if q != [] {
      assert forall t :: t in q ==> t == q[0] || t in q[1..];
    }
  }

  /** A change of one CPU's current task and queue, which loses nobody, leaves the other CPUs and tasks in order. */
  lemma OthersKeep(s: State, v: State, c: Cpu)
    requires Inv(s) && c in s.rqs && v.rqs.Keys == s.rqs.Keys && v.rqs[c].curr == s.rqs[c].curr
    requires forall d :: d in s.rqs && d != c ==> v.rqs[d] == s.rqs[d]
    requires forall t :: t in s.rqs[c].ready ==> t in v.rqs[c].ready
    requires forall x :: x != s.rqs[c].curr ==> (x in v.tasks <==> x in s.tasks) && v.At(x) == s.At(x)
    ensures forall d :: d in v.rqs && d != c ==> RqOk(v, d)
    ensures forall t :: t != s.rqs[c].curr ==> TaskOk(v, t)
  {
    hide NoDup;
    assert RqOk(s, c);
    forall d | d in s.rqs && d != c ensures RqOk(v, d) {
      assert RqOk(s, d);
    }
    forall t | t != s.rqs[c].curr ensures TaskOk(v, t) {
      assert TaskOk(s, t);
    }
  }

  /** The task on a CPU gives it up: blocked, idle, or to the tail. */
  lemma BlockYields(s: State, c: Cpu, st: TState)
    requires Inv(s) && c in s.rqs && s.rqs[c].curr != s.rqs[c].idle && st != Runnable && st != New
    ensures var rq := s.rqs[c];
      Yielding(Updated(s, rq.curr, s.At(rq.curr).(state := st)).(rqs := s.rqs[c := rq.(nr := rq.nr - 1)]), c)
  {
    hide NoDup;
    var rq := s.rqs[c];
    var v := Updated(s, rq.curr, s.At(rq.curr).(state := st)).(rqs := s.rqs[c := rq.(nr := rq.nr - 1)]);
    assert QueueYields(v, c) by { assert RqOk(s, c) && TaskOk(s, rq.curr); }
    OthersKeep(s, v, c);
    hide Inv;
  }

  lemma IdleYields(s: State, c: Cpu)
    requires Inv(s) && c in s.rqs && s.rqs[c].curr == s.rqs[c].idle && s.rqs[c].ready != []
    ensures Yielding(s, c)
  {
    assert RqOk(s, c) && TaskOk(s, s.rqs[c].curr);
  }

  lemma TailFacts(s: State, c: Cpu)
    requires c in s.rqs && s.rqs[c].curr != s.rqs[c].idle
    ensures var rq, u := s.rqs[c], Enqueue(s, c, s.rqs[c].curr);
      && u.rqs == s.rqs[c := rq.(ready := rq.ready + [rq.curr])]
      && u.At(rq.curr) == s.At(rq.curr).(onRq := true) && u.tasks.Keys == s.tasks.Keys + {rq.curr}
      && forall x :: x != rq.curr ==> u.At(x) == s.At(x)
  {
  }

  lemma TailQueue(s: State, v: State, c: Cpu)
    requires c in s.rqs && RqOk(s, c) && TaskOk(s, s.rqs[c].curr) && s.rqs[c].curr != s.rqs[c].idle
    requires s.rqs[c].ready != [] && s.At(s.rqs[c].curr).state.Runnable? && v == Enqueue(s, c, s.rqs[c].curr)
    ensures MayEnqueue(s, c, s.rqs[c].curr) && c in v.rqs && QueueYields(v, c)
  {
    hide NoDup, Enqueue;
    var rq := s.rqs[c];
    TailFacts(s, c);
    AppendNoDup(rq.ready, rq.curr);
    assert (rq.ready + [rq.curr])[0] == rq.ready[0];
  }

  lemma TailYields(s: State, c: Cpu)
    requires Inv(s) && c in s.rqs && s.rqs[c].curr != s.rqs[c].idle && s.rqs[c].ready != []
    requires s.At(s.rqs[c].curr).state.Runnable?
    ensures MayEnqueue(s, c, s.rqs[c].curr) && Yielding(Enqueue(s, c, s.rqs[c].curr), c)
  {
    hide RqOk, TaskOk, QueueYields, Enqueue;
    var v := Enqueue(s, c, s.rqs[c].curr);
    assert RqOk(s, c) && TaskOk(s, s.rqs[c].curr);
    TailQueue(s, v, c);
    TailFacts(s, c);
    CurrKnown(s, c);
    OthersKeep(s, v, c);
  }

  lemma CurrKnown(s: State, c: Cpu)
    requires c in s.rqs && RqOk(s, c)
    ensures s.rqs[c].curr in s.tasks
  {
  }

  /** A signal makes a sleeping current task runnable again before it is switched out. */
  lemma SignalledKeeps(s: State, c: Cpu, st: TState, need: bool)
    requires Inv(s) && c in s.rqs
    requires (st == s.At(s.rqs[c].curr).state || (st == Runnable && s.rqs[c].curr != s.rqs[c].idle))
    requires s.rqs[c].ready == [] || need == s.At(s.rqs[c].curr).needResched
    ensures Inv(Updated(s, s.rqs[c].curr, s.At(s.rqs[c].curr).(state := st, needResched := need)))
  {
    var p := s.rqs[c].curr;
    var u := Updated(s, p, s.At(p).(state := st, needResched := need));
    assert RqOk(s, c) && TaskOk(s, p);
    hide NoDup;
    forall d | d in s.rqs ensures RqOk(u, d) {
      assert RqOk(s, d);
    }
    forall t ensures TaskOk(u, t) {
      assert TaskOk(s, t);
    }
  }

  lemma SwitchKeeps(s: State, c: Cpu, rotate: bool, signal: bool)
    requires Inv(s) && c in s.rqs
    ensures Inv(Switched(s, c, rotate, signal))
  {
    hide Inv, Yielding, Picked;
    var rq := s.rqs[c];
    var p := s.At(rq.curr);
    CurrFacts(s, c);
    var st := if signal && (p.state.Interruptible? || p.state.Killable?) then Runnable else p.state;
    var s1 := Updated(s, rq.curr, p.(state := st));
    SignalledKeeps(s, c, st, p.needResched);
    if st != Runnable {
      BlockYields(s, c, st);
      PickKeeps(s1.(rqs := s.rqs[c := rq.(nr := rq.nr - 1)]), c);
    } else if rq.ready == [] {
      SignalledKeeps(s, c, st, false);
      assert s.tasks[rq.curr := p.(state := st)][rq.curr := p.(state := st, needResched := false)]
          == s.tasks[rq.curr := p.(state := st, needResched := false)];
    } else if rq.curr == rq.idle {
      IdleYields(s1, c);
      PickKeeps(s1, c);
    } else if rotate || p.needResched {
      TailYields(s1, c);
      PickKeeps(Enqueue(s1, c, rq.curr), c);
    }
  }

  lemma CurrFacts(s: State, c: Cpu)
    requires Inv(s) && c in s.rqs
    ensures s.At(s.rqs[c].curr).state != New
    ensures s.rqs[c].curr == s.rqs[c].idle ==> s.At(s.rqs[c].curr).state == Runnable
  {
    assert RqOk(s, c) && TaskOk(s, s.rqs[c].curr) && TaskOk(s, s.rqs[c].idle);
  }

  lemma ExitKeeps(s: State, c: Cpu)
    requires Inv(s) && Enabled(s, Exit(c))
    ensures Inv(Apply(s, Exit(c)))
  {
    hide Inv, Yielding, Picked;
    var rq := s.rqs[c];
    var z := s.At(rq.curr).(state := Zombie);
    BlockYields(s, c, Zombie);
    assert s.tasks[rq.curr := z][rq.curr := z] == s.tasks[rq.curr := z];
    PickKeeps(Updated(s, rq.curr, z).(rqs := s.rqs[c := rq.(nr := rq.nr - 1)]), c);
  }

  /** Every step keeps the invariant, and where it enqueues a task the assertion of enqueue_task holds: PublishKeeps,
      WakeKeeps and TailYields say so for the three callers. */
  lemma StepKeeps(s: State, e: Event)
    requires Inv(s) && Enabled(s, e)
    ensures Inv(Apply(s, e))
  {
    hide Inv, Switched, Enqueue;
    match e
    case Publish(t, c) => PublishKeeps(s, t, c);
    case Wake(t, states) => WakeKeeps(s, t, states);
    case SetSleep(c, st) => SetSleepKeeps(s, c, st);
    case Tick(c) => TickKeeps(s, c);
    case Switch(c, rotate, signal) => SwitchKeeps(s, c, rotate, signal);
    case Exit(c) => ExitKeeps(s, c);
  }

  // ---------------------------------------------------------------------------------------------
  // Whole runs
  // ---------------------------------------------------------------------------------------------

  ghost predicate Runs(s: State, es: seq<Event>)
    decreases |es|
  {
    es == [] || (Enabled(s, es[0]) && Runs(Apply(s, es[0]), es[1..]))
  }

  ghost function After(s: State, es: seq<Event>): State
    requires Runs(s, es)
    decreases |es|
  {
    if es == [] then s else After(Apply(s, es[0]), es[1..])
  }

  lemma {:induction false} RunKeeps(s: State, es: seq<Event>)
    requires Inv(s) && Runs(s, es)
    ensures Inv(After(s, es))
    decreases |es|
  {
    if es != [] {
      StepKeeps(s, es[0]);
      RunKeeps(Apply(s, es[0]), es[1..]);
    }
  }

  /** CPUs that all run their idle task, as after sched_init_idle. */
  ghost predicate Booted(s: State) {
    && (forall c :: c in s.rqs ==> s.rqs[c].curr == s.rqs[c].idle && s.rqs[c].ready == [] && s.rqs[c].nr == 0
                                   && s.rqs[c].idle in s.tasks
                                   && s.tasks[s.rqs[c].idle] == Entity(Runnable, c, true, false, false, false))
    && (forall t :: t in s.tasks && !s.tasks[t].state.New? ==>
          s.tasks[t].cpu in s.rqs && s.rqs[s.tasks[t].cpu].idle == t)
    && (forall t :: t in s.tasks && s.tasks[t].state.New? ==> s.tasks[t] == FRESH)
  }

  lemma BootedInv(s: State)
    requires Booted(s)
    ensures Inv(s)
  {
    assert forall c :: c in s.rqs ==> RqOk(s, c);
    assert forall t :: TaskOk(s, t);
  }

  /** A task is queued at most once and on its own CPU only, on_rq says whether it is; and no runnable task is lost. */
  ghost predicate TasksSafe(u: State) {
    && (forall t, c :: c in u.rqs && t in u.rqs[c].ready ==> u.At(t).onRq && u.At(t).cpu == c)
    && (forall t :: u.At(t).onRq ==> u.At(t).cpu in u.rqs && t in u.rqs[u.At(t).cpu].ready)
    && (forall t :: u.At(t).state.Runnable? && !u.At(t).idle ==>
          u.At(t).cpu in u.rqs && (t in u.rqs[u.At(t).cpu].ready || t == u.rqs[u.At(t).cpu].curr))
  }

  /** The load count is right, and an idle CPU with work is told. */
  ghost predicate QueuesSafe(u: State) {
    forall c :: c in u.rqs ==>
      var rq := u.rqs[c];
      && NoDup(rq.ready) && rq.nr == |rq.ready| + (if rq.curr == rq.idle then 0 else 1)
      && (rq.curr == rq.idle && rq.ready != [] ==> u.At(rq.idle).needResched)
  }

  lemma InvSafe(u: State)
    requires Inv(u)
    ensures TasksSafe(u) && QueuesSafe(u)
  {
    hide NoDup;
    forall c | c in u.rqs
      ensures forall t :: t in u.rqs[c].ready ==> u.At(t).onRq && u.At(t).cpu == c
    {
      assert RqOk(u, c);
    }
    forall t | u.At(t).onRq || (u.At(t).state.Runnable? && !u.At(t).idle)
      ensures u.At(t).cpu in u.rqs && (t in u.rqs[u.At(t).cpu].ready || (!u.At(t).onRq && t == u.rqs[u.At(t).cpu].curr))
    {
      assert TaskOk(u, t);
    }
    assert forall c :: c in u.rqs ==> RqOk(u, c);
  }

  /** All of this on every run from boot, whenever the run queues' locks are free. */
  lemma Safe(s: State, es: seq<Event>)
    requires Booted(s) && Runs(s, es)
    ensures TasksSafe(After(s, es)) && QueuesSafe(After(s, es))
  {
    BootedInv(s);
    RunKeeps(s, es);
    InvSafe(After(s, es));
  }

  /** Where the step enqueues a task, the assertion of enqueue_task holds. */
  ghost predicate EnqueueHolds(s: State, e: Event)
    requires Enabled(s, e)
  {
    match e
    case Publish(t, c) => MayEnqueue(s, c, t)
    case Wake(t, states) =>
      s.At(t).state in states && !s.At(t).onCpu ==> s.At(t).cpu in s.rqs && MayEnqueue(s, s.At(t).cpu, t)
    case Switch(c, rotate, signal) => Rotates(s, c, rotate, signal) ==> MayEnqueue(s, c, s.rqs[c].curr)
    case _ => true
  }

  /** The current task goes to the tail of the queue. */
  ghost predicate Rotates(s: State, c: Cpu, rotate: bool, signal: bool)
    requires c in s.rqs
  {
    var rq := s.rqs[c];
    var p := s.At(rq.curr);
    && (p.state.Runnable? || (signal && (p.state.Interruptible? || p.state.Killable?)))
    && rq.ready != [] && rq.curr != rq.idle && (rotate || p.needResched)
  }

  /** In no run from boot does the assertion of enqueue_task ever fail, whoever the caller is. */
  lemma EnqueueNeverFails(s: State, es: seq<Event>, e: Event)
    requires Booted(s) && Runs(s, es) && Enabled(After(s, es), e)
    ensures EnqueueHolds(After(s, es), e)
  {
    BootedInv(s);
    RunKeeps(s, es);
    var u := After(s, es);
    match e
    case Publish(t, c) => PublishKeeps(u, t, c);
    case Wake(t, states) => WakeKeeps(u, t, states);
    case Switch(c, rotate, signal) => CurrFacts(u, c);
    case _ =>
  }

  /** Does this step take the head of the queue of CPU c? */
  ghost predicate Picks(s: State, e: Event, c: Cpu)
    requires c in s.rqs
  {
    var rq := s.rqs[c];
    var p := s.At(rq.curr);
    match e
    case Exit(d) => d == c
    case Switch(d, rotate, signal) =>
      && d == c
      && var blocked := p.state != Runnable && !(signal && (p.state.Interruptible? || p.state.Killable?));
         blocked || (rq.ready != [] && (rq.curr == rq.idle || rotate || p.needResched))
    case _ => false
  }

  lemma EnqueuedQueue(s: State, c: Cpu, t: Task)
    requires c in s.rqs
    ensures var rq := s.rqs[c]; Enqueue(s, c, t).rqs == s.rqs[c := rq.(ready := rq.ready + [t])]
  {
  }

  lemma PickedQueue(s: State, c: Cpu)
    requires c in s.rqs
    ensures var rq := s.rqs[c];
      var u := Picked(s, c);
      u.rqs == s.rqs[c := rq.(curr := if rq.ready == [] then rq.idle else rq.ready[0],
                              ready := if rq.ready == [] then [] else rq.ready[1..])]
  {
  }

  /** CPU c takes the head of its queue, if there is one, and the rest of the queue moves up. */
  ghost predicate HeadTaken(s: State, u: State, c: Cpu)
    requires c in s.rqs && c in u.rqs
  {
    var q := s.rqs[c].ready;
    q != [] ==> u.rqs[c].curr == q[0] && q[1..] <= u.rqs[c].ready
  }

  lemma RotatedQueue(s: State, c: Cpu, t: Task)
    requires c in s.rqs && s.rqs[c].ready != []
    ensures var u := Picked(Enqueue(s, c, t), c);
      u.rqs.Keys == s.rqs.Keys && HeadTaken(s, u, c) && forall d :: d in s.rqs && d != c ==> u.rqs[d] == s.rqs[d]
  {
    hide Picked, Enqueue;
    EnqueuedQueue(s, c, t);
    PickedQueue(Enqueue(s, c, t), c);
    var q := s.rqs[c].ready;
    assert (q + [t])[1..] == q[1..] + [t];
  }

  lemma HeadQueue(s: State, c: Cpu)
    requires c in s.rqs
    ensures var u := Picked(s, c);
      u.rqs.Keys == s.rqs.Keys && HeadTaken(s, u, c) && forall d :: d in s.rqs && d != c ==> u.rqs[d] == s.rqs[d]
  {
    hide Picked;
    PickedQueue(s, c);
  }

  /** The queues after a switch. */
  lemma SwitchedQueue(s: State, c: Cpu, rotate: bool, signal: bool)
    requires c in s.rqs
    ensures var u := Switched(s, c, rotate, signal);
      && u.rqs.Keys == s.rqs.Keys && (forall d :: d in s.rqs && d != c ==> u.rqs[d] == s.rqs[d])
      && if Picks(s, Switch(c, rotate, signal), c) then HeadTaken(s, u, c) else u.rqs[c].ready == s.rqs[c].ready
  {
    hide Picked, Enqueue;
    var rq := s.rqs[c];
    var p := s.At(rq.curr);
    var st := if signal && (p.state.Interruptible? || p.state.Killable?) then Runnable else p.state;
    var s1 := Updated(s, rq.curr, p.(state := st));
    if st != Runnable {
      HeadQueue(s1.(rqs := s.rqs[c := rq.(nr := rq.nr - 1)]), c);
    } else if rq.ready != [] && rq.curr == rq.idle {
      HeadQueue(s1, c);
    } else if rq.ready != [] && (rotate || p.needResched) {
      RotatedQueue(s1, c, rq.curr);
    }
  }

  /** Each pick moves every queued task one place forward, the first one to the CPU; nothing else moves any. */
  lemma Fifo(s: State, e: Event, c: Cpu, k: nat)
    requires Enabled(s, e) && c in s.rqs && k < |s.rqs[c].ready|
    ensures var u, q := Apply(s, e), s.rqs[c].ready;
      && c in u.rqs
      && (Picks(s, e, c) && k == 0 ==> u.rqs[c].curr == q[0])
      && (Picks(s, e, c) && k > 0 ==> k - 1 < |u.rqs[c].ready| && u.rqs[c].ready[k - 1] == q[k])
      && (!Picks(s, e, c) ==> k < |u.rqs[c].ready| && u.rqs[c].ready[k] == q[k])
  {
    hide Switched, Enqueue;
    var q := s.rqs[c].ready;
    assert k > 0 ==> q[1..][k - 1] == q[k];
    match e
    case Publish(t, d) =>
      EnqueuedQueue(Updated(s, t, Entity(Runnable, d, false, false, false, s.At(t).needResched)), d, t);
    case Wake(t, states) =>
      var w := s.At(t);
      if w.cpu in s.rqs { EnqueuedQueue(Updated(s, t, w.(state := Runnable)), w.cpu, t); }
    case Switch(d, rotate, signal) => SwitchedQueue(s, d, rotate, signal);
    case Exit(d) =>
      SwitchedQueue(Updated(s, s.rqs[d].curr, s.At(s.rqs[d].curr).(state := Zombie)), d, false, false);
    case _ =>
  }

  ghost function PickCount(s: State, es: seq<Event>, c: Cpu): nat
    requires Runs(s, es)
    decreases |es|
  {
    if es == [] then 0
    else (if c in s.rqs && Picks(s, es[0], c) then 1 else 0) + PickCount(Apply(s, es[0]), es[1..], c)
  }

  /** Whatever else happens, a task at position k is at the head after exactly k picks of its CPU, so the next one runs
      it. */
  lemma {:induction false} RunsInTurn(s: State, es: seq<Event>, c: Cpu, k: nat)
    requires Runs(s, es) && c in s.rqs && k < |s.rqs[c].ready| && PickCount(s, es, c) <= k
    ensures var u := After(s, es);
      var at := k - PickCount(s, es, c);
      c in u.rqs && at < |u.rqs[c].ready| && u.rqs[c].ready[at] == s.rqs[c].ready[k]
    decreases |es|
  {
    hide Apply, Picks;
    if es != [] {
      Fifo(s, es[0], c, k);
      var u := Apply(s, es[0]);
      if Picks(s, es[0], c) {
        RunsInTurn(u, es[1..], c, k - 1);
      } else {
        RunsInTurn(u, es[1..], c, k);
      }
    }
  }

  // ---------------------------------------------------------------------------------------------
  // What each step is for
  // ---------------------------------------------------------------------------------------------

  /** The task is the last of the queue of CPU c, and counted; an idle CPU is told. */
  ghost predicate Queued(s: State, u: State, c: Cpu, t: Task) {
    && c in s.rqs && c in u.rqs
    && u.rqs[c].ready == s.rqs[c].ready + [t] && u.rqs[c].nr == s.rqs[c].nr + 1 && u.rqs[c].curr == s.rqs[c].curr
    && u.At(t).state.Runnable? && u.At(t).cpu == c && u.At(t).onRq && !u.At(t).onCpu
    && (s.rqs[c].curr == s.rqs[c].idle ==> u.At(s.rqs[c].curr).needResched)
  }

  /** The current task of CPU c is switched out, and the head of the queue, or idle, switched in. */
  ghost predicate Handed(s: State, u: State, c: Cpu) {
    && c in s.rqs && c in u.rqs
    && var q := s.rqs[c].ready;
       u.rqs[c].curr == (if q == [] then s.rqs[c].idle else q[0]) && u.At(u.rqs[c].curr).onCpu
  }

  /** What a step does: u is the state after it. */
  ghost predicate Does(s: State, e: Event, u: State)
    requires Enabled(s, e)
  {
    match e
    case Publish(t, c) => Queued(s, u, c, t) && !u.At(t).idle
    case Wake(t, states) =>
      if s.At(t).state !in states then u == s
      else if s.At(t).onCpu then u.At(t).state.Runnable? && u.At(t).onCpu && u.rqs == s.rqs
      else Queued(s, u, s.At(t).cpu, t)
    case SetSleep(c, st) => u.At(s.rqs[c].curr).state == st && u.rqs == s.rqs
    case Tick(c) =>
      u.rqs == s.rqs && (s.rqs[c].curr != s.rqs[c].idle && s.rqs[c].ready != [] ==> u.At(s.rqs[c].curr).needResched)
    case Switch(c, rotate, signal) =>
      var prev := s.rqs[c].curr;
      var p := s.At(prev);
      if Blocks(s, c, signal) then
        Handed(s, u, c) && u.At(prev).state == p.state && !u.At(prev).onCpu && !u.At(prev).onRq
        && prev !in u.rqs[c].ready && u.rqs[c].nr == s.rqs[c].nr - 1
      else
        && u.At(prev).state.Runnable? && c in u.rqs && u.rqs[c].nr == s.rqs[c].nr
        && if Rotates(s, c, rotate, signal) then
             Handed(s, u, c) && u.At(prev).onRq && !u.At(prev).onCpu && !u.At(prev).needResched
             && u.rqs[c].ready == s.rqs[c].ready[1..] + [prev]
           else if prev == s.rqs[c].idle && s.rqs[c].ready != [] then
             Handed(s, u, c) && u.rqs[c].ready == s.rqs[c].ready[1..]
           else
             && u.rqs[c].curr == prev && u.rqs[c].ready == s.rqs[c].ready
             && (s.rqs[c].ready == [] ==> !u.At(prev).needResched)
    case Exit(c) =>
      var prev := s.rqs[c].curr;
      && Handed(s, u, c) && u.At(prev).state.Zombie? && !u.At(prev).onCpu && !u.At(prev).onRq
      && prev !in u.rqs[c].ready && u.rqs[c].nr == s.rqs[c].nr - 1
  }

  /** The current task cannot go on: it is not runnable, and no signal makes it so. */
  ghost predicate Blocks(s: State, c: Cpu, signal: bool)
    requires c in s.rqs
  {
    var st := s.At(s.rqs[c].curr).state;
    !st.Runnable? && !(signal && (st.Interruptible? || st.Killable?))
  }

  /** The current task is not queued, and the idle task is nobody else. */
  lemma CurrApart(s: State, c: Cpu)
    requires Inv(s) && c in s.rqs
    ensures var rq := s.rqs[c];
      && rq.curr !in rq.ready && rq.curr in s.tasks && s.At(rq.curr).cpu == c && !s.At(rq.curr).onRq
      && (rq.ready != [] ==> rq.ready[0] != rq.curr)
      && (rq.curr == rq.idle ==> s.At(rq.curr).state.Runnable?)
      && (rq.curr != rq.idle ==> !s.At(rq.curr).idle)
  {
    hide NoDup;
    assert RqOk(s, c) && TaskOk(s, s.rqs[c].curr);
  }

  lemma PublishDoes(s: State, t: Task, c: Cpu)
    requires Inv(s) && Enabled(s, Publish(t, c))
    ensures Does(s, Publish(t, c), Apply(s, Publish(t, c)))
  {
    hide Inv;
    CurrApart(s, c);
    NewApart(s, t, c);
  }

  lemma NewApart(s: State, t: Task, c: Cpu)
    requires Inv(s) && c in s.rqs && s.At(t).state.New?
    ensures s.rqs[c].curr != t
  {
    hide NoDup;
    assert RqOk(s, c);
  }

  lemma WakeDoes(s: State, t: Task, states: set<TState>)
    requires Inv(s) && Enabled(s, Wake(t, states))
    ensures Does(s, Wake(t, states), Apply(s, Wake(t, states)))
  {
    hide Inv;
    if s.At(t).state in states {
      SleeperApart(s, t);
      if !s.At(t).onCpu { CurrApart(s, s.At(t).cpu); }
    }
  }

  lemma SleeperApart(s: State, t: Task)
    requires Inv(s) && (Sleeping(s.At(t).state) || s.At(t).state.Stopped?)
    ensures s.At(t).cpu in s.rqs && (!s.At(t).onCpu ==> s.rqs[s.At(t).cpu].curr != t)
  {
    hide NoDup, RqOk;
    assert TaskOk(s, t);
  }

  /** A state in which prev gives up CPU c, and what pick_next_task makes of it. */
  lemma PickDoes(s: State, c: Cpu)
    requires c in s.rqs && (s.rqs[c].ready == [] ==> s.rqs[c].idle != s.rqs[c].curr)
    requires s.rqs[c].ready != [] ==> s.rqs[c].ready[0] != s.rqs[c].curr
    ensures var u, rq, p := Picked(s, c), s.rqs[c], s.At(s.rqs[c].curr);
      && Handed(s, u, c) && u.rqs[c].nr == rq.nr && u.rqs[c].ready == (if rq.ready == [] then [] else rq.ready[1..])
      && u.At(rq.curr) == p.(needResched := false, onCpu := false)
  {
    PickedFacts(s, c);
    hide Picked;
  }

  lemma SwitchDoes(s: State, c: Cpu, rotate: bool, signal: bool)
    requires Inv(s) && c in s.rqs
    ensures Does(s, Switch(c, rotate, signal), Switched(s, c, rotate, signal))
  {
    hide Inv, Picked, Handed, Enqueue;
    var rq := s.rqs[c];
    var p := s.At(rq.curr);
    CurrApart(s, c);
    var st := if signal && (p.state.Interruptible? || p.state.Killable?) then Runnable else p.state;
    var s1 := Updated(s, rq.curr, p.(state := st));
    if st != Runnable {
      var s2 := s1.(rqs := s.rqs[c := rq.(nr := rq.nr - 1)]);
      PickDoes(s2, c);
      SameHanded(s, s2, Picked(s2, c), c);
    } else if rq.ready != [] && rq.curr == rq.idle {
      PickDoes(s1, c);
      SameHanded(s, s1, Picked(s1, c), c);
    } else if rq.ready != [] && (rotate || p.needResched) {
      TailFacts(s1, c);
      var s2 := Enqueue(s1, c, rq.curr);
      assert s2.rqs[c].ready[0] == rq.ready[0] && s2.rqs[c].ready[1..] == rq.ready[1..] + [rq.curr];
      PickDoes(s2, c);
      SameHanded(s, s2, Picked(s2, c), c);
    }
  }

  lemma SameHanded(s: State, v: State, u: State, c: Cpu)
    requires c in s.rqs && c in v.rqs && Handed(v, u, c) && v.rqs[c].idle == s.rqs[c].idle
    requires (v.rqs[c].ready == [] <==> s.rqs[c].ready == [])
    requires s.rqs[c].ready != [] ==> v.rqs[c].ready[0] == s.rqs[c].ready[0]
    ensures Handed(s, u, c)
  {
  }

  lemma StepDoes(s: State, e: Event)
    requires Inv(s) && Enabled(s, e)
    ensures Does(s, e, Apply(s, e))
  {
    hide Inv, Switched, Enqueue, Does;
    match e
    case Publish(t, c) => PublishDoes(s, t, c);
    case Wake(t, states) => WakeDoes(s, t, states);
    case SetSleep(c, st) => PlainDoes(s, e);
    case Tick(c) => PlainDoes(s, e);
    case Switch(c, rotate, signal) => SwitchDoes(s, c, rotate, signal);
    case Exit(c) => ExitDoes(s, c);
  }

  lemma PlainDoes(s: State, e: Event)
    requires Enabled(s, e) && (e.SetSleep? || e.Tick?)
    ensures Does(s, e, Apply(s, e))
  {
  }

  lemma ExitDoes(s: State, c: Cpu)
    requires Inv(s) && Enabled(s, Exit(c))
    ensures Does(s, Exit(c), Apply(s, Exit(c)))
  {
    hide Inv, Picked, Handed;
    var rq := s.rqs[c];
    var z := s.At(rq.curr).(state := Zombie);
    CurrApart(s, c);
    assert s.tasks[rq.curr := z][rq.curr := z] == s.tasks[rq.curr := z];
    var s2 := Updated(s, rq.curr, z).(rqs := s.rqs[c := rq.(nr := rq.nr - 1)]);
    PickDoes(s2, c);
    SameHanded(s, s2, Picked(s2, c), c);
  }
}
