/** Signals with stop and continue: kernel/signal.c, and sched_stop in kernel/sched.c.

    A task's pending set, queue, mask and actions change under its signal lock; stopping happens under the run queue's
    lock. Each method is one critical section, so the methods of a task may be called in any order that the two locks
    allow. Sending SIGCONT or SIGKILL first clears the intent to stop and then, still holding the signal lock, resumes
    the task: two methods, since the task can enter sched_stop between them.
 */
module Signals {
  import opened Errno

  const SIGKILL: nat := 9
  const SIGCHLD: nat := 17
  const SIGCONT: nat := 18
  const SIGSTOP: nat := 19
  const SIGURG: nat := 23
  const SIGWINCH: nat := 28
  const SIG_MAX: nat := 31

  /** SIGSTOP, SIGTSTP, SIGTTIN, SIGTTOU. */
  const STOPS: set<nat> := {19, 20, 21, 22}
  const UNBLOCKABLE: set<nat> := {SIGKILL, SIGSTOP}
  const IGNORED: set<nat> := {SIGCHLD, SIGCONT, SIGURG, SIGWINCH}

  datatype Handler = Default | Ignore | Handle(entry: nat)

  datatype Action = Action(handler: Handler, mask: set<nat>, resetHand: bool, noDefer: bool)

  datatype Info = Info(signo: nat, code: nat)

  datatype RunState = Going | Stopped

  /** signal_ignored. */
  predicate IsIgnored(a: Action, sig: nat) {
    a.handler.Ignore? || (a.handler.Default? && sig in IGNORED)
  }

  predicate Valid31(sig: nat) {
    1 <= sig <= SIG_MAX
  }

  // ---------------------------------------------------------------------------------------------
  // The queue
  // ---------------------------------------------------------------------------------------------

  function Keep(q: seq<Info>, mask: set<nat>): seq<Info> {
    if q == [] then [] else if q[0].signo in mask then Keep(q[1..], mask) else [q[0]] + Keep(q[1..], mask)
  }

  ghost predicate OneEach(q: seq<Info>, pending: set<nat>) {
    && (forall i :: 0 <= i < |q| ==> q[i].signo in pending)
    && (forall i, j :: 0 <= i < j < |q| ==> q[i].signo != q[j].signo)
  }

  lemma {:induction false} KeepFacts(q: seq<Info>, mask: set<nat>)
    ensures forall x :: x in Keep(q, mask) <==> x in q && x.signo !in mask
    ensures forall p :: OneEach(q, p) ==> OneEach(Keep(q, mask), p - mask)
  {
    if q != [] {
      KeepFacts(q[1..], mask);
      assert forall x :: x in q <==> x == q[0] || x in q[1..];
      forall p | OneEach(q, p) ensures OneEach(Keep(q, mask), p - mask) {
        assert OneEach(q[1..], p);
        if q[0].signo !in mask {
          var r := Keep(q[1..], mask);
          forall j | 0 <= j < |r| ensures q[0].signo != r[j].signo {
            assert r[j] in r && r[j] in q[1..];
          }
        }
      }
    }
  }

  /** The loop of flush_signals_locked over the queue. */
  method FlushQueue(q: seq<Info>, mask: set<nat>) returns (r: seq<Info>)
    ensures r == Keep(q, mask)
  {
    r := [];
    var i := 0;
    assert q[0..] == q;
    while i < |q|
      invariant 0 <= i <= |q| && Keep(q, mask) == r + Keep(q[i..], mask)
    {
      assert q[i..][0] == q[i] && q[i..][1..] == q[i + 1..];
      if q[i].signo !in mask {
        r := r + [q[i]];
      }
      i := i + 1;
    }
  }

  /** The queue without its first entry for a signal, and that entry if there is one. */
  function Take(q: seq<Info>, sig: nat): (seq<Info>, Option<Info>) {
    if q == [] then ([], None)
    else if q[0].signo == sig then (q[1..], Some(q[0]))
    else var (r, x) := Take(q[1..], sig); ([q[0]] + r, x)
  }

  /** With one entry for each signal, taking one leaves no other for that signal. */
  lemma {:induction false} TakeFacts(q: seq<Info>, sig: nat, pending: set<nat>)
    requires OneEach(q, pending)
    ensures OneEach(Take(q, sig).0, pending - {sig})
    ensures forall x :: x in Take(q, sig).0 <==> x in q && x.signo != sig
    ensures Take(q, sig).1.Some? ==> Take(q, sig).1.value in q && Take(q, sig).1.value.signo == sig
    ensures Take(q, sig).1.None? ==> forall x :: x in q ==> x.signo != sig
  {
    if q != [] {
      assert forall x :: x in q <==> x == q[0] || x in q[1..];
      assert forall x :: x in q[1..] ==> x.signo != q[0].signo;
      assert OneEach(q[1..], pending);
      if q[0].signo != sig {
        TakeFacts(q[1..], sig, pending);
        var r := Take(q[1..], sig).0;
        forall j | 0 <= j < |r| ensures q[0].signo != r[j].signo {
          assert r[j] in r;
        }
      } else {
        forall i | 0 <= i < |q[1..]| ensures q[1..][i].signo in pending - {sig} {
          assert q[1..][i] in q[1..];
        }
      }
    }
  }

  /** The loop of dequeue_signal_locked. */
  method TakeQueue(q: seq<Info>, sig: nat) returns (r: seq<Info>, info: Option<Info>)
    ensures r == Take(q, sig).0 && info == Take(q, sig).1
  {
    var i := 0;
    while i < |q|
      invariant 0 <= i <= |q| && forall j :: 0 <= j < i ==> q[j].signo != sig
    {
      if q[i].signo == sig {
        TakeAt(q, i, sig);
        return q[..i] + q[i + 1..], Some(q[i]);
      }
      i := i + 1;
    }
    TakeNone(q, sig);
    return q, None;
  }

  lemma {:induction false} TakeAt(q: seq<Info>, i: nat, sig: nat)
    requires i < |q| && q[i].signo == sig && forall j :: 0 <= j < i ==> q[j].signo != sig
    ensures Take(q, sig).0 == q[..i] + q[i + 1..] && Take(q, sig).1 == Some(q[i])
  {
    if i > 0 {
      TakeAt(q[1..], i - 1, sig);
      assert [q[0]] + (q[1..][..i - 1] + q[1..][i..]) == q[..i] + q[i + 1..];
    }
  }

  lemma {:induction false} TakeNone(q: seq<Info>, sig: nat)
    requires forall j :: 0 <= j < |q| ==> q[j].signo != sig
    ensures Take(q, sig).0 == q && Take(q, sig).1 == None
  {
    if q != [] { TakeNone(q[1..], sig); }
  }

  /** find_first_bit. */
  method FirstSignal(s: set<nat>) returns (sig: nat)
    requires s != {} && forall x :: x in s ==> Valid31(x)
    ensures sig in s && sig == Lowest(s, 1) && forall x :: x in s ==> sig <= x
  {
    ghost var some :| some in s;
    sig := 1;
    while sig !in s
      invariant 1 <= sig <= some && Lowest(s, sig) == Lowest(s, 1) && forall x :: x in s ==> sig <= x
      decreases some - sig
    {
      sig := sig + 1;
    }
  }

  // ---------------------------------------------------------------------------------------------
  // Steps
  // ---------------------------------------------------------------------------------------------

  /** The part of a task that signals and stops are decided by. */
  datatype Snap = Snap(pending: set<nat>, blocked: set<nat>, actions: map<nat, Action>, stopPending: bool,
                       state: RunState, stopping: bool, resuming: bool)

  /** What senders, the task itself and the scheduler do, each under its lock: the two halves of send_signal, the two
      forms of get_signal, the two halves of sched_stop, signal_delivered, and changes of actions and of the mask. */
  datatype Step =
    | Send(info: Info, memOk: bool) | Resume | Get | Fault(fault: Info) | Test | Stop
    | Deliver(action: Action, signo: nat) | Act(sig: nat, act: Option<Action>) | Mask(how: nat, mask: set<nat>)
    | Wait(mask: set<nat>) | Return(mask: set<nat>)

  /** The signals that sending one cancels: a stop signal cancels a continue, and the other way around. */
  function Cancels(sig: nat): set<nat> {
    if sig in STOPS then {SIGCONT} else if sig == SIGCONT then STOPS else {}
  }

  /** The signal becomes pending: it is not yet, and is blocked or not ignored. */
  predicate Posts(s: Snap, sig: nat)
    requires sig in s.actions
  {
    sig !in s.pending - Cancels(sig) && (sig in s.blocked || !IsIgnored(s.actions[sig], sig))
  }

  /** The action is to do nothing: the user asked for that, or asked for nothing and it is the default. */
  ghost predicate Shuns(a: Action, sig: nat) {
    match a.handler
    case Ignore => true
    case Default => sig == SIGCHLD || sig == SIGCONT || sig == SIGURG || sig == SIGWINCH
    case Handle(_) => false
  }

  /** A signal that is sent has an effect: it is blocked, and so waits, or its action is not to do nothing. */
  ghost predicate Heard(blocked: set<nat>, actions: map<nat, Action>, sig: nat) {
    sig in blocked || (sig in actions && !Shuns(actions[sig], sig))
  }

  /** A stop signal and SIGCONT cancel each other. */
  ghost predicate Opposite(x: nat, sig: nat) {
    (x == SIGCONT && SIGSTOP <= sig <= 22) || (sig == SIGCONT && SIGSTOP <= x <= 22)
  }

  /** The lowest signal of the set from n on. */
  function Lowest(s: set<nat>, n: nat): nat
    decreases SIG_MAX + 1 - n
  {
    if n > SIG_MAX || n in s then n else Lowest(s, n + 1)
  }

  /** The signal that get_signal takes. */
  function Chosen(s: Snap): nat {
    if SIGKILL in s.pending - s.blocked then SIGKILL else Lowest(s.pending - s.blocked, 1)
  }

  /** SA_RESETHAND. */
  function Reset(actions: map<nat, Action>, sig: nat): map<nat, Action>
    requires sig in actions
  {
    var a := actions[sig];
    if a.handler.Handle? && a.resetHand then actions[sig := a.(handler := Default)] else actions
  }

  predicate StopsTask(s: Snap, sig: nat)
    requires sig in s.actions
  {
    sig in STOPS && s.actions[sig].handler.Default?
  }

  /** The lock that the step needs is free: the signal lock is taken while a SIGCONT or SIGKILL is being sent, and the
      run queue's lock between the two halves of sched_stop. */
  predicate Can(s: Snap, e: Step) {
    match e
    case Resume => s.resuming && !s.stopping
    case Test => !s.stopping && s.state.Going?
    case Stop => s.stopping
    case Send(info, _) => !s.resuming && Valid31(info.signo) && info.signo in s.actions
    case Fault(fault) => !s.resuming && Valid31(fault.signo) && fault.signo in s.actions
    case Get => !s.resuming && (s.pending - s.blocked != {} ==> Chosen(s) in s.actions)
    case Deliver(action, signo) => !s.resuming && UNBLOCKABLE !! action.mask && signo !in UNBLOCKABLE
    case _ => !s.resuming
  }

  /** One step. A step whose lock is not free does not happen. */
  function Next(s: Snap, e: Step): Snap {
    if !Can(s, e) then s
    else
      match e
      case Send(info, _) =>
        var base := s.pending - Cancels(info.signo);
        var resume := info.signo == SIGCONT || info.signo == SIGKILL;
        s.(pending := if Posts(s, info.signo) then base + {info.signo} else base,
           stopPending := s.stopPending && !resume, resuming := resume)
      case Resume => s.(state := Going, resuming := false)
      case Get =>
        if s.pending - s.blocked == {} then s
        else
          var sig := Chosen(s);
          s.(pending := s.pending - {sig}, actions := Reset(s.actions, sig),
             stopPending := s.stopPending || StopsTask(s, sig))
      case Fault(fault) =>
        var sig := fault.signo;
        var fatal := sig in s.blocked || !s.actions[sig].handler.Handle?;
        s.(pending := s.pending - {sig}, actions := if fatal then s.actions else Reset(s.actions, sig),
           stopPending := s.stopPending || StopsTask(s, sig))
      case Test => s.(stopping := s.stopPending)
      case Stop => s.(stopPending := false, state := Stopped, stopping := false)
      case Deliver(action, signo) =>
        s.(blocked := s.blocked + action.mask + if action.noDefer then {} else {signo})
      case Act(sig, act) =>
        if !Valid31(sig) || act.None? || sig in UNBLOCKABLE then s
        else
          s.(actions := s.actions[sig := act.value.(mask := act.value.mask - UNBLOCKABLE)],
             pending := if IsIgnored(act.value, sig) then s.pending - {sig} else s.pending)
      case Mask(how, mask) =>
        s.(blocked := if how == 0 then s.blocked + (mask - UNBLOCKABLE)
                      else if how == 1 then s.blocked - mask
                      else if how == 2 then mask - UNBLOCKABLE else s.blocked)
      case Wait(mask) => s.(blocked := mask - UNBLOCKABLE)
      case Return(mask) => s.(blocked := mask - UNBLOCKABLE)
  }

  lemma CancelsOther(sig: nat)
    ensures sig !in Cancels(sig)
  {
  }

  /** What is pending after a signal was sent. */
  lemma SendSets(s: Snap, info: Info, memOk: bool)
    requires Can(s, Send(info, memOk))
    ensures var sig, r := info.signo, Next(s, Send(info, memOk));
      && (Heard(s.blocked, s.actions, sig) ==> sig in r.pending)
      && (!Heard(s.blocked, s.actions, sig) ==> (sig in r.pending <==> sig in s.pending))
      && (forall x :: x != sig ==> (x in r.pending <==> x in s.pending && !Opposite(x, sig)))
      && (forall x :: x != sig && x in r.pending ==> x !in Cancels(sig))
      && sig !in Cancels(sig)
      && (Posts(s, sig) <==> sig in r.pending && sig !in s.pending)
  {
  }

  /** After a whole run. */
  function After(s: Snap, es: seq<Step>): Snap
  {
    if es == [] then s else Next(After(s, es[..|es| - 1]), es[|es| - 1])
  }

  /** The step takes a stop signal whose action is the default, so that the task is about to stop. */
  predicate TakesStop(s: Snap, e: Step) {
    Can(s, e) &&
    ((e.Get? && s.pending - s.blocked != {} && StopsTask(s, Chosen(s))) || (e.Fault? && StopsTask(s, e.fault.signo)))
  }

  /** The step ends the sending of a SIGCONT or SIGKILL. */
  predicate Resumes(s: Snap, e: Step) {
    Can(s, e) && e.Resume?
  }

  /** Nothing is on its way to stop the task. */
  predicate Unstoppable(s: Snap) {
    !s.stopPending && !s.stopping && s.state.Going?
  }

  /** The sender has the signal lock and has cleared the intent to stop. */
  predicate Cleared(s: Snap) {
    s.resuming ==> !s.stopPending
  }

  lemma NextCleared(s: Snap, e: Step)
    requires Cleared(s)
    ensures Cleared(Next(s, e))
    ensures Resumes(s, e) ==> Unstoppable(Next(s, e))
    ensures Unstoppable(s) && !TakesStop(s, e) ==> Unstoppable(Next(s, e))
  {
  }

  lemma {:induction false} AfterCleared(s: Snap, es: seq<Step>)
    requires Cleared(s)
    ensures Cleared(After(s, es))
  {
    if es != [] {
      AfterCleared(s, es[..|es| - 1]);
      NextCleared(After(s, es[..|es| - 1]), es[|es| - 1]);
    }
  }

  /** Step i of the run resumes the task, and no later step takes a stop signal. */
  ghost predicate ResumedAt(s: Snap, es: seq<Step>, i: nat) {
    && i < |es| && Resumes(After(s, es[..i]), es[i])
    && forall j: nat :: i < j < |es| ==> !TakesStop(After(s, es[..j]), es[j])
  }

  /** Whatever races with what: if a SIGCONT or SIGKILL has gone through and no stop signal was taken since, the task is
      not stopped and nothing is on its way to stop it. A stop that was taken or even tested for before that is lost. */
  lemma {:induction false} ResumedStays(s: Snap, es: seq<Step>, i: nat)
    requires Cleared(s) && ResumedAt(s, es, i)
    ensures Unstoppable(After(s, es))
    decreases |es|
  {
    var n := |es| - 1;
    var fs := es[..n];
    AfterCleared(s, fs);
    NextCleared(After(s, fs), es[n]);
    if i < n {
      assert fs[..i] == es[..i] && forall j: nat :: j < n ==> fs[..j] == es[..j];
      ResumedStays(s, fs, i);
    }
  }

  /** The step takes the pending signal away: its opposite is sent, the user asks to ignore it, a fault raises it, or it
      is what get_signal takes. */
  ghost predicate TakesAway(s: Snap, e: Step, sig: nat) {
    && Can(s, e)
    && ((e.Send? && Opposite(sig, e.info.signo))
        || (e.Act? && e.sig == sig && e.act.Some? && Shuns(e.act.value, sig))
        || (e.Fault? && e.fault.signo == sig)
        || (e.Get? && sig in s.pending && sig !in Next(s, e).pending))
  }

  lemma PendingStays(s: Snap, e: Step, sig: nat)
    requires sig in s.pending && !TakesAway(s, e, sig)
    ensures sig in Next(s, e).pending
  {
    hide Lowest, Reset;
    if Can(s, e) && e.Send? { SendSets(s, e.info, e.memOk); }
  }

  /** From step i on, up to step j, nothing takes the signal away. */
  ghost predicate LeftAlone(s: Snap, es: seq<Step>, i: nat, j: nat, sig: nat)
    requires i <= j <= |es|
  {
    forall k: nat :: i <= k < j ==> !TakesAway(After(s, es[..k]), es[k], sig)
  }

  lemma {:induction false} WaitsUntil(s: Snap, es: seq<Step>, i: nat, j: nat, sig: nat)
    requires i <= j <= |es| && sig in After(s, es[..i]).pending && LeftAlone(s, es, i, j, sig)
    ensures sig in After(s, es[..j]).pending
    decreases j
  {
    if i < j {
      WaitsUntil(s, es, i, j - 1, sig);
      assert es[..j][..j - 1] == es[..j - 1];
      PendingStays(After(s, es[..j - 1]), es[j - 1], sig);
    }
  }

  /** What get_signal takes when sig is pending and not blocked: sig, SIGKILL, or a lower signal that is as ready. */
  ghost predicate Takes(s: Snap, r: Snap, x: nat, sig: nat) {
    && x in s.pending && x !in s.blocked && r.pending == s.pending - {x}
    && (x == sig || x == SIGKILL || x < sig)
    && (SIGKILL in s.pending && SIGKILL !in s.blocked ==> x == SIGKILL)
  }

  lemma {:induction false} LowestIs(p: set<nat>, n: nat, sig: nat)
    requires sig in p && n <= sig <= SIG_MAX
    ensures Lowest(p, n) in p && n <= Lowest(p, n) <= sig
    decreases sig - n
  {
    if n !in p { LowestIs(p, n + 1, sig); }
  }

  lemma GetTakes(s: Snap, sig: nat) returns (x: nat)
    requires Can(s, Get) && sig in s.pending && sig !in s.blocked && Valid31(sig)
    ensures Takes(s, Next(s, Get), x, sig)
  {
    LowestIs(s.pending - s.blocked, 1, sig);
    x := Chosen(s);
  }

  /** A signal that is sent and has an effect is not lost: unless something takes it away before, the next get_signal at
      which it is not blocked takes it, or SIGKILL, or a lower one that is ready too. */
  lemma {:induction false} SentIsTaken(s: Snap, es: seq<Step>, i: nat, j: nat) returns (x: nat)
    requires i < j < |es| && es[i].Send? && Can(After(s, es[..i]), es[i])
    requires Heard(After(s, es[..i]).blocked, After(s, es[..i]).actions, es[i].info.signo)
    requires es[j] == Get && Can(After(s, es[..j]), Get) && es[i].info.signo !in After(s, es[..j]).blocked
    requires LeftAlone(s, es, i + 1, j, es[i].info.signo)
    ensures Takes(After(s, es[..j]), After(s, es[..j + 1]), x, es[i].info.signo)
  {
    hide Takes, LeftAlone, Next, Can;
    assert es[..i + 1][..i] == es[..i] && es[..j + 1][..j] == es[..j];
    SentValid(After(s, es[..i]), es[i]);
    SendSets(After(s, es[..i]), es[i].info, es[i].memOk);
    WaitsUntil(s, es, i + 1, j, es[i].info.signo);
    x := GetTakes(After(s, es[..j]), es[i].info.signo);
  }

  lemma SentValid(s: Snap, e: Step)
    requires e.Send? && Can(s, e)
    ensures Valid31(e.info.signo)
  {
  }

  // ---------------------------------------------------------------------------------------------
  // The task
  // ---------------------------------------------------------------------------------------------

  /** Only signals are pending, and SIGCONT not together with a stop signal. */
  ghost predicate PendingOk(pending: set<nat>) {
    (forall x :: x in pending ==> Valid31(x)) && !(SIGCONT in pending && pending * STOPS != {})
  }

  /** Each signal has an action; none blocks SIGKILL or SIGSTOP, and those two have the default one. */
  ghost predicate ActionsOk(actions: map<nat, Action>) {
    && (forall x :: Valid31(x) <==> x in actions)
    && (forall x :: x in actions ==> UNBLOCKABLE !! actions[x].mask)
    && (forall x :: x in UNBLOCKABLE ==> actions[x].handler.Default?)
  }

  lemma PendingLess(p: set<nat>, q: set<nat>)
    requires PendingOk(p) && q <= p
    ensures PendingOk(q)
  {
  }

  lemma PendingMore(p: set<nat>, sig: nat)
    requires PendingOk(p) && Valid31(sig)
    ensures PendingOk(p - Cancels(sig)) && PendingOk(p - Cancels(sig) + {sig})
  {
  }

  lemma PendingValid(p: set<nat>, sig: nat)
    requires PendingOk(p) && sig in p
    ensures Valid31(sig)
  {
  }

  lemma ActionIn(actions: map<nat, Action>, sig: nat)
    requires ActionsOk(actions) && Valid31(sig)
    ensures sig in actions && UNBLOCKABLE !! actions[sig].mask && ActionsOk(Reset(actions, sig))
    ensures sig in UNBLOCKABLE ==> actions[sig].handler.Default?
  {
  }

  lemma ActionSet(actions: map<nat, Action>, sig: nat, a: Action)
    requires ActionsOk(actions) && Valid31(sig) && sig !in UNBLOCKABLE && UNBLOCKABLE !! a.mask
    ensures ActionsOk(actions[sig := a])
  {
  }

  class Task {
    var pending: set<nat>
    var queue: seq<Info>
    var blocked: set<nat>
    var actions: map<nat, Action>
    /** TF_SIGPENDING, TF_STOPPENDING, TF_SIGSUSPEND. */
    var sigPending: bool
    var stopPending: bool
    var suspended: bool
    var savedMask: set<nat>
    var state: RunState
    /** sched_stop has seen the intent to stop and holds the run queue's lock. */
    var stopping: bool
    /** A SIGCONT or SIGKILL is being sent, and its sender holds the signal lock. */
    var resuming: bool

    ghost predicate Valid()
      reads this
    {
      && PendingOk(pending) && ActionsOk(actions) && OneEach(queue, pending)
      && UNBLOCKABLE !! blocked && UNBLOCKABLE !! savedMask
      && (sigPending <==> pending - blocked != {})
      && (resuming ==> !stopPending)
      && (stopping ==> state.Going?)
    }

    constructor ()
      ensures Valid() && !resuming && !stopping && pending == {} && blocked == {}
    {
      pending, queue, blocked, savedMask := {}, [], {}, {};
      actions := map x: nat | 1 <= x <= SIG_MAX && Valid31(x) :: Action(Default, {}, false, false);
      sigPending, stopPending, suspended, stopping, resuming := false, false, false, false, false;
      state := Going;
    }

    /** What the steps of a run are about. */
    ghost function View(): (v: Snap)
      reads this
    {
      Snap(pending, blocked, actions, stopPending, state, stopping, resuming)
    }

    /** flush_signals_locked. */
    method Flush(mask: set<nat>)
      requires Valid()
      modifies this`queue, this`pending
      ensures queue == Keep(old(queue), mask) && pending == old(pending) - mask && OneEach(queue, pending)
    {
      hide PendingOk, ActionsOk;
      KeepFacts(queue, mask);
      queue := FlushQueue(queue, mask);
      pending := pending - mask;
    }

    method FlushFor(sig: nat)
      requires Valid()
      modifies this`queue, this`pending
      ensures pending == old(pending) - Cancels(sig) && OneEach(queue, pending)
      ensures queue == Keep(old(queue), Cancels(sig))
    {
      if sig in STOPS {
        Flush({SIGCONT});
      } else if sig == SIGCONT {
        Flush(STOPS);
      } else {
        KeepAll(queue);
      }
    }

    /** recalc_sigpending. */
    method Recalc()
      modifies this`sigPending
      ensures sigPending <==> pending - blocked != {}
    {
      sigPending := pending - blocked != {};
    }

    /** send_signal up to recalc_sigpending. The signal becomes pending unless it already is, or is ignored and not
        blocked; without memory for a queue entry it is pending all the same. The queue loses the entries of the signals
        that are cancelled, and gains one at its end. */
    method SendBegin(info: Info, memOk: bool)
      requires Valid() && !resuming && Valid31(info.signo)
      modifies this
      ensures Valid() && (resuming <==> info.signo == SIGCONT || info.signo == SIGKILL)
      ensures View() == Next(old(View()), Send(info, memOk))
      ensures Heard(blocked, actions, info.signo) ==> info.signo in pending
      ensures !Heard(blocked, actions, info.signo) ==> (info.signo in pending <==> info.signo in old(pending))
      ensures forall x :: x != info.signo ==> (x in pending <==> x in old(pending) && !Opposite(x, info.signo))
      ensures forall x :: x in old(queue) && x.signo in pending ==> x in queue
      ensures queue == Keep(old(queue), Cancels(info.signo))
                       + if info.signo in pending && info.signo !in old(pending) && memOk then [info] else []
      ensures stopPending == (old(stopPending) && info.signo != SIGCONT && info.signo != SIGKILL)
      ensures blocked == old(blocked) && actions == old(actions) && state == old(state) && stopping == old(stopping)
      ensures suspended == old(suspended) && savedMask == old(savedMask)
    {
      hide OneEach, Keep, PendingOk, ActionsOk, Heard, Opposite, Cancels, Next, Posts;
      KeepOthers(queue, pending, info.signo);
      ActionIn(actions, info.signo);
      SendSets(View(), info, memOk);
      Enter(info, memOk);
    }

    /** The critical section of send_signal. */
    method Enter(info: Info, memOk: bool)
      requires Valid() && !resuming && Valid31(info.signo) && info.signo in actions
      modifies this
      ensures Valid() && (resuming <==> info.signo == SIGCONT || info.signo == SIGKILL)
      ensures View() == Next(old(View()), Send(info, memOk))
      ensures queue == Keep(old(queue), Cancels(info.signo))
                       + if Posts(old(View()), info.signo) && memOk then [info] else []
      ensures stopPending == (old(stopPending) && info.signo != SIGCONT && info.signo != SIGKILL)
      ensures blocked == old(blocked) && actions == old(actions) && state == old(state) && stopping == old(stopping)
      ensures suspended == old(suspended) && savedMask == old(savedMask)
    {
      hide OneEach, Keep, PendingOk, ActionsOk, Cancels;
      var sig := info.signo;
      CancelsOther(sig);
      PendingMore(pending, sig);
      FlushFor(sig);
      if sig == SIGCONT || sig == SIGKILL {
        stopPending := false;
        resuming := true;
      }
      if sig !in pending && (sig in blocked || !IsIgnored(actions[sig], sig)) {
        Post(info, memOk);
      }
      Recalc();
    }

    /** The signal becomes pending, with a queue entry if there is memory for one. */
    method Post(info: Info, memOk: bool)
      requires OneEach(queue, pending) && info.signo !in pending
      modifies this`queue, this`pending
      ensures OneEach(queue, pending) && pending == old(pending) + {info.signo}
      ensures queue == if memOk then old(queue) + [info] else old(queue)
    {
      if memOk {
        AppendOne(queue, pending, info);
        queue := queue + [info];
      } else {
        MorePending(queue, pending, info.signo);
      }
      pending := pending + {info.signo};
    }

    /** send_signal of SIGCONT or SIGKILL: sched_resume, which takes the run queue's lock. After it the task is not
        stopped, and nothing that went before can still stop it. */
    method SendFinish()
      requires Valid() && resuming && !stopping
      modifies this`state, this`resuming
      ensures Valid() && !resuming && state.Going? && !stopPending && View() == Next(old(View()), Resume)
    {
      hide OneEach, PendingOk, ActionsOk;
      state := Going;
      resuming := false;
    }

    /** dequeue_signal_locked. */
    method Dequeue(sig: nat) returns (info: Info)
      requires Valid() && sig in pending
      modifies this`queue, this`pending
      ensures pending == old(pending) - {sig} && OneEach(queue, pending) && info.signo == sig
      ensures forall x :: x in queue <==> x in old(queue) && x.signo != sig
      ensures info in old(queue) || (info == Info(sig, 0) && forall x :: x in old(queue) ==> x.signo != sig)
    {
      hide PendingOk, ActionsOk;
      TakeFacts(queue, sig, pending);
      pending := pending - {sig};
      var found;
      queue, found := TakeQueue(queue, sig);
      info := if found.Some? then found.value else Info(sig, 0);
    }

    /** What get_signal decides under the lock for the signal it took. */
    method TakeAction(sig: nat) returns (action: Action, oldMask: set<nat>)
      requires Valid31(sig) && sig in actions
      modifies this`actions, this`stopPending
      ensures action == old(actions)[sig] && oldMask == if suspended then savedMask else blocked
      ensures actions == Reset(old(actions), sig)
      ensures actions == old(actions)[sig := if action.handler.Handle? && action.resetHand
                                             then action.(handler := Default) else action]
      ensures stopPending == (old(stopPending) || (action.handler.Default? && sig in STOPS))
    {
      action := actions[sig];
      oldMask := if suspended then savedMask else blocked;
      if action.handler.Handle? && action.resetHand {
        actions := actions[sig := action.(handler := Default)];
      }
      if action.handler.Default? && sig in STOPS {
        stopPending := true;
      }
    }

    /** The critical section of get_signal: takes a signal that is pending and not blocked, SIGKILL before all others
        and otherwise the lowest; none only if there is none. */
    method GetSignal() returns (sig: Option<nat>, info: Info, action: Action, oldMask: set<nat>)
      requires Valid() && !resuming
      modifies this
      ensures Valid() && !resuming && stopping == old(stopping) && state == old(state) && blocked == old(blocked)
      ensures suspended == old(suspended) && savedMask == old(savedMask)
      ensures sig.None? <==> old(pending) - blocked == {}
      ensures sig.Some? ==> sig.value in old(pending) - blocked && pending == old(pending) - {sig.value}
      ensures sig.Some? ==> sig.value == SIGKILL
                            || (SIGKILL !in old(pending) && forall x :: x in old(pending) - blocked ==> sig.value <= x)
      ensures sig.Some? && sig.value in UNBLOCKABLE ==> action.handler.Default?
      ensures sig.Some? ==> UNBLOCKABLE !! action.mask && info.signo == sig.value
      ensures sig.None? ==> pending == old(pending) && queue == old(queue) && stopPending == old(stopPending)
      ensures sig.Some? ==> action == old(actions)[sig.value] && oldMask == if suspended then savedMask else blocked
      ensures sig.Some? ==>
                actions == old(actions)[sig.value := if action.handler.Handle? && action.resetHand
                                                     then action.(handler := Default) else action]
      ensures sig.Some? ==> stopPending == (old(stopPending) || (action.handler.Default? && SIGSTOP <= sig.value <= 22))
      ensures sig.Some? ==> info in old(queue)
                            || (info == Info(sig.value, 0) && forall x :: x in old(queue) ==> x.signo != sig.value)
      ensures sig.Some? ==> forall x :: x in queue <==> x in old(queue) && x.signo != sig.value
      ensures sig.None? ==> actions == old(actions)
      ensures View() == Next(old(View()), Get)
    {
      hide OneEach, Lowest, PendingOk, ActionsOk, Reset;
      var ready := pending - blocked;
      info, action, oldMask := Info(0, 0), Action(Default, {}, false, false), {};
      if ready == {} {
        return None, info, action, oldMask;
      }
      forall x | x in ready
        ensures Valid31(x)
      {
        PendingValid(pending, x);
      }
      var s := SIGKILL;
      if SIGKILL !in ready {
        s := FirstSignal(ready);
      }
      ActionIn(actions, s);
      PendingLess(pending, pending - {s});
      info := Dequeue(s);
      action, oldMask := TakeAction(s);
      Recalc();
      return Some(s), info, action, oldMask;
    }

    /** The critical section of get_signal for a fault: the signal of the fault, with the queued information if it is
        pending too. */
    method GetFault(fault: Info) returns (info: Info, action: Action, oldMask: set<nat>, fatal: bool)
      requires Valid() && !resuming && Valid31(fault.signo)
      modifies this
      ensures Valid() && !resuming && stopping == old(stopping) && state == old(state) && blocked == old(blocked)
      ensures pending == old(pending) - {fault.signo} && info.signo == fault.signo
      ensures fatal <==> fault.signo in blocked || !action.handler.Handle?
      ensures fault.signo in UNBLOCKABLE ==> fatal
      ensures action == old(actions)[fault.signo] && View() == Next(old(View()), Fault(fault))
      ensures actions == old(actions)[fault.signo := if !fatal && action.resetHand then action.(handler := Default)
                                                     else action]
      ensures stopPending == (old(stopPending) || (action.handler.Default? && SIGSTOP <= fault.signo <= 22))
      ensures fault.signo !in old(pending) ==> info == fault && queue == old(queue)
      ensures fault.signo in old(pending) ==>
                || info in old(queue)
                || (info == Info(fault.signo, 0) && forall x :: x in old(queue) ==> x.signo != fault.signo)
      ensures UNBLOCKABLE !! action.mask
    {
      hide OneEach, PendingOk, ActionsOk;
      ActionIn(actions, fault.signo);
      PendingLess(pending, pending - {fault.signo});
      info := fault;
      if fault.signo in pending {
        info := Dequeue(fault.signo);
      }
      fatal := fault.signo in blocked || !actions[fault.signo].handler.Handle?;
      if fatal {
        var a := actions[fault.signo];
        action, oldMask := a, if suspended then savedMask else blocked;
        if a.handler.Default? && fault.signo in STOPS {
          stopPending := true;
        }
      } else {
        action, oldMask := TakeAction(fault.signo);
      }
      Recalc();
    }

    /** sched_stop: tests the intent to stop with the run queue's lock held. */
    method StopTest()
      requires Valid() && !stopping && state.Going?
      modifies this`stopping
      ensures Valid() && stopping == stopPending && View() == Next(old(View()), Test)
    {
      hide OneEach, PendingOk, ActionsOk;
      stopping := stopPending;
    }

    /** sched_stop: stops. The intent may have been cleared since the test, but then the resume is still to come. */
    method StopSet()
      requires Valid() && stopping
      modifies this`stopping, this`stopPending, this`state
      ensures Valid() && !stopping && state.Stopped? && !stopPending && View() == Next(old(View()), Stop)
    {
      hide OneEach, PendingOk, ActionsOk;
      stopPending := false;
      state := Stopped;
      stopping := false;
    }

    /** signal_delivered: blocks what the action asks for, and the signal itself. */
    method Delivered(action: Action, signo: nat)
      requires Valid() && !resuming && UNBLOCKABLE !! action.mask && signo !in UNBLOCKABLE
      modifies this`suspended, this`blocked, this`sigPending
      ensures Valid() && !suspended && View() == Next(old(View()), Deliver(action, signo))
      ensures blocked == old(blocked) + action.mask + if action.noDefer then {} else {signo}
    {
      hide OneEach, PendingOk, ActionsOk;
      suspended := false;
      blocked := blocked + action.mask;
      if !action.noDefer {
        blocked := blocked + {signo};
      }
      Recalc();
    }

    /** sys_rt_sigaction. */
    method SetAction(sig: nat, act: Option<Action>) returns (r: Result<Action>)
      requires Valid() && !resuming
      modifies this`actions, this`queue, this`pending, this`sigPending
      ensures Valid() && View() == Next(old(View()), Act(sig, act))
      ensures r == Err(EINVAL) <==> !Valid31(sig) || (act.Some? && sig in UNBLOCKABLE)
      ensures r.Err? || act.None? ==> actions == old(actions) && pending == old(pending) && queue == old(queue)
      ensures r.Ok? ==> r.value == old(actions)[sig]
      ensures r.Ok? && act.Some? ==>
                actions == old(actions)[sig := act.value.(mask := act.value.mask - UNBLOCKABLE)]
                && pending == if Shuns(act.value, sig) then old(pending) - {sig} else old(pending)
    {
      hide OneEach, PendingOk, ActionsOk, Keep;
      if sig == 0 || sig > SIG_MAX {
        return Err(EINVAL);
      }
      ActionIn(actions, sig);
      if act.Some? && (sig == SIGKILL || sig == SIGSTOP) {
        return Err(EINVAL);
      }
      r := Ok(actions[sig]);
      if act.Some? {
        var new_ := act.value.(mask := act.value.mask - UNBLOCKABLE);
        ActionSet(actions, sig, new_);
        PendingLess(pending, pending - {sig});
        if IsIgnored(new_, sig) {
          Flush({sig});
        }
        actions := actions[sig := new_];
        Recalc();
      }
    }

    /** sys_rt_sigprocmask: 0 blocks, 1 unblocks, 2 sets. */
    method ProcMask(how: nat, mask: set<nat>) returns (r: Result<set<nat>>)
      requires Valid() && !resuming
      modifies this`blocked, this`sigPending
      ensures Valid() && View() == Next(old(View()), Mask(how, mask))
      ensures r == if how <= 2 then Ok(old(blocked)) else Err(EINVAL)
      ensures blocked == if how == 0 then old(blocked) + (mask - UNBLOCKABLE)
                         else if how == 1 then old(blocked) - mask
                         else if how == 2 then mask - UNBLOCKABLE else old(blocked)
    {
      hide OneEach, PendingOk, ActionsOk;
      var old_ := blocked;
      var new_ := mask - UNBLOCKABLE;
      if how == 0 {
        blocked := blocked + new_;
      } else if how == 1 {
        assert blocked - new_ == blocked - mask;
        blocked := blocked - new_;
      } else if how == 2 {
        blocked := new_;
      } else {
        return Err(EINVAL);
      }
      Recalc();
      return Ok(old_);
    }

    /** sys_rt_sigsuspend before it sleeps. */
    method Suspend(mask: set<nat>)
      requires Valid() && !resuming
      modifies this`blocked, this`savedMask, this`suspended, this`sigPending
      ensures Valid() && suspended && savedMask == old(blocked) && blocked == mask - UNBLOCKABLE
      ensures View() == Next(old(View()), Wait(mask))
    {
      hide OneEach, PendingOk, ActionsOk;
      savedMask := blocked;
      blocked := mask - UNBLOCKABLE;
      suspended := true;
      Recalc();
    }

    /** The return from a handler restores a mask that the user could change. */
    method Restore(mask: set<nat>)
      requires Valid() && !resuming
      modifies this`blocked, this`sigPending
      ensures Valid() && blocked == mask - UNBLOCKABLE && View() == Next(old(View()), Return(mask))
    {
      hide OneEach, PendingOk, ActionsOk;
      blocked := mask - UNBLOCKABLE;
      Recalc();
    }
  }

  /** What is not cancelled keeps its entry. */
  lemma KeepOthers(q: seq<Info>, pending: set<nat>, sig: nat)
    requires OneEach(q, pending)
    ensures forall x :: x in q && x.signo !in Cancels(sig) ==> x in Keep(q, Cancels(sig))
  {
    KeepFacts(q, Cancels(sig));
  }

  lemma AppendOne(q: seq<Info>, pending: set<nat>, info: Info)
    requires OneEach(q, pending) && info.signo !in pending
    ensures OneEach(q + [info], pending + {info.signo})
  {
  }

  lemma MorePending(q: seq<Info>, pending: set<nat>, sig: nat)
    requires OneEach(q, pending)
    ensures OneEach(q, pending + {sig})
  {
  }

  // ---------------------------------------------------------------------------------------------
  // Whole runs
  // ---------------------------------------------------------------------------------------------

  /** Takes steps in any order; one whose lock is not free is passed over. In every run the pending flag is right,
      SIGKILL and SIGSTOP are never blocked, SIGCONT is never pending together with a stop signal, and there is at most
      one queue entry for each pending signal; and a SIGCONT or SIGKILL that went through after the last stop signal was
      taken leaves the task running, however it raced with the stop. */
  method Run(t: Task, steps: seq<Step>)
    requires t.Valid()
    modifies t
    ensures t.Valid() && t.View() == After(old(t.View()), steps)
    ensures (t.sigPending <==> t.pending - t.blocked != {}) && OneEach(t.queue, t.pending)
    ensures SIGKILL !in t.blocked && SIGSTOP !in t.blocked
    ensures SIGCONT in t.pending ==> t.pending * STOPS == {}
    ensures (exists i: nat :: ResumedAt(old(t.View()), steps, i)) ==> t.state.Going? && !t.stopPending && !t.stopping
  {
    hide ResumedAt, Next;
    ghost var s := t.View();
    for i := 0 to |steps|
      invariant t.Valid() && t.View() == After(s, steps[..i])
    {
      assert steps[..i + 1][..i] == steps[..i];
      One(t, steps[i]);
    }
    assert steps[..|steps|] == steps;
    assert SIGKILL in UNBLOCKABLE && SIGSTOP in UNBLOCKABLE;
    if i: nat :| ResumedAt(s, steps, i) {
      ResumedStays(s, steps, i);
    }
  }

  /** One step of a run. */
  method One(t: Task, step: Step)
    requires t.Valid()
    modifies t
    ensures t.Valid() && t.View() == Next(old(t.View()), step)
  {
    match step {
      case Resume =>
        if t.resuming && !t.stopping {
          t.SendFinish();
        }
      case Test =>
        if !t.stopping && t.state.Going? {
          t.StopTest();
        }
      case Stop =>
        if t.stopping {
          t.StopSet();
        }
      case _ =>
        if !t.resuming {
          Locked(t, step);
        }
    }
  }

  /** A step of one who gets the signal lock. */
  method Locked(t: Task, step: Step)
    requires t.Valid() && !t.resuming && !step.Resume? && !step.Test? && !step.Stop?
    modifies t
    ensures t.Valid() && t.View() == Next(old(t.View()), step)
  {
    hide OneEach, PendingOk;
    match step {
      case Send(info, memOk) =>
        if Valid31(info.signo) {
          t.SendBegin(info, memOk);
        }
      case Get => var sig, info, action, oldMask := t.GetSignal();
      case Fault(fault) =>
        if Valid31(fault.signo) {
          var info, action, oldMask, fatal := t.GetFault(fault);
        }
      case Deliver(action, signo) =>
        if UNBLOCKABLE !! action.mask && signo !in UNBLOCKABLE {
          t.Delivered(action, signo);
        }
      case Act(sig, act) => var r := t.SetAction(sig, act);
      case Mask(how, mask) => var r := t.ProcMask(how, mask);
      case Wait(mask) => t.Suspend(mask);
      case Return(mask) => t.Restore(mask);
      case _ =>
    }
  }

  lemma {:induction false} KeepAll(q: seq<Info>)
    ensures Keep(q, {}) == q
  {
    if q != [] { KeepAll(q[1..]); }
  }
}
