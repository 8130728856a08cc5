/** One timer as a value: what each call and each tick does to it, and what no
    sequence of them can do. */
module TimerLife {
  import opened Wrappers

  /** The task waiting on a timer.  The source's `_waiting` flag and `_waiter`
      future change together, so one value stands for both; a future that is
      done stays in place until its task takes it up. */
  datatype Waiter = NoWaiter | Parked | Woken | ToldCancelled | ToldClosed | Abandoned

  datatype TimerState = TimerState(
    deadline: int,
    generation: nat,
    active: bool,
    cancelled: bool,
    closed: bool,
    waiter: Waiter,
    expiredGeneration: Option<nat>,
    expiryConsumed: bool)

  function Fresh(deadline: int): TimerState {
    TimerState(deadline, 1, true, false, false, NoWaiter, None, false)
  }

  /** A future is completed once: one already done keeps its outcome. */
  function Complete(waiter: Waiter, outcome: Waiter): Waiter {
    if waiter == Parked then outcome else waiter
  }

  function Expire(s: TimerState, generation: nat): TimerState {
    if !s.active || generation != s.generation then s
    else s.(active := false, expiredGeneration := Some(generation), waiter := Complete(s.waiter, Woken))
  }

  function Cancel(s: TimerState): TimerState {
    if s.cancelled || s.closed then s
    else s.(active := false, cancelled := true, waiter := Complete(s.waiter, ToldCancelled))
  }

  function Close(s: TimerState): TimerState {
    s.(active := false, closed := true, waiter := Complete(s.waiter, ToldClosed))
  }

  /** A reset of an active timer to a new deadline. */
  function Rearm(s: TimerState, deadline: int): TimerState {
    s.(generation := s.generation + 1, deadline := deadline, expiredGeneration := None, expiryConsumed := false)
  }

  /** The clock reaching `tick`. */
  function Reach(s: TimerState, tick: int): TimerState {
    if s.active && s.deadline <= tick then Expire(s, s.generation) else s
  }

  datatype WaitStart = AlreadyWaited | WheelClosed | TimerCancelled | AlreadyConsumed | Ready | Suspended

  function BeginWait(s: TimerState): (TimerState, WaitStart) {
    if s.waiter != NoWaiter then (s, AlreadyWaited)
    else if s.closed then (s, WheelClosed)
    else if s.cancelled then (s, TimerCancelled)
    else if s.expiredGeneration.Some? then
      if s.expiryConsumed then (s, AlreadyConsumed) else (s.(expiryConsumed := true), Ready)
    else (s.(waiter := Parked), Suspended)
  }

  /** The waiting task is cancelled: its future is done at once, and the task
      runs on later. */
  function Abandon(s: TimerState): TimerState {
    s.(waiter := Complete(s.waiter, Abandoned))
  }

  /** The waiting task runs on once its future is done.  `interrupted` says that
      a cancellation caught it after its future was completed. */
  function EndWait(s: TimerState, interrupted: bool): TimerState {
    if s.waiter == NoWaiter || s.waiter == Parked then s
    else if s.waiter == Woken && !interrupted then s.(expiryConsumed := true, waiter := NoWaiter)
    else if s.active then Cancel(s).(waiter := NoWaiter)
    else s.(waiter := NoWaiter)
  }

  /** What holds of every timer at every moment: it is armed or has met exactly
      one end, and a task still parked on it has an end to come. */
  predicate Sound(s: TimerState) {
    && (s.active ==> !s.cancelled && !s.closed && s.expiredGeneration.None?)
    && (!s.active ==> s.cancelled || s.closed || s.expiredGeneration.Some?)
    && (s.closed ==> !s.cancelled && s.expiredGeneration.None?)
    && (s.expiredGeneration.Some? ==> s.expiredGeneration.value == s.generation)
    && (s.expiryConsumed ==> s.expiredGeneration.Some?)
    && (s.waiter == Parked ==> s.active)
    && (s.waiter == Woken ==> s.expiredGeneration.Some?)
    && (s.waiter == ToldCancelled ==> s.cancelled)
    && (s.waiter == ToldClosed ==> s.closed)
  }

  /** Everything that can happen to one timer.  Closing reaches only timers the
      wheel still holds, and a reset only an active one. */
  datatype Happening =
    | Reached(tick: int)
    | Cancelled
    | ClosedDown
    | Reset(deadline: int)
    | WaitBegun
    | WaitAbandoned
    | WaitEnded(interrupted: bool)

  function Happen(s: TimerState, h: Happening): TimerState {
    match h
    case Reached(tick) => Reach(s, tick)
    case Cancelled => Cancel(s)
    case ClosedDown => if s.active then Close(s) else s
    case Reset(deadline) => if s.active then Rearm(s, deadline) else s
    case WaitBegun => BeginWait(s).0
    case WaitAbandoned => Abandon(s)
    case WaitEnded(interrupted) => EndWait(s, interrupted)
  }

  function Live(s: TimerState, run: seq<Happening>): TimerState
    decreases |run|
  {
    if run == [] then s else Live(Happen(s, run[0]), run[1..])
  }

  /** How many times a run makes the timer expire. */
  function Expiries(s: TimerState, run: seq<Happening>): nat
    decreases |run|
  {
    if run == [] then 0
    else
      var next := Happen(s, run[0]);
      (if s.active && next.expiredGeneration.Some? then 1 else 0) + Expiries(next, run[1..])
  }

  lemma HappenKeepsSound(s: TimerState, h: Happening)
    requires Sound(s)
    ensures Sound(Happen(s, h))
    ensures !s.active ==> !Happen(s, h).active && Happen(s, h).expiredGeneration == s.expiredGeneration
  {
  }

  lemma ReachKeepsSound(tick: int)
    ensures forall s {:trigger Reach(s, tick)} :: Sound(s) ==> Sound(Reach(s, tick))
  {
  }

  lemma ReachTwice(a: int, b: int)
    requires a <= b
    ensures forall s {:trigger Reach(Reach(s, a), b)} :: Reach(Reach(s, a), b) == Reach(s, b)
  {
  }

  /** Over any run a timer expires at most once, and exactly once when it ends
      expired; one that was cancelled or closed first never does. */
  lemma {:induction false} ExpiresAtMostOnce(s: TimerState, run: seq<Happening>)
    requires Sound(s)
    ensures Sound(Live(s, run))
    ensures Expiries(s, run) == if s.active && Live(s, run).expiredGeneration.Some? then 1 else 0
    ensures !s.active ==> !Live(s, run).active && Live(s, run).expiredGeneration == s.expiredGeneration
    decreases |run|
  {
    if run != [] {
      HappenKeepsSound(s, run[0]);
      ExpiresAtMostOnce(Happen(s, run[0]), run[1..]);
    }
  }

  /** A timer that can no longer expire leaves nobody parked on it, whatever
      happens to it and to its waiter in any order. */
  lemma NobodyWaitsForNothing(deadline: int, run: seq<Happening>)
    ensures var s := Live(Fresh(deadline), run);
            s.waiter == Parked ==> s.active && s.expiredGeneration.None? && !s.cancelled && !s.closed
  {
    ExpiresAtMostOnce(Fresh(deadline), run);
  }

  /** An expiry is handed to a waiter at most once: after it was consumed no
      wait succeeds again. */
  lemma {:induction false} ConsumedOnce(s: TimerState, run: seq<Happening>)
    requires Sound(s) && s.expiryConsumed && s.waiter == NoWaiter
    ensures var t := Live(s, run);
            t.expiryConsumed && t.waiter == NoWaiter && BeginWait(t).1 in {AlreadyConsumed, TimerCancelled}
    decreases |run|
  {
    if run != [] {
      HappenKeepsSound(s, run[0]);
      ConsumedOnce(Happen(s, run[0]), run[1..]);
    }
  }

  // ---- how a wait ends ----

  /** What ends the wait of a parked task: the first thing to come of an expiry, a cancel,
      a close and the task's own cancellation, the deadline moving with each reset. */
  function FirstEnd(deadline: int, run: seq<Happening>): Waiter
    decreases |run|
  {
    if run == [] then Parked
    else match run[0]
      case Reached(tick) => if deadline <= tick then Woken else FirstEnd(deadline, run[1..])
      case Cancelled => ToldCancelled
      case ClosedDown => ToldClosed
      case WaitAbandoned => Abandoned
      case Reset(later) => FirstEnd(later, run[1..])
      case _ => FirstEnd(deadline, run[1..])
  }

  lemma {:induction false} OutcomeStays(s: TimerState, run: seq<Happening>)
    requires s.waiter != NoWaiter && s.waiter != Parked && forall i :: 0 <= i < |run| ==> !run[i].WaitEnded?
    ensures Live(s, run).waiter == s.waiter
    decreases |run|
  {
    if run != [] {
      OutcomeStays(Happen(s, run[0]), run[1..]);
    }
  }

  /** Over every run, a parked task is told of exactly that. */
  lemma {:induction false} ToldOfTheFirst(s: TimerState, run: seq<Happening>)
    requires Sound(s) && s.waiter == Parked && forall i :: 0 <= i < |run| ==> !run[i].WaitEnded?
    ensures Live(s, run).waiter == FirstEnd(s.deadline, run)
    decreases |run|
  {
    if run != [] {
      var next := Happen(s, run[0]);
      HappenKeepsSound(s, run[0]);
      if next.waiter == Parked {
        ToldOfTheFirst(next, run[1..]);
      } else {
        OutcomeStays(next, run[1..]);
      }
    }
  }

  /** A timer that was cancelled stays so, and turns every wait away. */
  lemma {:induction false} CancelledForGood(s: TimerState, run: seq<Happening>)
    requires Sound(s) && s.cancelled && s.waiter == NoWaiter
    ensures var t := Live(s, run);
            && t.cancelled && !t.active && t.waiter == NoWaiter && t.expiredGeneration == s.expiredGeneration
            && BeginWait(t).1 == TimerCancelled
    decreases |run|
  {
    if run != [] {
      HappenKeepsSound(s, run[0]);
      CancelledForGood(Happen(s, run[0]), run[1..]);
    }
  }

  /** A task that runs on after its wait was woken has taken the expiry, and no wait takes
      it again. */
  lemma WokenTakesTheExpiry(s: TimerState, after: seq<Happening>)
    requires Sound(s) && s.waiter == Woken
    ensures var t := Happen(s, WaitEnded(false));
            && t.expiryConsumed && t.waiter == NoWaiter
            && BeginWait(Live(t, after)).1 in {AlreadyConsumed, TimerCancelled}
            && BeginWait(t).1 == if s.cancelled then TimerCancelled else AlreadyConsumed
  {
    HappenKeepsSound(s, WaitEnded(false));
    ConsumedOnce(Happen(s, WaitEnded(false)), after);
  }

  /** A task cancelled while it waits cancels a timer that is still armed: it never
      expires, and every wait after that is turned away. */
  lemma AbandonedIsCancelled(s: TimerState, interrupted: bool, after: seq<Happening>)
    requires Sound(s) && s.waiter == Abandoned && s.active
    ensures var t := Happen(s, WaitEnded(interrupted));
            && t.cancelled && !t.active && t.waiter == NoWaiter
            && Live(t, after).expiredGeneration == None && BeginWait(Live(t, after)).1 == TimerCancelled
  {
    HappenKeepsSound(s, WaitEnded(interrupted));
    CancelledForGood(Happen(s, WaitEnded(interrupted)), after);
  }

  /** A task that is cancelled once the timer has met its end changes nothing of it: an
      expiry is left for another wait. */
  lemma InterruptedLeavesTheExpiry(s: TimerState)
    requires Sound(s) && !s.active && s.waiter != NoWaiter
    ensures s.waiter == Woken || s.waiter == ToldCancelled || s.waiter == ToldClosed || s.waiter == Abandoned
    ensures Happen(s, WaitEnded(true)) == s.(waiter := NoWaiter)
    ensures s.expiredGeneration.Some? && !s.cancelled && !s.expiryConsumed ==>
              BeginWait(Happen(s, WaitEnded(true))).1 == Ready
  {
  }

  /** A timer expires when the clock reaches its deadline and no sooner, a reset giving it
      a new one; the expiry is there for a wait that comes later, once. */
  lemma ExpiresAtDeadline(s: TimerState, deadline: int, tick: int)
    requires Sound(s) && s.active
    ensures var t := Happen(Happen(s, Reset(deadline)), Reached(tick));
            && t.active == (tick < deadline) && t.generation == s.generation + 1
            && t.expiredGeneration == (if tick < deadline then None else Some(s.generation + 1))
    ensures var t := Happen(s, Reached(tick));
            && t.active == (tick < s.deadline) && (t.active ==> t == s)
            && (!t.active ==> t.expiredGeneration == Some(s.generation) && !t.cancelled && !t.closed)
            && (!t.active && s.waiter == NoWaiter ==>
                  BeginWait(t).1 == Ready && BeginWait(BeginWait(t).0).1 == AlreadyConsumed)
  {
  }

  /** An armed timer lets a task wait, one at a time; a cancel and a close end it, and
      tell every wait that comes later. */
  lemma EndsAtOnce(s: TimerState)
    requires Sound(s) && s.active && s.waiter == NoWaiter
    ensures BeginWait(s) == (Happen(s, WaitBegun), Suspended) && Happen(s, WaitBegun).waiter == Parked
    ensures BeginWait(Happen(s, WaitBegun)).1 == AlreadyWaited
    ensures var t := Happen(s, Cancelled); t.cancelled && !t.active && BeginWait(t).1 == TimerCancelled
    ensures var t := Happen(s, ClosedDown); t.closed && !t.active && BeginWait(t).1 == WheelClosed
  {
  }
}
