/** What the timing wheel promises, with no wheel in it: a map from the id of
    each armed timer to its deadline, and a clock. */
module TimerPlan {
  import opened Wrappers
  import opened WheelLayout

  const TICK_MS: int := 10

  datatype Due = Due(deadline: int, generation: nat)

  datatype Plan = Plan(now: int, due: map<nat, Due>)

  function Later(a: int, b: int): int {
    if a < b then b else a
  }

  /** The timers still ahead of `tick`. */
  function Ahead(due: map<nat, Due>, tick: int): map<nat, Due> {
    map id | id in due && tick < due[id].deadline :: due[id]
  }

  /** The clock moves on to `tick`, if that is later, and takes what is due. */
  function Advance(p: Plan, tick: int): Plan {
    var now := Later(p.now, tick);
    Plan(now, Ahead(p.due, now))
  }

  function Arm(p: Plan, id: nat, due: Due): Plan {
    p.(due := p.due[id := due])
  }

  function Disarm(p: Plan, id: nat): Plan {
    p.(due := p.due - {id})
  }

  // ---- delays ----

  datatype DelayError = Negative | BeyondHorizon
  datatype Delay = Ticks(ticks: int) | Rejected(error: DelayError)

  /** A delay in milliseconds, rounded up to whole ticks, at least one. */
  function DelayTicks(delayMs: int): Delay {
    if delayMs < 0 then Rejected(Negative)
    else
      var up := (delayMs + TICK_MS - 1) / TICK_MS;
      var ticks := if up < 1 then 1 else up;
      if ticks > MAX_DELAY_TICKS then Rejected(BeyondHorizon) else Ticks(ticks)
  }

  /** Which delays are taken: exactly those up to the advertised maximum. */
  lemma DelayAccepted(delayMs: int)
    ensures DelayTicks(delayMs).Ticks? <==> 0 <= delayMs <= MAX_DELAY_TICKS * TICK_MS
    ensures DelayTicks(delayMs).Ticks? ==> 1 <= DelayTicks(delayMs).ticks <= MAX_DELAY_TICKS
    ensures DelayTicks(delayMs) == Rejected(Negative) <==> delayMs < 0
  {
  }

  // ---- runs ----

  /** One call on the wheel, or one tick of its driver.  `tick` is the clock the
      call reads; the clock may read anything, earlier ticks included. */
  datatype Call =
    | Create(tick: int, delay: int)
    | Reset(id: nat, tick: int, delay: int)
    | Cancel(id: nat)
    | Drive(tick: int)
    | Close

  datatype Desk = Desk(plan: Plan, nextId: nat)

  /** A new timer, under the next id. */
  function Enter(d: Desk, deadline: int): Desk {
    Desk(Arm(d.plan, d.nextId, Due(deadline, 1)), d.nextId + 1)
  }

  /** The effect of a call whose delay, in ticks, was accepted. */
  function Make(d: Desk, call: Call): Desk {
    match call
    case Create(tick, delay) =>
      var p := Advance(d.plan, tick);
      Enter(d.(plan := p), p.now + delay)
    case Reset(id, tick, delay) =>
      if id !in d.plan.due then d
      else
        var p := Advance(d.plan, tick);
        if id !in p.due then d.(plan := p)
        else d.(plan := Arm(p, id, Due(p.now + delay, p.due[id].generation + 1)))
    case Cancel(id) => d.(plan := Disarm(d.plan, id))
    case Drive(tick) => d.(plan := Advance(d.plan, tick))
    case Close => d.(plan := d.plan.(due := map[]))
  }

  lemma CreateIsMake(d: Desk, tick: int, delay: int, p: Plan)
    requires p == Advance(d.plan, tick)
    ensures Make(d, Create(tick, delay)) == Enter(Desk(p, d.nextId), p.now + delay)
  {
  }

  // ---- how long a timer really takes ----

  /** When, in milliseconds, a timer created at clock `nowMs` falls due. */
  function DueMs(d: Desk, nowMs: int, delayMs: int): int
    requires DelayTicks(delayMs).Ticks?
  {
    Make(d, Create(nowMs / TICK_MS, DelayTicks(delayMs).ticks)).plan.due[d.nextId].deadline * TICK_MS
  }

  /** How far that can be from the delay asked for, when the wheel is not ahead of the
      clock: less than a tick early, less than a tick late. */
  lemma DeadlineError(d: Desk, nowMs: int, delayMs: int)
    requires DelayTicks(delayMs).Ticks? && d.plan.now <= nowMs / TICK_MS
    ensures nowMs + delayMs - TICK_MS < DueMs(d, nowMs, delayMs)
    ensures DueMs(d, nowMs, delayMs) <= nowMs + (if delayMs < 1 then 1 else delayMs) + TICK_MS - 1
  {
  }

  /** The clock reading may lie inside a tick, and the fraction is dropped: the
      delay asked for is waited out in full exactly when rounding the delay up
      made up for it.  A caller can check this before it asks. */
  lemma NeverEarlyIff(d: Desk, nowMs: int, delayMs: int)
    requires DelayTicks(delayMs).Ticks? && d.plan.now <= nowMs / TICK_MS
    ensures nowMs + delayMs <= DueMs(d, nowMs, delayMs) <==>
            nowMs % TICK_MS <= DelayTicks(delayMs).ticks * TICK_MS - delayMs
  {
  }

  /** The same of a timer that is reset before its deadline is reached. */
  lemma ResetNeverEarlyIff(d: Desk, id: nat, nowMs: int, delayMs: int)
    requires DelayTicks(delayMs).Ticks? && d.plan.now <= nowMs / TICK_MS
    requires id in d.plan.due && nowMs / TICK_MS < d.plan.due[id].deadline
    ensures var due := Make(d, Reset(id, nowMs / TICK_MS, DelayTicks(delayMs).ticks)).plan.due;
            && id in due
            && (nowMs + delayMs <= due[id].deadline * TICK_MS <==>
                  nowMs % TICK_MS <= DelayTicks(delayMs).ticks * TICK_MS - delayMs)
  {
  }

  /** A timer of 10 ms asked for at 19 ms is due at 20 ms. */
  lemma EarlyExpiryExample()
    ensures DelayTicks(10) == Ticks(1)
    ensures DueMs(Desk(Plan(0, map[]), 1), 19, 10) == 20 < 19 + 10
  {
  }

  predicate Accepted(call: Call) {
    (call.Create? || call.Reset?) ==> 1 <= call.delay <= MAX_DELAY_TICKS
  }

  function Run(d: Desk, calls: seq<Call>): Desk
    decreases |calls|
  {
    if calls == [] then d else Run(Make(d, calls[0]), calls[1..])
  }

  ghost predicate AllAhead(d: Desk) {
    forall id :: id in d.plan.due ==>
      && id < d.nextId
      && d.plan.now < d.plan.due[id].deadline <= d.plan.now + MAX_DELAY_TICKS
  }

  lemma MakeKeepsAhead(d: Desk, call: Call)
    requires AllAhead(d) && Accepted(call)
    ensures AllAhead(Make(d, call))
    ensures d.nextId <= Make(d, call).nextId && d.plan.now <= Make(d, call).plan.now
  {
  }

  /** One timer followed on its own, blind to every other timer: the latest tick
      the clock has shown, and its own deadline while it is armed. */
  datatype Watch = Watch(now: int, nextId: nat, due: Option<Due>)

  function Meet(w: Watch, tick: int): Watch {
    var now := Later(w.now, tick);
    Watch(now, w.nextId, if w.due.Some? && w.due.value.deadline <= now then None else w.due)
  }

  /** `known` says whether the timer a reset names is still armed, which is all
      the rest of the wheel contributes: a reset refused outright reads no clock. */
  function Follow(w: Watch, id: nat, call: Call, known: bool): Watch {
    match call
    case Create(tick, delay) =>
      var m := Meet(w, tick);
      Watch(m.now, m.nextId + 1, if m.nextId == id then Some(Due(m.now + delay, 1)) else m.due)
    case Reset(other, tick, delay) =>
      if !known then w
      else
        var m := Meet(w, tick);
        if other == id && m.due.Some?
        then m.(due := Some(Due(m.now + delay, m.due.value.generation + 1)))
        else m
    case Cancel(other) => if other == id then w.(due := None) else w
    case Drive(tick) => Meet(w, tick)
    case Close => w.(due := None)
  }

  function Watched(d: Desk, id: nat): Watch {
    Watch(d.plan.now, d.nextId, if id in d.plan.due then Some(d.plan.due[id]) else None)
  }

  function FollowAll(d: Desk, w: Watch, id: nat, calls: seq<Call>): Watch
    decreases |calls|
  {
    if calls == [] then w
    else
      var known := calls[0].Reset? ==> calls[0].id in d.plan.due;
      FollowAll(Make(d, calls[0]), Follow(w, id, calls[0], known), id, calls[1..])
  }

  lemma FollowsMake(d: Desk, id: nat, call: Call)
    requires AllAhead(d)
    ensures Follow(Watched(d, id), id, call, call.Reset? ==> call.id in d.plan.due) == Watched(Make(d, call), id)
  {
  }

  /** Timers do not disturb each other: over every run, what the plan holds for
      an id is what that timer's own calls and the clock make of it. */
  lemma {:induction false} TimersAreIndependent(d: Desk, id: nat, calls: seq<Call>)
    requires AllAhead(d)
    requires forall i :: 0 <= i < |calls| ==> Accepted(calls[i])
    ensures AllAhead(Run(d, calls))
    ensures Watched(Run(d, calls), id) == FollowAll(d, Watched(d, id), id, calls)
    decreases |calls|
  {
    if calls != [] {
      MakeKeepsAhead(d, calls[0]);
      FollowsMake(d, id, calls[0]);
      TimersAreIndependent(Make(d, calls[0]), id, calls[1..]);
    }
  }

  /** How the clock got there does not matter: any walk of ticks leaves what one
      jump to the furthest of them leaves. */
  function Walk(p: Plan, ticks: seq<int>): Plan
    decreases |ticks|
  {
    if ticks == [] then p else Walk(Advance(p, ticks[0]), ticks[1..])
  }

  function Furthest(now: int, ticks: seq<int>): int
    decreases |ticks|
  {
    if ticks == [] then now else Furthest(Later(now, ticks[0]), ticks[1..])
  }

  lemma AdvanceTwice(p: Plan, a: int, b: int)
    ensures Advance(Advance(p, a), b) == Advance(p, Later(a, b))
  {
  }

  lemma {:induction false} WalkIsOneJump(p: Plan, ticks: seq<int>)
    requires Advance(p, p.now) == p
    ensures Walk(p, ticks) == Advance(p, Furthest(p.now, ticks))
    decreases |ticks|
  {
    if ticks != [] {
      AdvanceTwice(p, ticks[0], p.now);
      assert Later(ticks[0], Advance(p, ticks[0]).now) == Advance(p, ticks[0]).now;
      AdvanceTwice(p, ticks[0], Advance(p, ticks[0]).now);
      WalkIsOneJump(Advance(p, ticks[0]), ticks[1..]);
      FurthestIsLater(Advance(p, ticks[0]).now, ticks[1..]);
      AdvanceTwice(p, ticks[0], Furthest(Advance(p, ticks[0]).now, ticks[1..]));
    }
  }

  lemma {:induction false} FurthestIsLater(now: int, ticks: seq<int>)
    ensures now <= Furthest(now, ticks)
    decreases |ticks|
  {
    if ticks != [] { FurthestIsLater(Later(now, ticks[0]), ticks[1..]); }
  }

  /** A timer nobody touches is gone at the first tick that reaches its deadline
      and not before, whatever is done to the other timers meanwhile. */
  predicate Touches(call: Call, id: nat) {
    call.Close? || (call.Cancel? && call.id == id) || (call.Reset? && call.id == id)
  }

  lemma {:induction false} ExpiresWhenReached(d: Desk, id: nat, calls: seq<Call>)
    requires AllAhead(d) && id in d.plan.due
    requires forall i :: 0 <= i < |calls| ==> Accepted(calls[i]) && !Touches(calls[i], id)
    ensures AllAhead(Run(d, calls))
    ensures id in Run(d, calls).plan.due <==> Run(d, calls).plan.now < d.plan.due[id].deadline
    ensures id in Run(d, calls).plan.due ==> Run(d, calls).plan.due[id] == d.plan.due[id]
    decreases |calls|
  {
    if calls != [] {
      var next := Make(d, calls[0]);
      MakeKeepsAhead(d, calls[0]);
      if id in next.plan.due {
        ExpiresWhenReached(next, id, calls[1..]);
      } else {
        GoneStaysGone(next, id, calls[1..]);
      }
    }
  }

  /** An id out of the plan never comes back: ids are not used again. */
  lemma {:induction false} GoneStaysGone(d: Desk, id: nat, calls: seq<Call>)
    requires AllAhead(d) && id < d.nextId && id !in d.plan.due
    requires forall i :: 0 <= i < |calls| ==> Accepted(calls[i])
    ensures AllAhead(Run(d, calls)) && id !in Run(d, calls).plan.due
    ensures d.plan.now <= Run(d, calls).plan.now
    decreases |calls|
  {
    if calls != [] {
      MakeKeepsAhead(d, calls[0]);
      GoneStaysGone(Make(d, calls[0]), id, calls[1..]);
    }
  }
}
