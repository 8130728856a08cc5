/** The hierarchical timing wheel: 256 near slots, four levels of 64 slots, and
    an index of all entries, updated in place.

    `Plan()` is the map from timer id to deadline the wheel stands for; every
    operation is proved to do to it what TimerPlan says. */
module TimerWheel {
  import opened Wrappers
  import opened WheelLayout
  import opened TimerPlan
  import L = TimerLife

  /** An entry names its timer by id; the wheel finds the object under it. */
  datatype Entry = Entry(timerId: nat, deadline: int, generation: nat, home: Home)

  type Bucket = map<nat, Entry>

  /** All buckets of the wheel. */
  datatype Slots = Slots(near: seq<Bucket>, levels: seq<seq<Bucket>>) {

    predicate Shaped() {
      && |near| == NEAR_SIZE
      && |levels| == LEVEL_COUNT
      && forall level :: 0 <= level < LEVEL_COUNT ==> |levels[level]| == LEVEL_SIZE
    }

    function At(home: Home): Bucket
      requires Shaped() && Exists(home)
    {
      if home.level == NEAR then near[home.slot] else levels[home.level][home.slot]
    }

    function With(home: Home, bucket: Bucket): (s: Slots)
      requires Shaped() && Exists(home)
      ensures s.Shaped()
      ensures forall h: Home :: Exists(h) ==> s.At(h) == if h == home then bucket else At(h)
    {
      if home.level == NEAR
      then Slots(near[home.slot := bucket], levels)
      else Slots(near, levels[home.level := levels[home.level][home.slot := bucket]])
    }
  }

  /** The entries whose record names one bucket. */
  function Living(entries: Bucket, home: Home): Bucket {
    map id | id in entries && entries[id].home == home :: entries[id]
  }

  /** The buckets as the index has them: an entry is in the one bucket its record
      names, and a bucket holds nothing else. */
  function SlotsOf(entries: Bucket): (s: Slots)
    ensures s.Shaped()
    ensures forall home: Home :: Exists(home) ==> s.At(home) == Living(entries, home)
  {
    Slots(seq(NEAR_SIZE, slot requires 0 <= slot < NEAR_SIZE => Living(entries, Home(NEAR, slot))),
          seq(LEVEL_COUNT, level requires 0 <= level < LEVEL_COUNT =>
                seq(LEVEL_SIZE, slot requires 0 <= slot < LEVEL_SIZE => Living(entries, Home(level, slot)))))
  }

  /** Buckets that agree everywhere are the same. */
  lemma SameSlots(a: Slots, b: Slots)
    requires a.Shaped() && b.Shaped()
    requires forall home: Home :: Exists(home) ==> a.At(home) == b.At(home)
    ensures a == b
  {
    forall slot | 0 <= slot < NEAR_SIZE
      ensures a.near[slot] == b.near[slot]
    {
      assert a.At(Home(NEAR, slot)) == b.At(Home(NEAR, slot));
    }
    forall level | 0 <= level < LEVEL_COUNT
      ensures a.levels[level] == b.levels[level]
    {
      forall slot | 0 <= slot < LEVEL_SIZE
        ensures a.levels[level][slot] == b.levels[level][slot]
      {
        assert a.At(Home(level, slot)) == b.At(Home(level, slot));
      }
    }
  }

  lemma PutSlots(entries: Bucket, id: nat, e: Entry)
    requires id !in entries && Exists(e.home)
    ensures SlotsOf(entries).With(e.home, SlotsOf(entries).At(e.home)[id := e]) == SlotsOf(entries[id := e])
  {
    forall home: Home | Exists(home)
      ensures Living(entries[id := e], home) ==
              if home == e.home then Living(entries, home)[id := e] else Living(entries, home)
    {
    }
    SameSlots(SlotsOf(entries).With(e.home, SlotsOf(entries).At(e.home)[id := e]), SlotsOf(entries[id := e]));
  }

  lemma TakeSlots(entries: Bucket, id: nat)
    requires id in entries && Exists(entries[id].home)
    ensures var home := entries[id].home;
            SlotsOf(entries).With(home, SlotsOf(entries).At(home) - {id}) == SlotsOf(entries - {id})
  {
    var home := entries[id].home;
    forall h: Home | Exists(h)
      ensures Living(entries - {id}, h) == if h == home then Living(entries, h) - {id} else Living(entries, h)
    {
    }
    SameSlots(SlotsOf(entries).With(home, SlotsOf(entries).At(home) - {id}), SlotsOf(entries - {id}));
  }

  lemma ClearSlots(entries: Bucket, home: Home)
    requires Exists(home)
    ensures SlotsOf(entries).With(home, map[]) == SlotsOf(entries - Living(entries, home).Keys)
  {
    var rest := entries - Living(entries, home).Keys;
    forall h: Home | Exists(h)
      ensures Living(rest, h) == if h == home then map[] else Living(entries, h)
    {
    }
    SameSlots(SlotsOf(entries).With(home, map[]), SlotsOf(rest));
  }

  /** How far the wheel has come, for the source's `_started`, `_closed`,
      `_driver_task`, `_waiting_poke` and `_poke` together: not started, its
      driver about to look at the index, waiting for a poke, poked and not yet
      awake, or asleep for a tick, and closed. */
  datatype Phase = NotStarted | Looking | Parked | Poked | Sleeping | Closed

  datatype Refusal = WheelClosed | WheelNotStarted | BadDelay(error: DelayError) | NotActive

  class Timer {
    const wheel: TimerWheel
    const id: nat
    var deadline: int
    var generation: nat
    var active: bool
    var cancelled: bool
    var closed: bool
    var waiter: L.Waiter
    var expiredGeneration: Option<nat>
    var expiryConsumed: bool

    constructor (wheel: TimerWheel, id: nat, deadline: int)
      ensures this.wheel == wheel && this.id == id && State() == L.Fresh(deadline)
    {
      this.wheel := wheel;
      this.id := id;
      this.deadline := deadline;
      generation := 1;
      active, cancelled, closed := true, false, false;
      waiter := L.NoWaiter;
      expiredGeneration := None;
      expiryConsumed := false;
    }

    ghost function State(): L.TimerState
      reads this
    {
      L.TimerState(deadline, generation, active, cancelled, closed, waiter, expiredGeneration, expiryConsumed)
    }

    /** `_expire`. */
    method Expire(generation: nat)
      modifies this
      ensures State() == L.Expire(old(State()), generation)
    {
      if !active || generation != this.generation {
        return;
      }
      active := false;
      expiredGeneration := Some(generation);
      if waiter == L.Parked {
        waiter := L.Woken;
      }
    }

    /** `reset`, the clock standing at tick `clock`. */
    method Reset(delayMs: int, clock: int) returns (refusal: Option<Refusal>)
      requires wheel.Valid() && this in wheel.timers
      modifies wheel`now, wheel`near, wheel`levels, wheel`entries, wheel.timers
      ensures wheel.Valid()
      ensures !old(active) ==>
                refusal == Some(NotActive) && wheel.AllUntouched() && wheel.Desk() == old(wheel.Desk())
      ensures old(active) && old(wheel.Refused(delayMs)).Some? ==>
                refusal == old(wheel.Refused(delayMs)) && wheel.AllUntouched() && wheel.Desk() == old(wheel.Desk())
      ensures old(active) && old(wheel.Refused(delayMs)).None? ==>
                && wheel.Desk() == Make(old(wheel.Desk()), TimerPlan.Reset(id, clock, DelayTicks(delayMs).ticks))
                && refusal == (if old(deadline) <= wheel.now then Some(NotActive) else None)
                && wheel.AllReachedBut(this, wheel.now)
                && State() == if refusal.None? then L.Rearm(old(State()), wheel.now + DelayTicks(delayMs).ticks)
                              else L.Reach(old(State()), wheel.now)
    {
      if !active {
        return Some(NotActive);
      }
      refusal := wheel.Reschedule(this, delayMs, clock);
    }

    /** What `_reschedule` changes in the timer. */
    method Rearm(deadline: int)
      requires L.Sound(State()) && active
      modifies this
      ensures State() == L.Rearm(old(State()), deadline) && L.Sound(State())
    {
      generation := generation + 1;
      this.deadline := deadline;
      expiredGeneration := None;
      expiryConsumed := false;
    }

    /** `cancel`. */
    method Cancel()
      requires wheel.Valid() && this in wheel.timers
      modifies wheel`near, wheel`levels, wheel`entries, this
      ensures wheel.Valid()
      ensures wheel.Desk() == Make(old(wheel.Desk()), TimerPlan.Cancel(id))
      ensures State() == L.Cancel(old(State()))
    {
      if cancelled || closed {
        DueGone(wheel.entries, id);
        return;
      }
      wheel.Known(this);
      DueGone(wheel.entries, id);
      AgreeApart(wheel.timers, wheel.entries, this);
      hide Agree, Named, OneEach, Mine, SoundTimers, AllPlaced, SlotsOf, L.Sound;
      if active {
        wheel.Remove(this);
      }
      MarkCancelled();
      SoundAgain(wheel.timers, this);
      AgreeAgain(wheel.timers, wheel.entries, wheel.entries, this);
    }

    /** What `cancel` changes in the timer. */
    method MarkCancelled()
      requires L.Sound(State()) && !cancelled && !closed
      modifies this
      ensures State() == L.Cancel(old(State())) && L.Sound(State())
    {
      active := false;
      cancelled := true;
      if waiter == L.Parked {
        waiter := L.ToldCancelled;
      }
    }

    /** `wait`, up to the point where it returns, raises or parks. */
    method BeginWait() returns (start: L.WaitStart)
      requires wheel.Valid() && this in wheel.timers
      modifies this
      ensures wheel.Valid()
      ensures (State(), start) == L.BeginWait(old(State()))
    {
      if waiter != L.NoWaiter {
        return L.AlreadyWaited;
      }
      if closed {
        return L.WheelClosed;
      }
      if cancelled {
        return L.TimerCancelled;
      }
      if expiredGeneration.Some? {
        if expiryConsumed {
          return L.AlreadyConsumed;
        }
        expiryConsumed := true;
        return L.Ready;
      }
      waiter := L.Parked;
      return L.Suspended;
    }

    /** The task parked in `wait` is cancelled. */
    method AbandonWait()
      requires wheel.Valid() && this in wheel.timers
      modifies this`waiter
      ensures wheel.Valid()
      ensures State() == L.Abandon(old(State()))
    {
      if waiter == L.Parked {
        waiter := L.Abandoned;
      }
    }

    /** `wait` running on after its future is done. */
    method EndWait(interrupted: bool)
      requires wheel.Valid() && this in wheel.timers
      modifies wheel`near, wheel`levels, wheel`entries, this
      ensures wheel.Valid()
      ensures State() == L.EndWait(old(State()), interrupted)
      ensures wheel.Desk() == if old(active) && old(waiter) == L.Abandoned
                              then Make(old(wheel.Desk()), TimerPlan.Cancel(id)) else old(wheel.Desk())
      ensures old(active) && old(waiter) == L.Abandoned ==> cancelled && !active && id !in wheel.Desk().plan.due
      ensures old(waiter) == L.Woken && !interrupted ==> expiryConsumed
    {
      if waiter == L.NoWaiter || waiter == L.Parked {
        return;
      }
      var delivered := waiter == L.Woken && !interrupted;
      if !delivered && active {
        Cancel();
      }
      hide Agree, Named, OneEach, Mine, SoundTimers, AllPlaced, SlotsOf, L.Sound;
      Resume(delivered);
    }

    /** The end of `wait`, an abandoned timer cancelled. */
    method Resume(delivered: bool)
      requires wheel.Valid() && this in wheel.timers && (delivered ==> waiter == L.Woken)
      modifies this`expiryConsumed, this`waiter
      ensures wheel.Valid()
      ensures State() == old(State()).(expiryConsumed := delivered || old(expiryConsumed), waiter := L.NoWaiter)
    {
      AgreeApart(wheel.timers, wheel.entries, this);
      hide Agree, Named, OneEach, Mine, SoundTimers, AllPlaced, SlotsOf, L.Sound;
      MarkResumed(delivered);
      SoundAgain(wheel.timers, this);
      AgreeAgain(wheel.timers, wheel.entries, wheel.entries, this);
    }

    /** What the end of `wait` changes in the timer. */
    method MarkResumed(delivered: bool)
      requires L.Sound(State()) && (delivered ==> waiter == L.Woken)
      modifies this`expiryConsumed, this`waiter
      ensures L.Sound(State())
      ensures State() == old(State()).(expiryConsumed := delivered || old(expiryConsumed), waiter := L.NoWaiter)
    {
      if delivered {
        expiryConsumed := true;
      }
      waiter := L.NoWaiter;
    }

    /** `_close`. */
    method Close()
      modifies this
      ensures State() == L.Close(old(State()))
    {
      active := false;
      closed := true;
      if waiter == L.Parked {
        waiter := L.ToldClosed;
      }
    }
  }

  class TimerWheel {
    var now: int
    var near: seq<Bucket>
    var levels: seq<seq<Bucket>>
    var entries: Bucket
    var nextId: nat
    var phase: Phase
    /** The timers made so far; entries name them by id. */
    var timers: set<Timer>

    function Buckets(): Slots
      reads this
    {
      Slots(near, levels)
    }

    ghost function Plan(): Plan
      reads this
    {
      TimerPlan.Plan(now, DueOf(entries))
    }

    ghost predicate Indexed()
      reads this
    {
      Buckets() == SlotsOf(entries) && AllPlaced(entries, now)
    }

    /** Entries and timers belong together, and each id names one timer. */
    ghost predicate Linked()
      reads this, timers
    {
      && Agree(timers, entries)
      && Named(timers, entries)
      && OneEach(timers)
      && Mine(timers, this, nextId)
    }

    ghost predicate AllSound()
      reads this, timers
    {
      SoundTimers(timers)
    }

    ghost predicate Valid()
      reads this, timers
    {
      && Indexed()
      && Linked()
      && AllSound()
      && (Idle() ==> forall id :: id in entries ==> false)
    }

    /** Nobody would notice a timer: the wheel never started, or its driver is
        parked and has not been poked. */
    ghost predicate Idle()
      reads this
    {
      phase == NotStarted || phase == Parked
    }

    ghost function Desk(): Desk
      reads this
    {
      TimerPlan.Desk(Plan(), nextId)
    }

    constructor (clock: int)
      ensures Valid() && Plan() == TimerPlan.Plan(clock, map[]) && timers == {}
      ensures phase == NotStarted && nextId == 1
    {
      now := clock;
      var empty := SlotsOf(map[]);
      near, levels := empty.near, empty.levels;
      entries := map[];
      nextId := 1;
      phase := NotStarted;
      timers := {};
    }

    /** `_insert`: the entry goes into the bucket its delta picks.  `filed` are
        the entries the buckets hold, which may lag behind the index. */
    method Insert(timerId: nat, deadline: int, generation: nat, ghost filed: Bucket)
      requires Buckets() == SlotsOf(filed) && timerId !in filed
      requires now <= deadline <= now + MAX_DELAY_TICKS
      modifies this`near, this`levels, this`entries
      ensures var e := Entry(timerId, deadline, generation, HomeFor(deadline, now));
              Buckets() == SlotsOf(filed[timerId := e]) && entries == old(entries)[timerId := e]
    {
      InsertFits(deadline, now);
      var home := HomeFor(deadline, now);
      var e := Entry(timerId, deadline, generation, home);
      PutSlots(filed, timerId, e);
      var bucket: Bucket := Buckets().At(home)[timerId := e];
      if home.level == NEAR {
        near := near[home.slot := bucket];
      } else {
        levels := levels[home.level := levels[home.level][home.slot := bucket]];
      }
      entries := entries[timerId := e];
    }

    /** `_remove`. */
    method Remove(timer: Timer)
      requires Indexed()
      modifies this`near, this`levels, this`entries
      ensures Indexed()
      ensures entries == old(entries) - {timer.id}
    {
      if timer.id !in entries {
        return;
      }
      var home := entries[timer.id].home;
      PlacedExists(home, entries[timer.id].deadline, now);
      TakeSlots(entries, timer.id);
      entries := entries - {timer.id};
      var bucket: Bucket := Buckets().At(home) - {timer.id};
      if home.level == NEAR {
        near := near[home.slot := bucket];
      } else {
        levels := levels[home.level := levels[home.level][home.slot := bucket]];
      }
    }

    /** The loop of `_cascade` over the bucket it took out. */
    method PutBack(bucket: Bucket)
      requires bucket.Keys <= entries.Keys && Buckets() == SlotsOf(entries - bucket.Keys)
      requires forall id :: id in bucket ==>
                 && bucket[id] == entries[id] && bucket[id].timerId == id
                 && now <= bucket[id].deadline <= now + MAX_DELAY_TICKS
      modifies this`near, this`levels, this`entries
      ensures entries == Moved(old(entries), bucket.Keys, now) && Buckets() == SlotsOf(entries)
    {
      ghost var before := entries;
      var todo := bucket.Keys;
      assert Moved(before, bucket.Keys - todo, now) == before;
      while todo != {}
        invariant todo <= bucket.Keys
        invariant entries == Moved(before, bucket.Keys - todo, now)
        invariant Buckets() == SlotsOf(entries - todo)
        decreases todo
      {
        var id :| id in todo;
        var e := bucket[id];
        MoveOne(before, bucket.Keys, todo, id, now);
        ghost var filed := entries - todo;
        entries := entries - {id};
        Insert(e.timerId, e.deadline, e.generation, filed);
        todo := todo - {id};
      }
      assert entries - {} == entries && bucket.Keys - {} == bucket.Keys;
    }

    /** `_cascade`: the current slot of a level is emptied into lower ones, then
        the level above follows if this one has come round to slot 0. */
    method Cascade(level: int)
      requires 0 <= level < LEVEL_COUNT && now % SlotWidth(level) == 0
      requires Buckets() == SlotsOf(entries) && CascadedBelow(entries, now, level)
      modifies this`near, this`levels, this`entries
      ensures Buckets() == SlotsOf(entries) && CascadedBelow(entries, now, LEVEL_COUNT)
      ensures AllSunk(old(entries), entries)
      decreases LEVEL_COUNT - level
    {
      var home := Home(level, Block(level, now) % LEVEL_SIZE);
      var bucket := levels[level][home.slot];
      assert bucket == Buckets().At(home);
      ClearSlots(entries, home);
      CascadeMoves(entries, now, level);
      CascadeCarries(now, level);
      levels := levels[level := levels[level][home.slot := map[]]];
      PutBack(bucket);
      if home.slot == 0 && level + 1 < LEVEL_COUNT {
        Cascade(level + 1);
      }
    }

    /** Every timer has seen the clock reach `tick`, and nothing else happened to
        any of them. */
    twostate predicate AllReached(tick: int)
      reads this, timers
    {
      && timers == old(timers)
      && forall t :: t in old(timers) ==> t.State() == L.Reach(old(t.State()), tick)
    }

    twostate predicate AllUntouched()
      reads this, timers
    {
      && timers == old(timers)
      && forall t :: t in old(timers) ==> t.State() == old(t.State())
    }

    lemma NoneReachedYet()
      requires Indexed() && Linked()
      ensures forall t, tick :: t in timers && tick <= now ==> L.Reach(t.State(), tick) == t.State()
    {
    }

    /** As AllReached, for every timer but one. */
    twostate predicate AllReachedBut(timer: Timer, tick: int)
      reads this, timers
    {
      && timers == old(timers)
      && forall t :: t in old(timers) && t != timer ==> t.State() == L.Reach(old(t.State()), tick)
    }

    /** What the plan holds for a timer is the timer's own account of itself. */
    lemma Known(timer: Timer)
      requires Linked() && timer in timers
      ensures timer.id in Plan().due <==> timer.active
      ensures timer.active ==> Plan().due[timer.id] == Due(timer.deadline, timer.generation)
    {
    }

    twostate lemma ReachedStaySound(tick: int)
      requires AllReached(tick) && old(AllSound())
      ensures AllSound()
    {
      L.ReachKeepsSound(tick);
      assert forall t :: t in timers ==> L.Sound(old(t.State()));
    }

    /** The loop of `_expire_near` over the bucket it took out.  The source drops
        each entry from the index as it goes; nothing looks in between, so the
        caller drops them together. */
    method Fire(bucket: Bucket)
      requires Agree(timers, entries) && Named(timers, entries) && OneEach(timers)
      requires forall id :: id in bucket ==> id in entries && bucket[id] == entries[id]
      requires forall id :: id in entries ==>
                 now <= entries[id].deadline && (entries[id].deadline == now <==> id in bucket)
      modifies timers
      ensures Agree(timers, entries - bucket.Keys) && AllReached(now)
    {
      var todo := bucket.Keys;
      while todo != {}
        invariant todo <= bucket.Keys
        invariant forall t :: t in timers ==>
                    var hit := t.id in bucket && t.id !in todo;
                    t.State() == (if hit then L.Expire(old(t.State()), bucket[t.id].generation) else old(t.State()))
        decreases todo
      {
        var id :| id in todo;
        var e := bucket[id];
        if e.deadline <= now {
          var timer :| timer in timers && timer.id == id;
          timer.Expire(e.generation);
        } else {
          // the source puts the entry back here; no entry ever gets this far
          assert false;
        }
        todo := todo - {id};
      }
    }

    /** `_expire_near`: the slot of the current tick is emptied, and everything in
        it is due at this very tick. */
    method ExpireNear(slot: int)
      requires slot == now % NEAR_SIZE
      requires Buckets() == SlotsOf(entries) && CascadedBelow(entries, now, LEVEL_COUNT) && Linked()
      modifies this`near, this`entries, timers
      ensures Indexed() && Linked()
      ensures entries == StillAhead(old(entries), now)
      ensures AllReached(now)
    {
      var bucket := near[slot];
      assert bucket == Buckets().At(Home(NEAR, slot));
      NearIsDue(entries, now);
      ClearSlots(entries, Home(NEAR, slot));
      near := near[slot := map[]];
      Fire(bucket);
      entries := entries - bucket.Keys;
      NamedFewer(timers, old(entries), entries);
    }

    /** The first half of a turn of the stepping loop: the tick, and the cascade it
        may bring. */
    method Tick()
      requires Indexed() && Linked()
      modifies this`now, this`near, this`levels, this`entries
      ensures now == old(now) + 1
      ensures Buckets() == SlotsOf(entries) && CascadedBelow(entries, now, LEVEL_COUNT) && Linked()
      ensures AllSunk(old(entries), entries)
    {
      TickKeepsAll(entries, now);
      now := now + 1;
      if now % NEAR_SIZE == 0 {
        Cascade(0);
      }
    }

    /** One turn of the stepping loop of `_advance_to`. */
    method Step()
      requires Indexed() && Linked()
      modifies this`now, this`near, this`levels, this`entries, timers
      ensures Indexed() && Linked()
      ensures Plan() == Advance(old(Plan()), old(now) + 1)
      ensures forall id :: id in entries ==> id in old(entries)
      ensures now == old(now) + 1 && AllReached(now)
      ensures forall t :: t in timers && old(t.active) && !t.active ==> t.deadline == now
    {
      assert forall t :: t in timers && t.active ==> now + 1 <= t.deadline;
      hide Agree, Named, OneEach, Mine, SlotsOf, AllPlaced, CascadedBelow, Ahead, DueOf, StillAhead, AllSunk, L.Reach;
      Tick();
      SunkIsDue(old(entries), entries, now);
      ExpireNear(now % NEAR_SIZE);
      FiredOnTime(now);
    }

    /** Of timers not due before a tick, those it reaches are due at it. */
    twostate lemma FiredOnTime(tick: int)
      requires AllReached(tick) && forall t :: t in old(timers) && old(t.active) ==> tick <= old(t.deadline)
      ensures forall t :: t in timers && old(t.active) && !t.active ==> t.deadline == tick
    {
      forall t | t in timers && old(t.active) && !t.active
        ensures t.deadline == tick
      {
        assert t.State() == L.Reach(old(t.State()), tick);
      }
    }

    /** The timer an entry names. */
    method TimerOf(was: Bucket, id: nat) returns (timer: Timer)
      requires Named(timers, was) && id in was
      ensures timer in timers && timer.id == id
    {
      timer :| timer in timers && timer.id == id;
    }

    /** One turn of the loop of `_rebuild`: a timer expires, or its entry is put back. */
    method RefileOne(was: Bucket, id: nat, target: int)
      requires now == target && id !in entries && Buckets() == SlotsOf(entries)
      requires Named(timers, was) && id in was && was[id].timerId == id && was[id].deadline <= target + MAX_DELAY_TICKS
      modifies this`near, this`levels, this`entries, timers
      ensures Buckets() == SlotsOf(entries)
      ensures entries == if was[id].deadline <= target then old(entries)
                         else old(entries)[id := was[id].(home := HomeFor(was[id].deadline, target))]
      ensures forall t :: t in timers && (t.id != id || target < was[id].deadline) ==> t.State() == old(t.State())
      ensures OneEach(timers) && was[id].deadline <= target ==>
                forall t :: t in timers && t.id == id ==> t.State() == L.Expire(old(t.State()), was[id].generation)
    {
      var e := was[id];
      hide SlotsOf, Named, L.Expire;
      if e.deadline <= target {
        var timer := TimerOf(was, id);
        timer.Expire(e.generation);
      } else {
        Insert(e.timerId, e.deadline, e.generation, entries);
      }
    }

    /** The loop of `_rebuild` over the entries it took out. */
    method RefileEach(was: Bucket, target: int)
      requires now == target && entries == map[] && Buckets() == SlotsOf(map[])
      requires Named(timers, was) && OneEach(timers)
      requires forall id :: id in was ==> was[id].timerId == id && was[id].deadline <= target + MAX_DELAY_TICKS
      modifies this`near, this`levels, this`entries, timers
      ensures entries == Rehomed(was, was.Keys, target) && Buckets() == SlotsOf(entries)
      ensures Refiled(was, {}, target)
    {
      var todo := was.Keys;
      assert was.Keys - todo == {};
      RehomeNone(was, target);
      hide Rehomed, SlotsOf, Named, L.Expire;
      while todo != {}
        invariant todo <= was.Keys
        invariant entries == Rehomed(was, was.Keys - todo, target)
        invariant Buckets() == SlotsOf(entries)
        invariant Refiled(was, todo, target)
        decreases todo
      {
        var id :| id in todo;
        RehomeOne(was, todo, id, target);
        RefileOne(was, id, target);
        todo := todo - {id};
      }
      assert was.Keys - {} == was.Keys;
    }

    /** What that leaves of the entries and their timers. */
    method Refile(was: Bucket, target: int)
      requires now == target && entries == map[] && Buckets() == SlotsOf(map[])
      requires Agree(timers, was) && Named(timers, was) && OneEach(timers)
      requires forall id :: id in was ==> was[id].timerId == id && was[id].deadline <= target + MAX_DELAY_TICKS
      modifies this`near, this`levels, this`entries, timers
      ensures entries == Rehomed(was, was.Keys, target) && Buckets() == SlotsOf(entries)
      ensures Agree(timers, entries) && AllReached(target)
    {
      hide SlotsOf, Named, OneEach;
      RefileEach(was, target);
    }

    /** Of the entries seen so far, the timers due by the target have expired. */
    twostate predicate Refiled(was: Bucket, todo: set<nat>, target: int)
      reads this, timers
    {
      && timers == old(timers)
      && forall t :: t in old(timers) ==>
           t.State() == if t.id in was && t.id !in todo && was[t.id].deadline <= target
                        then L.Expire(old(t.State()), was[t.id].generation)
                        else old(t.State())
    }

    /** The first half of `_rebuild`: everything is taken out, at the target tick. */
    method EmptyAt(target: int)
      modifies this`now, this`near, this`levels, this`entries
      ensures now == target && entries == map[] && Buckets() == SlotsOf(map[])
    {
      var empty := SlotsOf(map[]);
      entries := map[];
      near, levels := empty.near, empty.levels;
      now := target;
    }

    /** `_rebuild`: every bucket is emptied and what is not yet due at `target`
        is put back from there. */
    method Rebuild(target: int)
      requires Indexed() && Linked() && now <= target
      modifies this`now, this`near, this`levels, this`entries, timers
      ensures Indexed() && Linked()
      ensures Plan() == Advance(old(Plan()), target)
      ensures forall id :: id in entries ==> id in old(entries)
      ensures now == target && AllReached(now)
    {
      var was := entries;
      hide Agree, Named, OneEach, Mine, SlotsOf, AllPlaced, Ahead, DueOf, Rehomed, L.Reach;
      PlacedWithin(was, now);
      RehomedAll(was, now, target);
      EmptyAt(target);
      Refile(was, target);
      NamedFewer(timers, was, entries);
    }

    /** The stepping loop of `_advance_to`. */
    method StepTo(target: int) returns (ghost steps: int)
      requires Indexed() && Linked() && now <= target
      modifies this`now, this`near, this`levels, this`entries, timers
      ensures Indexed() && Linked()
      ensures Plan() == Advance(old(Plan()), target)
      ensures forall id :: id in entries ==> id in old(entries)
      ensures now == target && AllReached(target)
      ensures steps == target - old(now)
    {
      NothingDueYet(Plan());
      NoneReachedYet();
      steps := 0;
      while now < target
        invariant Indexed() && Linked()
        invariant old(now) <= now <= target && steps == now - old(now)
        invariant Plan() == Advance(old(Plan()), now)
        invariant forall id :: id in entries ==> id in old(entries)
        invariant AllReached(now)
      {
        AdvanceTwice(old(Plan()), now, now + 1);
        L.ReachTwice(now, now + 1);
        Step();
        steps := steps + 1;
      }
    }

    /** `_advance_to`.  `steps` counts the turns of the stepping loop, and `bulk`
        says the wheel was rebuilt instead. */
    method AdvanceTo(target: int) returns (ghost steps: int, ghost bulk: bool)
      requires Valid()
      modifies this`now, this`near, this`levels, this`entries, timers
      ensures Valid()
      ensures Plan() == Advance(old(Plan()), target)
      ensures AllReached(now)
      ensures bulk <==> target - old(now) >= NEAR_SIZE && target - old(now) > |old(entries)|
      ensures steps == if bulk || target <= old(now) then 0 else target - old(now)
      ensures steps < NEAR_SIZE || steps <= |old(entries)|
    {
      NothingDueYet(Plan());
      NoneReachedYet();
      steps, bulk := 0, false;
      var elapsed := target - now;
      if elapsed <= 0 {
      } else if elapsed >= NEAR_SIZE && elapsed > |entries| {
        bulk := true;
        Rebuild(target);
      } else {
        steps := StepTo(target);
      }
      ReachedStaySound(now);
    }

    /** `start`: a started wheel stays as it is, and a closed one is refused. */
    method Start(clock: int) returns (refusal: Option<Refusal>)
      requires Valid()
      modifies this`now, this`phase
      ensures Valid() && entries == old(entries)
      ensures refusal == if old(phase) == Closed then Some(WheelClosed) else None
      ensures if old(phase) == NotStarted
              then phase == Looking && Plan() == TimerPlan.Plan(clock, map[])
              else phase == old(phase) && now == old(now)
    {
      if phase == Closed {
        return Some(WheelClosed);
      }
      refusal := None;
      if phase == NotStarted {
        assert entries == map[];
        phase := Looking;
        now := clock;
      }
    }

    /** `_require_running` and `_delay_ticks`, in that order: what a call gets
        told before the wheel is touched. */
    function Refused(delayMs: int): Option<Refusal>
      reads this
    {
      if phase == Closed then Some(WheelClosed)
      else if phase == NotStarted then Some(WheelNotStarted)
      else match DelayTicks(delayMs)
        case Rejected(error) => Some(BadDelay(error))
        case Ticks(_) => None
    }

    /** All is well but for one armed timer that has no entry yet. */
    ghost predicate Awaits(timer: Timer)
      reads this, timers, timer
    {
      && Agree(timers - {timer}, entries) && Named(timers, entries) && OneEach(timers) && SoundTimers(timers)
      && Mine(timers, this, nextId)
      && timer in timers && timer.id !in entries && timer.active
    }

    /** `_insert` of a timer the wheel does not hold, between operations. */
    method Place(timer: Timer)
      requires Indexed() && Awaits(timer) && now < timer.deadline <= now + MAX_DELAY_TICKS
      modifies this`near, this`levels, this`entries
      ensures Indexed() && Linked() && AllSound()
      ensures entries == old(entries)[timer.id := Entry(timer.id, timer.deadline, timer.generation,
                                                        HomeFor(timer.deadline, now))]
    {
      InsertFits(timer.deadline, now);
      Insert(timer.id, timer.deadline, timer.generation, entries);
      assert entries - {timer.id} == old(entries) - {timer.id};
      AgreeAgain(timers, old(entries), entries, timer);
    }

    /** A new timer under the next id, with no entry yet; a driver with nothing to
        wait for is woken. */
    method Register(deadline: int) returns (timer: Timer)
      requires Indexed() && Linked() && AllSound()
      modifies this`nextId, this`phase, this`timers
      ensures Indexed() && Awaits(timer)
      ensures fresh(timer) && timers == old(timers) + {timer}
      ensures timer.id == old(nextId) && nextId == old(nextId) + 1 && timer.State() == L.Fresh(deadline)
      ensures phase == if old(phase) == Parked then Poked else old(phase)
    {
      timer := new Timer(this, nextId, deadline);
      nextId := nextId + 1;
      timers := timers + {timer};
      assert timers - {timer} == old(timers);
      if phase == Parked {
        phase := Poked;
      }
    }

    /** The second half of `create`: a new timer is entered at `deadline`. */
    method Admit(deadline: int) returns (timer: Timer)
      requires Valid() && !phase.NotStarted? && now < deadline <= now + MAX_DELAY_TICKS
      modifies this`near, this`levels, this`entries, this`nextId, this`phase, this`timers
      ensures Valid()
      ensures Desk() == Enter(old(Desk()), deadline)
      ensures fresh(timer) && timers == old(timers) + {timer}
      ensures timer.id == old(nextId) && timer.State() == L.Fresh(deadline)
    {
      timer := Register(deadline);
      Place(timer);
      DueWith(old(entries), entries[timer.id]);
    }

    /** `create`, the clock standing at tick `clock`. */
    method Create(delayMs: int, clock: int) returns (timer: Timer?, refusal: Option<Refusal>)
      requires Valid()
      modifies this`now, this`near, this`levels, this`entries, this`nextId, this`phase, this`timers, timers
      ensures Valid()
      ensures refusal == old(Refused(delayMs))
      ensures refusal.Some? <==> timer == null
      ensures refusal.Some? ==> AllUntouched() && Desk() == old(Desk())
      ensures refusal.None? ==>
                && fresh(timer) && timers == old(timers) + {timer}
                && Desk() == Make(old(Desk()), TimerPlan.Create(clock, DelayTicks(delayMs).ticks))
                && timer.id == old(nextId) && timer.State() == L.Fresh(now + DelayTicks(delayMs).ticks)
                && forall t :: t in old(timers) ==> t.State() == L.Reach(old(t.State()), now)
    {
      hide Agree, Named, OneEach, Mine, SoundTimers, AllPlaced, SlotsOf;
      refusal := Refused(delayMs);
      if refusal.Some? {
        return null, refusal;
      }
      var ticks := DelayTicks(delayMs).ticks;
      var _, _ := AdvanceTo(clock);
      CreateIsMake(old(Desk()), clock, ticks, Plan());
      timer := Admit(now + ticks);
    }

    /** `_reschedule`: the clock may reach the old deadline first, and then it is
        too late to reset. */
    method Reschedule(timer: Timer, delayMs: int, clock: int) returns (refusal: Option<Refusal>)
      requires Valid() && timer in timers && timer.active
      modifies this`now, this`near, this`levels, this`entries, timers
      ensures Valid()
      ensures old(Refused(delayMs)).Some? ==>
                refusal == old(Refused(delayMs)) && AllUntouched() && Desk() == old(Desk())
      ensures old(Refused(delayMs)).None? ==>
                && Desk() == Make(old(Desk()), TimerPlan.Reset(timer.id, clock, DelayTicks(delayMs).ticks))
                && refusal == (if old(timer.deadline) <= now then Some(NotActive) else None)
                && AllReachedBut(timer, now)
                && timer.State() == if refusal.None? then L.Rearm(old(timer.State()), now + DelayTicks(delayMs).ticks)
                                    else L.Reach(old(timer.State()), now)
    {
      hide Agree, Named, OneEach, Mine, SoundTimers, AllPlaced, SlotsOf;
      refusal := Refused(delayMs);
      if refusal.Some? {
        return;
      }
      var ticks := DelayTicks(delayMs).ticks;
      Known(timer);
      var _, _ := AdvanceTo(clock);
      Known(timer);
      if !timer.active {
        return Some(NotActive);
      }
      ghost var before := entries;
      assert timer.id in before;
      ghost var e := Entry(timer.id, now + ticks, timer.generation + 1, HomeFor(now + ticks, now));
      Replaced(before, timer.id, e);
      DueWith(before, e);
      TakeOut(timer, now + ticks);
      Place(timer);
    }

    /** `_reschedule` half way: the entry is taken out and the timer set to its
        next generation. */
    method TakeOut(timer: Timer, deadline: int)
      requires Indexed() && Linked() && AllSound() && timer in timers && timer.active
      modifies this`near, this`levels, this`entries, timer
      ensures Indexed() && Awaits(timer)
      ensures entries == old(entries) - {timer.id}
      ensures timer.State() == L.Rearm(old(timer.State()), deadline)
    {
      AgreeApart(timers, entries, timer);
      Remove(timer);
      timer.Rearm(deadline);
      SoundAgain(timers, timer);
    }

    /** `close` up to its wait for the driver: from here on every call is refused. */
    method BeginClose()
      requires Valid()
      modifies this`phase
      ensures Valid() && Desk() == old(Desk()) && phase == Closed
    {
      phase := Closed;
    }

    /** The loop of `close` over the entries it took out. */
    method CloseTimers(was: Bucket)
      requires Named(timers, was) && OneEach(timers)
      modifies timers
      ensures forall t :: t in timers ==>
                t.State() == if t.id in was then L.Close(old(t.State())) else old(t.State())
    {
      var todo := was.Keys;
      while todo != {}
        invariant todo <= was.Keys
        invariant forall t :: t in timers ==>
                    t.State() == if t.id in was && t.id !in todo then L.Close(old(t.State())) else old(t.State())
        decreases todo
      {
        var id :| id in todo;
        var timer :| timer in timers && timer.id == id;
        timer.Close();
        todo := todo - {id};
      }
    }

    /** `close` after the driver has gone: nothing is left in any bucket. */
    method FinishClose()
      requires Valid() && phase == Closed
      modifies this`near, this`levels, this`entries, timers
      ensures Valid()
      ensures Desk() == Make(old(Desk()), TimerPlan.Close)
      ensures forall home: Home :: Exists(home) ==> Buckets().At(home) == map[]
      ensures forall t :: t in timers ==>
                t.State() == if old(t.active) then L.Close(old(t.State())) else old(t.State())
    {
      var was := entries;
      var empty := SlotsOf(map[]);
      entries := map[];
      near, levels := empty.near, empty.levels;
      assert AllUntouched();
      CloseTimers(was);
    }

    /** The driver at the head of its loop: with no entries it waits to be poked,
        otherwise it sleeps for a tick. */
    method DriverLooks()
      requires Valid() && phase == Looking
      modifies this`phase
      ensures Valid() && Desk() == old(Desk())
      ensures phase == if entries == map[] then Parked else Sleeping
    {
      phase := if |entries| == 0 then Parked else Sleeping;
    }

    /** The driver wakes from a poke, or from its tick of sleep. */
    method DriverWakes(clock: int)
      requires Valid() && (phase == Sleeping || phase == Poked)
      modifies this`now, this`near, this`levels, this`entries, this`phase, timers
      ensures Valid() && phase == Looking
      ensures Desk() == if old(phase) == Sleeping then Make(old(Desk()), TimerPlan.Drive(clock)) else old(Desk())
      ensures AllReached(now)
    {
      if phase == Sleeping {
        hide Agree, Named, OneEach, Mine, SoundTimers, AllPlaced, SlotsOf, Ahead, DueOf, Advance, L.Reach;
        var _, _ := AdvanceTo(clock);
      } else {
        NoneReachedYet();
      }
      phase := Looking;
    }

    /** No timer is forgotten: while one is armed, the driver of a wheel that is not
        closed is about to look, asleep for a tick, or already poked. */
    lemma DriverKnows()
      requires Valid() && entries != map[]
      ensures phase in {Looking, Poked, Sleeping, Closed}
    {
      var id :| id in entries;
    }
  }

  /** The timers and the entries agree on who is armed, and for when. */
  ghost predicate Agree(timers: set<Timer>, entries: Bucket)
    reads timers
  {
    forall t :: t in timers ==>
      && (t.active <==> t.id in entries)
      && (t.active ==> entries[t.id].deadline == t.deadline && entries[t.id].generation == t.generation)
  }

  /** Every entry has its timer. */
  ghost predicate Named(timers: set<Timer>, entries: Bucket) {
    forall id :: id in entries ==> exists t :: t in timers && t.id == id
  }

  /** All timers are one wheel's, numbered below `nextId`. */
  ghost predicate Mine(timers: set<Timer>, wheel: TimerWheel, nextId: nat) {
    forall t :: t in timers ==> t.id < nextId && t.wheel == wheel
  }

  lemma NamedFewer(timers: set<Timer>, before: Bucket, after: Bucket)
    requires Named(timers, before) && forall id :: id in after ==> id in before
    ensures Named(timers, after)
  {
  }

  ghost predicate OneEach(timers: set<Timer>) {
    forall s, t :: s in timers && t in timers && s.id == t.id ==> s == t
  }

  ghost predicate SoundTimers(timers: set<Timer>)
    reads timers
  {
    forall t :: t in timers ==> L.Sound(t.State())
  }

  /** Without one timer, with or without its entry. */
  lemma AgreeApart(timers: set<Timer>, entries: Bucket, timer: Timer)
    requires Agree(timers, entries) && SoundTimers(timers) && OneEach(timers) && Named(timers, entries)
    ensures Agree(timers - {timer}, entries) && SoundTimers(timers - {timer})
    ensures timer in timers ==>
              L.Sound(timer.State()) && Agree(timers - {timer}, entries - {timer.id}) &&
                  Named(timers, entries - {timer.id})
  {
  }

  lemma SoundAgain(timers: set<Timer>, timer: Timer)
    requires SoundTimers(timers - {timer}) && L.Sound(timer.State())
    ensures SoundTimers(timers)
  {
    assert forall t :: t in timers && t != timer ==> t in timers - {timer};
  }

  /** Agreement is settled timer by timer: when one timer and its entry change,
      only they have to be looked at. */
  lemma AgreeAgain(timers: set<Timer>, before: Bucket, after: Bucket, timer: Timer)
    requires timer in timers && OneEach(timers) && Named(timers, before)
    requires Agree(timers - {timer}, before)
    requires timer.active <==> timer.id in after
    requires timer.active ==>
               after[timer.id].deadline == timer.deadline && after[timer.id].generation == timer.generation
    requires after - {timer.id} == before - {timer.id}
    ensures Agree(timers, after) && Named(timers, after)
  {
    assert forall t :: t in timers && t != timer ==> t in timers - {timer} && t.id != timer.id;
    assert forall id :: id != timer.id ==> (id in after <==> id in after - {timer.id});
    assert forall id :: id != timer.id ==> (id in before <==> id in before - {timer.id});
    assert forall id :: id in after && id != timer.id ==> after[id] == (after - {timer.id})[id] == before[id];
  }

  function StillAhead(entries: Bucket, now: int): Bucket {
    map id | id in entries && now < entries[id].deadline :: entries[id]
  }

  /** The current near slot holds exactly what is due now, so what is left when
      it is gone is still to come. */
  lemma NearIsDue(entries: Bucket, now: int)
    requires CascadedBelow(entries, now, LEVEL_COUNT)
    ensures var bucket := Living(entries, Home(NEAR, now % NEAR_SIZE));
            && (forall id :: id in entries ==> (id in bucket <==> entries[id].deadline == now))
            && entries - bucket.Keys == StillAhead(entries, now)
    ensures AllPlaced(StillAhead(entries, now), now)
  {
    forall id | id in entries
      ensures entries[id].home == Home(NEAR, now % NEAR_SIZE) <==> entries[id].deadline == now
    {
      if entries[id].home.level == NEAR {
        ExpireFinds(entries[id].home, entries[id].deadline, now);
      }
      if entries[id].deadline == now {
        DueIsNear(entries[id].home, now);
      }
    }
  }

  lemma SunkIsDue(before: Bucket, after: Bucket, now: int)
    requires AllSunk(before, after)
    ensures DueOf(StillAhead(after, now)) == Ahead(DueOf(before), now)
    ensures forall id :: id in StillAhead(after, now) ==> id in before
  {
  }

  lemma Replaced(entries: Bucket, id: nat, e: Entry)
    ensures (entries - {id})[id := e] == entries[id := e]
  {
  }

  lemma DueWith(entries: Bucket, e: Entry)
    ensures DueOf(entries[e.timerId := e]) == DueOf(entries)[e.timerId := Due(e.deadline, e.generation)]
  {
  }

  lemma DueGone(entries: Bucket, id: nat)
    ensures DueOf(entries - {id}) == DueOf(entries) - {id}
    ensures id !in entries ==> entries - {id} == entries
  {
  }

  lemma NothingDueYet(p: Plan)
    requires forall id :: id in p.due ==> p.now < p.due[id].deadline
    ensures forall tick :: tick <= p.now ==> Advance(p, tick) == p
  {
    assert Ahead(p.due, p.now) == p.due;
  }

  lemma TickKeepsAll(entries: Bucket, now: int)
    requires AllPlaced(entries, now)
    ensures CascadedBelow(entries, now + 1, 0)
    ensures (now + 1) % NEAR_SIZE != 0 ==> CascadedBelow(entries, now + 1, LEVEL_COUNT)
  {
    forall id | id in entries
      ensures Fits(entries[id].home, entries[id].deadline, now + 1, 0)
      ensures (now + 1) % NEAR_SIZE != 0 ==> Fits(entries[id].home, entries[id].deadline, now + 1, LEVEL_COUNT)
    {
      TickKeepsFit(entries[id].home, entries[id].deadline, now);
    }
  }

  /** Some of the entries, those still ahead of `target` placed from there. */
  function Rehomed(entries: Bucket, some: set<nat>, target: int): Bucket {
    map id | id in entries && id in some && target < entries[id].deadline ::
      entries[id].(home := HomeFor(entries[id].deadline, target))
  }

  lemma PlacedWithin(entries: Bucket, now: int)
    requires AllPlaced(entries, now)
    ensures forall id :: id in entries ==> entries[id].timerId == id && entries[id].deadline <= now + MAX_DELAY_TICKS
  {
  }

  lemma RehomeNone(entries: Bucket, target: int)
    ensures Rehomed(entries, {}, target) == map[]
  {
  }

  lemma RehomeOne(entries: Bucket, todo: set<nat>, id: nat, target: int)
    requires todo <= entries.Keys && id in todo
    ensures id !in Rehomed(entries, entries.Keys - todo, target)
    ensures Rehomed(entries, entries.Keys - (todo - {id}), target) ==
            if target < entries[id].deadline
            then Rehomed(entries, entries.Keys - todo, target)
                   [id := entries[id].(home := HomeFor(entries[id].deadline, target))]
            else Rehomed(entries, entries.Keys - todo, target)
  {
  }

  lemma RehomedAll(entries: Bucket, now: int, target: int)
    requires AllPlaced(entries, now) && now <= target
    ensures var after := Rehomed(entries, entries.Keys, target);
            && AllPlaced(after, target) && DueOf(after) == Ahead(DueOf(entries), target)
            && forall id :: id in after ==> id in entries
  {
    forall id | id in entries && target < entries[id].deadline
      ensures Placed(HomeFor(entries[id].deadline, target), entries[id].deadline, target)
    {
      InsertFits(entries[id].deadline, target);
    }
  }

  ghost predicate AllPlaced(entries: Bucket, now: int) {
    forall id :: id in entries ==>
      entries[id].timerId == id && Placed(entries[id].home, entries[id].deadline, now)
  }

  /** Levels below `level` have been cascaded for tick `now`, the rest not yet. */
  ghost predicate CascadedBelow(entries: Bucket, now: int, level: int) {
    forall id :: id in entries ==>
      && id == entries[id].timerId
      && now <= entries[id].deadline <= now + MAX_DELAY_TICKS
      && Fits(entries[id].home, entries[id].deadline, now, level)
  }

  /** The entries with some of them put back in at tick `now`. */
  function Moved(entries: Bucket, some: set<nat>, now: int): Bucket {
    map id | id in entries ::
      if id in some && now <= entries[id].deadline
      then entries[id].(home := HomeFor(entries[id].deadline, now)) else entries[id]
  }

  lemma MoveOne(before: Bucket, moving: set<nat>, todo: set<nat>, id: nat, now: int)
    requires todo <= moving <= before.Keys && id in todo && now <= before[id].deadline
    ensures var e := before[id].(home := HomeFor(before[id].deadline, now));
            && (Moved(before, moving - todo, now) - {id})[id := e] == Moved(before, moving - (todo - {id}), now)
            && (Moved(before, moving - todo, now) - todo)[id := e]
               == Moved(before, moving - (todo - {id}), now) - (todo - {id})
  {
  }

  /** Putting the current slot of a level back in takes the cascade one level up. */
  lemma CascadeMoves(entries: Bucket, now: int, level: int)
    requires 0 <= level < LEVEL_COUNT && now % SlotWidth(level) == 0
    requires CascadedBelow(entries, now, level)
    ensures var moving := Living(entries, Home(level, Block(level, now) % LEVEL_SIZE)).Keys;
            && Moved(entries, {}, now) == entries
            && AllSunk(entries, Moved(entries, moving, now))
            && CascadedBelow(Moved(entries, moving, now), now, level + 1)
            && (Block(level, now) % LEVEL_SIZE != 0 ==> CascadedBelow(Moved(entries, moving, now), now, LEVEL_COUNT))
  {
    var home := Home(level, Block(level, now) % LEVEL_SIZE);
    forall id | id in entries
      ensures entries[id].home == home ==>
                now <= entries[id].deadline < now + SlotWidth(level)
                && HomeFor(entries[id].deadline, now).level < level
                && Fits(HomeFor(entries[id].deadline, now), entries[id].deadline, now, level + 1)
      ensures entries[id].home != home ==> Fits(entries[id].home, entries[id].deadline, now, level + 1)
    {
      if entries[id].home.level == level {
        CascadeFinds(entries[id].home, entries[id].deadline, now, level);
      }
      if entries[id].home == home {
        InsertFits(entries[id].deadline, now);
        InsertBelow(entries[id].deadline, now, level);
      }
    }
    CascadeCarries(now, level);
  }

  ghost predicate AllSunk(before: Bucket, after: Bucket) {
    && after.Keys == before.Keys
    && forall id :: id in after ==> Sunk(before[id], after[id])
  }

  /** The same entry, either left where it was or moved to a lower level. */
  predicate Sunk(a: Entry, b: Entry) {
    && b.timerId == a.timerId && b.deadline == a.deadline && b.generation == a.generation
    && (b.home == a.home || b.home.level < a.home.level)
  }

  function DueOf(entries: Bucket): map<nat, Due> {
    map id | id in entries :: Due(entries[id].deadline, entries[id].generation)
  }
}
