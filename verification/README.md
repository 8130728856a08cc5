# Bazaar compute: models and proofs

A Dafny model of the parts of the Bazaar compute node and server that keep state
over time, and proofs of what they promise. `dafny verify dfyconfig.toml` checks
the whole project.

## What is modelled

**The timing wheel** (`WheelLayout`, `TimerLife`, `TimerPlan`, `TimerWheel`). The
index of 256 near slots and four levels of 64 is a class with its real buckets,
entries and timers. Beside it stands the trivial thing it must agree with: a plan,
which is the current tick and a map from timer id to deadline and generation.
`WheelLayout` is the arithmetic of slots and blocks, `TimerPlan` the plan and what
calls do to it, `TimerLife` the state of one timer. Every method of the wheel is
proved to change the plan exactly as its call says, and to keep every entry in the
one bucket its record names. `_rebuild` and the stepping loop have the same
contract, `Plan() == Advance(old(Plan()), target)`, which is what makes the fast path
equal to the slow one; each is proved on its own.

**Requests to a computer** (`PollBatches`, `ControlSteps`, `Controls`), **one provider
connection** (`ClientSteps`, `Client`), **the event stream of a turn** (`EventSteps`,
`EventStream`) and **changes to agents** (`AgentSteps`, `Agents`). These are protocols
of tasks that suspend. Each has a value `State`, one function for every stretch of
code between two places where a task may be parked, an invariant `Sound`, and a
theorem over every run of steps in any order. Beside it, a class with the source's
fields has one method per stretch, and each method's `ensures` ties it to its step:
`View() == Step(old(View()))`. Of the steps themselves it is proved what they must not
do, by invariants, and what they must bring about: an answer reaches who asked, a turn
that closes makes room, an updated agent comes up again. Fields that are `ghost` record where tasks are parked
and what was handed out; the code does not read them.

**Reminder rules** (`RepeatRules`, `TimeZones`, `CalendarSlots`): the parser of rules
and durations, their canonical text, and the search for the next slot in a zone given
as a table of offset changes.

**Agent pages** (`AgentKeys`, `AgentList`), **runtime selection** (`RuntimeChoice`) and
**draining** (`Draining`): each loop is a method proved against a function of its
inputs, and what the code promises is proved of that function.

## What the code does that its words do not say

* The plan `plans/2026-08-14-runtime-session-idle-timeout.md:85-117` says a timer never
  fires before the requested time. The clock is read inside a tick and the fraction is
  dropped, so it can be up to 9 ms early: `TimerPlan.NeverEarlyIff` and, after a reset,
  `ResetNeverEarlyIff` say exactly when it is not, `EarlyExpiryExample` gives one that is.
* The same plan says a timer can be reset and used again after it has expired, and that
  `wait` discards a wake-up of an older generation. In the code `reset` refuses a timer
  that is not active (`core/timerwheel.py:75-78`), so neither happens; the model follows
  the code.
* `_next_calendar_slot` raises "could not find a next slot" for a rule of one weekday when
  the clock has been put back across midnight from that day, past its slot.
  `CalendarSlots.NotFoundIff` is the exact condition, `EightDaysAreNotAlwaysEnough` an
  example, and `EightDaysSuffice` the case of zones that never do this.
* `check_messages` lists at most 100 messages and moves the cursor to the last one of all:
  what is over is never handed out. `Draining.ExactIffNeverOverrun` says a conversation
  is drained exactly if and only if no check ever finds more than 100 unread;
  `BurstIsExactIff` is a run that begins empty, for every number of messages.
* A stream whose turn failed to open promises a single terminal. If the owner's
  `on_unusable` raises while it is told of the failure, the next pull may read messages and
  hand out events with no start (`EventSteps.UnreportedOpeningLosesItsShape`). The shape
  survives everything that may follow if and only if the stream had been closed by then:
  `EventSteps.ShapeSurvivesIff`.
* `add_agent` asks only whether an id is configured. Under the id of an agent that is
  being let go, a direct call starts a second instance, which the end of the removal
  strikes off the list while it runs: `AgentSteps.AddingUnderAnOldIdCrosses`. Whatever is
  up stays listed in every run from there if and only if no instance is listed under the
  new agent's id (`AgentSteps.UpListedSurvivesIff`), which holds through `write_agent`: a
  new agent gets a new id.
* Failures recorded in the same millisecond can break the turn-taking among banned
  runtimes. Within a ban and n rounds, rounds pick different runtimes if and only if there
  is no tie before any of them: all that were not picked stand banned to one time, and an
  earlier runtime that was picked is banned to that time too (`RuntimeChoice.ReturnsIff`
  for one round, `AllDifferIff` for all). `RepeatsIff` is the case of two rounds in a row.
  `TiesBreakTurns` is a run that picks one runtime twice in a row, `TiesSkipOne` one in
  which a runtime of three misses its turn.
* The recheck in `materialize_outbound_if_fresh` can contradict itself for a negative
  snapshot only: `Draining.RecheckAgreesIff`.

## How things are represented

* Time is an integer read from outside, in milliseconds or in ticks of 10 ms.
* An entry of the wheel names its timer by id; the timer is found among the wheel's
  timers. `phase` stands for `_started`, `_closed`, the driver task and its poke;
  `waiter` for `_waiting` and `_waiter`. Entries of one bucket have no order.
* In `_expire_near` the index loses its entries together rather than one by one; nothing
  looks in between.
* A reader cancelled by `Client.close` may drop the message it has numbered. `drops` counts
  these, and exact routing is stated while it is 0, which is until the client is closed.
* A zone's changes come in order, on whole minutes, and none moves the clock by more than
  a day or overlaps the next (`Usable`). Python reads no number of more than 4300 digits;
  the parser's error for it is modelled.
* Computers come in id order and a computer's agents in id order, as `list_computers` and
  the sort in `_computer_view` provide; both are read from one snapshot.
* A check of several conversations is one step that fails as a whole, because the storage
  runs `check_messages` in a transaction.
* In the pages, selection and storage modules, and in the classes of the step protocols,
  objects the source refers to (requests, inboxes, agent instances) are named by number.

## Model

| member | source | states |
|---|---|---|
| WheelLayout.LevelSpansDelta | src/bazaar_compute_node/core/timerwheel.py:293-306 | for every accepted delta beyond the near slots, the level computed by bit length is already 0 to 3, so the clamp changes nothing, and it is the one whose slots the delta reaches past and whose 64 slots reach past the delta |
| WheelLayout.LevelUnique | src/bazaar_compute_node/core/timerwheel.py:293-306 | no other level satisfies that |
| WheelLayout.InsertFits | src/bazaar_compute_node/core/timerwheel.py:293-309 | a new entry obeys the placement rule: near entries 1 to 255 ticks ahead, a level entry 1 to 64 blocks ahead |
| WheelLayout.InsertBelow | src/bazaar_compute_node/core/timerwheel.py:257-267 | an entry put back by a cascade goes to a strictly lower level |
| WheelLayout.TickKeepsFit | src/bazaar_compute_node/core/timerwheel.py:236-240 | one tick on, no entry has to move unless a 256-tick boundary is crossed |
| WheelLayout.CascadeFinds | src/bazaar_compute_node/core/timerwheel.py:257-267 | the slot a cascade empties holds the entries of the current block and no others, and what stays fits the new tick |
| WheelLayout.CascadeCarries | src/bazaar_compute_node/core/timerwheel.py:257-267 | slot 0 comes up exactly when the level above turns over, so the order of the cascade is right |
| WheelLayout.ExpireFinds | src/bazaar_compute_node/core/timerwheel.py:269-278 | the near slot of a tick holds what is due at that tick and nothing else: the re-insert branch is never taken |
| WheelLayout.DueIsNear | src/bazaar_compute_node/core/timerwheel.py:236-240 | after the cascade, an entry due now is nowhere but in the near slot of this tick |
| TimerLife.ExpiresAtMostOnce | src/bazaar_compute_node/core/timerwheel.py:75-131 | over every run of what can happen to a timer it expires at most once, and never after cancel or close |
| TimerLife.NobodyWaitsForNothing | src/bazaar_compute_node/core/timerwheel.py:80-131 | a task is parked in `wait` only while the timer can still expire |
| TimerLife.ConsumedOnce | src/bazaar_compute_node/core/timerwheel.py:91-115 | an expiry is handed to one waiter: later waits raise |
| TimerLife.ToldOfTheFirst | src/bazaar_compute_node/core/timerwheel.py:80-131 | over every run a parked task is told of the first of an expiry at the deadline that stands, a cancel, a close and its own cancellation |
| TimerLife.WokenTakesTheExpiry | src/bazaar_compute_node/core/timerwheel.py:105-108 | a task woken by an expiry consumes it, and whatever follows no other wait gets it |
| TimerLife.AbandonedIsCancelled | src/bazaar_compute_node/core/timerwheel.py:109-115 | a wait cancelled while the timer is armed cancels it: over every further run it never expires, and every wait raises |
| TimerLife.InterruptedLeavesTheExpiry | src/bazaar_compute_node/core/timerwheel.py:109-115 | a task cancelled once the timer had met its end changes nothing of it, and leaves an expiry for another wait |
| TimerLife.ExpiresAtDeadline | src/bazaar_compute_node/core/timerwheel.py:117-131 | a timer expires when its deadline is reached and no sooner, also after a reset; a later wait gets the expiry, once |
| TimerLife.EndsAtOnce | src/bazaar_compute_node/core/timerwheel.py:80-103 | one task may wait on an armed timer; a cancel and a close end it, and later waits raise the error that says which |
| TimerPlan.DelayAccepted | src/bazaar_compute_node/core/timerwheel.py:320-328 | exactly the delays from 0 to the advertised maximum are taken |
| TimerPlan.DeadlineError | src/bazaar_compute_node/core/timerwheel.py:203-210 | the deadline `create` gives lies less than a tick before the delay asked for and less than a tick after it |
| TimerPlan.NeverEarlyIff | src/bazaar_compute_node/core/timerwheel.py:320-328 | the delay of a new timer is waited out in full if and only if rounding it up covers the fraction of a tick already gone |
| TimerPlan.ResetNeverEarlyIff | src/bazaar_compute_node/core/timerwheel.py:280-291 | the same condition decides it for a timer that is reset before its deadline is reached |
| TimerPlan.EarlyExpiryExample | src/bazaar_compute_node/core/timerwheel.py:203-210 | a timer of 10 ms that is due after 1 ms |
| TimerPlan.TimersAreIndependent | src/bazaar_compute_node/core/timerwheel.py:203-210 | over every run, what the plan holds for an id is what that timer's own calls and the clock make of it |
| TimerPlan.ExpiresWhenReached | src/bazaar_compute_node/core/timerwheel.py:229-240 | a timer nobody touches is in the plan, unchanged, until its deadline is reached and gone from then on, whatever is done to the others |
| TimerPlan.GoneStaysGone | src/bazaar_compute_node/core/timerwheel.py:203-210 | an id out of the plan never returns |
| TimerPlan.WalkIsOneJump | src/bazaar_compute_node/core/timerwheel.py:229-255 | any walk through ticks leaves what one jump to the furthest leaves |
| TimerWheel.NearIsDue | src/bazaar_compute_node/core/timerwheel.py:269-278 | emptying the current near slot leaves exactly the entries still ahead |
| TimerWheel.CascadeMoves | src/bazaar_compute_node/core/timerwheel.py:257-267 | putting a level's current slot back in takes the placement rule one level up |
| TimerWheel.RehomedAll | src/bazaar_compute_node/core/timerwheel.py:242-255 | what a rebuild puts back is placed right for the target tick |
| TimerWheel.TimerWheel.Insert | src/bazaar_compute_node/core/timerwheel.py:293-309 | the entry is in the bucket its delta picks and in the index, all else as before |
| TimerWheel.TimerWheel.Remove | src/bazaar_compute_node/core/timerwheel.py:311-318 | the timer's entry is out of its bucket and of the index, all else as before |
| TimerWheel.TimerWheel.Cascade | src/bazaar_compute_node/core/timerwheel.py:257-267 | every level is settled for the tick, and no entry has moved up |
| TimerWheel.TimerWheel.ExpireNear | src/bazaar_compute_node/core/timerwheel.py:269-278 | exactly the timers due at this tick expire |
| TimerWheel.TimerWheel.Step | src/bazaar_compute_node/core/timerwheel.py:236-240 | one turn of the loop advances the plan by a tick, and each timer that expires has that tick as its deadline |
| TimerWheel.TimerWheel.Rebuild | src/bazaar_compute_node/core/timerwheel.py:242-255 | the fast path advances the plan to the target and expires exactly what is due by then |
| TimerWheel.TimerWheel.AdvanceTo | src/bazaar_compute_node/core/timerwheel.py:229-240 | whichever path is taken, exactly the timers due by the target expire and the rest are untouched; the loop turns at most max(255, number of entries) times |
| TimerWheel.TimerWheel.Create | src/bazaar_compute_node/core/timerwheel.py:203-213 | a refused call changes nothing; otherwise the clock is caught up and one timer is added under a new id |
| TimerWheel.TimerWheel.Reschedule | src/bazaar_compute_node/core/timerwheel.py:280-291 | the timer moves to its new deadline and generation, unless the clock reached the old one first |
| TimerWheel.Timer.Reset | src/bazaar_compute_node/core/timerwheel.py:75-78 | a timer that is not active, or a wheel that refuses, leaves everything unchanged |
| TimerWheel.Timer.Cancel | src/bazaar_compute_node/core/timerwheel.py:80-89 | the timer leaves the plan and the index, and its waiter is told |
| TimerWheel.Timer.EndWait | src/bazaar_compute_node/core/timerwheel.py:91-115 | the wait of a timer still armed cancels it and takes it out of the plan, an expiry that woke the task is consumed, and nothing else changes |
| TimerWheel.TimerWheel.FinishClose | src/bazaar_compute_node/core/timerwheel.py:179-198 | every bucket is empty and every active timer closed |
| TimerWheel.TimerWheel.DriverKnows | src/bazaar_compute_node/core/timerwheel.py:215-227 | while a timer is armed the driver is about to look, asleep for a tick, or poked |
| PollBatches.BatchIsPrefix | src/bazaar_compute_server/control.py:138-145 | a batch is the first live requests past the offset, in id order, none skipped |
| PollBatches.DrainIsAll | src/bazaar_compute_server/control.py:121-145 | polling on from the last id received yields every request past the offset once, in order |
| ControlSteps.RunsAreSound | src/bazaar_compute_server/control.py:57-171 | over every interleaving: both tables hold the same unanswered requests, each with a waiter; a held poll that nobody woke has nothing pending; no id is given out twice |
| ControlSteps.NothingSkipped | src/bazaar_compute_server/control.py:121-145 | over every interleaving, a computer that polls from the last id it received, from an offset the clock is past, is handed its own requests only, in id order, none twice; none still out was passed over, and when a poll would find nothing it has had them all |
| ControlSteps.WaitsOn | src/bazaar_compute_server/control.py:68-87 | an asker waits on one request for as long as it waits |
| ControlSteps.AnswersAreReported | src/bazaar_compute_server/control.py:164-171 | an answer comes from a report, in that run, by the computer the request is for |
| ControlSteps.OwnAnswerOnly | src/bazaar_compute_server/control.py:57-93 | over every interleaving, an asker waits on a request of its own key, and is given what that computer reported for its id, or nothing |
| ControlSteps.AnswerReachesAskers | src/bazaar_compute_server/control.py:82-87 | a report that is taken is what every asker of that request is given, whatever happens before its wait ends |
| ControlSteps.LastAskerForgets | src/bazaar_compute_server/control.py:90-93 | an asker whose wait ends is gone and the others stay; a request without an answer stays out if and only if one of them still waits |
| ControlSteps.AskedAfresh | src/bazaar_compute_server/control.py:68-81 | once its callback has run an answered request stays off both tables, and who asks the same again is put on a new one |
| ControlSteps.OthersKeepTheRequest | src/bazaar_compute_server/control.py:82-93 | one asker giving up leaves the request out, and an answer to it still taken, for the others |
| ControlSteps.LateAnswerIsNothing | src/bazaar_compute_server/control.py:164-171 | once a request is answered or off its list, a report of it changes nothing, at any later point of any run |
| ControlSteps.HeldPollMissesNothing | src/bazaar_compute_server/control.py:121-136 | a poll still held and not woken has been shown everything |
| ControlSteps.HeldPollIsWoken | src/bazaar_compute_server/control.py:72-81 | a poll that finds nothing is held, and a request made of its computer wakes it and is what it is handed, if its offset is below |
| ControlSteps.WokenStaysWoken | src/bazaar_compute_server/control.py:121-136 | a poll once woken may run on at any later time until it does |
| ControlSteps.CloseLetsGo | src/bazaar_compute_server/control.py:148-154 | over every run after a close every held poll may end, is handed nothing, and none is held again |
| ControlSteps.NothingKept | src/bazaar_compute_server/control.py:82-93 | when no task waits and no callback is due, no request is kept |
| Controls.Controls.Ask | src/bazaar_compute_server/control.py:57-81 | a request already out is joined, a new one listed under a higher id and its polls woken |
| Controls.Controls.EndAsk | src/bazaar_compute_server/control.py:82-93 | the last to give up takes the request off both tables; a wait that is done gives the answer that was reported, another gives none |
| Controls.Controls.Report | src/bazaar_compute_server/control.py:164-171 | an answer is kept once, and only for a request that computer has out |
| Controls.Controls.BeginPoll | src/bazaar_compute_server/control.py:121-136 | what is pending is returned, and only an empty-handed poll is held |
| Controls.Controls.EndPoll | src/bazaar_compute_server/control.py:121-136 | a woken poll returns what is pending now |
| ClientSteps.RunsAreSound | src/bazaar_compute_node/contrib/claude/client.py:242-272 | over every interleaving of reader, opens and closes, failed and cancelled ones included: no transition is missing, an inbox is attached exactly in the foreground states, marks are never cleared, nothing given is taken back |
| ClientSteps.RoutedFromMinimum | src/bazaar_compute_node/contrib/claude/client.py:412-432 | in every run an inbox holds precisely the messages numbered from its minimum on among those routed while it was attached, in order |
| ClientSteps.ExactRouting | src/bazaar_compute_node/contrib/claude/client.py:412-432 | while no numbered message was dropped, an inbox holds precisely the messages from its minimum to the last one routed before it closed, with no gap |
| ClientSteps.SpansApart | src/bazaar_compute_node/contrib/claude/client.py:412-432 | no message reaches two inboxes |
| ClientSteps.NoTransitionMissing | src/bazaar_compute_node/contrib/claude/client.py:38-126 | every event the client may raise in a reachable state has an entry in the table |
| ClientSteps.TransitionTurns | src/bazaar_compute_node/contrib/claude/client.py:38-126 | every entry of the table turns the one fact its event is about, foreground or provider awake, and leaves the other |
| ClientSteps.AdoptedIff | src/bazaar_compute_node/contrib/claude/client.py:412-432 | in every run the cycle is a provider wake exactly while the last message that starts or finishes one started it, and a turn is marked as adopting a wake if and only if the provider was awake when it was attached or woke before it was detached |
| ClientSteps.RoutedAsRead | src/bazaar_compute_node/contrib/claude/client.py:298-348 | over every interleaving without a dropped message, what is routed, and the one waiting for it, are the messages read, in order |
| ClientSteps.OpeningIsSeated | src/bazaar_compute_node/contrib/claude/client.py:242-266 | an opening over an attached turn leaves no trace, any other is attached, empty, due from the next number on, and holds the lock |
| ClientSteps.OnlyTheSenderHolds | src/bazaar_compute_node/contrib/claude/client.py:242-266 | the lock is let go by the end or the cancellation of the send and by no other step; a cancelled opening goes on to close its inbox |
| ClientSteps.OnlyItsCloseDetaches | src/bazaar_compute_node/contrib/claude/client.py:268-272 | an inbox is detached by the close of its own turn and by no other step |
| ClientSteps.ClosedForGood | src/bazaar_compute_node/contrib/claude/client.py:268-272 | closing an attached turn takes it out of the foreground and makes room for the next; over every further run it is never attached again nor given anything; closing another turn changes neither |
| ClientSteps.FailureArrives | src/bazaar_compute_node/contrib/claude/client.py:440-443 | a failure is put in the attached inbox after all that is there, and stays over every further run |
| ClientSteps.TakenInOrder | src/bazaar_compute_node/contrib/claude/client.py:139-143 | over every interleaving a turn takes the items of its inbox in the order they were put in, none twice and none left out |
| Client.Client.Attach | src/bazaar_compute_node/contrib/claude/client.py:242-266 | an open over an attached turn is refused; otherwise the inbox starts at the next message and the lock is held |
| Client.Client.FinishClose | src/bazaar_compute_node/contrib/claude/client.py:268-272 | an attached inbox is detached and the cycle leaves the foreground; another close changes neither |
| Client.Client.Route | src/bazaar_compute_node/contrib/claude/client.py:412-432 | wakes turn the cycle before and after, and the message is given to the attached inbox if it is due there |
| EventSteps.RunsAreSound | src/bazaar_compute_node/contrib/claude/events.py:90-143 | over every run of pulls, messages, claims, raising callbacks, cancellations and closes the invariant holds and nothing handed out is taken back |
| EventSteps.EveryStreamIsShaped | src/bazaar_compute_node/contrib/claude/events.py:90-143 | started first, or one terminal when opening failed; at most one terminal, last; unless the owner raised while it was told that an open stream had failed to open |
| EventSteps.ShapeSurvivesIff | src/bazaar_compute_node/contrib/claude/events.py:90-109 | when it raises there, every continuation keeps the shape if and only if the stream had been closed |
| EventSteps.UnreportedOpeningLosesItsShape | src/bazaar_compute_node/contrib/claude/events.py:90-109 | a run from the start that loses the shape |
| EventSteps.ResultEndsTheTurn | src/bazaar_compute_node/contrib/claude/events.py:282-369 | a result that is claimed, on a turn that adopted a wake or not, hands out its usage and then the terminal it calls for, and the owner is called once |
| EventSteps.SaysWhatWasHeard | src/bazaar_compute_node/contrib/claude/events.py:110-187 | over every run, what is handed out and what waits to be say exactly what the well-formed messages of the session said, in order, nothing lost and nothing twice |
| EventSteps.CompletedIsEarned | src/bazaar_compute_node/contrib/claude/events.py:282-369 | over every run of a turn that opened, a completed terminal is handed out only for a result of the turn that did not fail and a claim granted after it, a failed one only for one that did, a cancelled one never |
| EventSteps.DerailedEndsUnknown | src/bazaar_compute_node/contrib/claude/events.py:110-187 | a message of a wrong or missing session, a malformed message or result, or a reset ends the turn as unknown once the owner was told, and hands out nothing else |
| EventSteps.CaughtEndsUnknown | src/bazaar_compute_node/contrib/claude/events.py:110-132 | so does an error caught while a message is read, and usage that cannot be read |
| EventSteps.ToldEnds | src/bazaar_compute_node/contrib/claude/events.py:100-132 | a turn that failed to open ends with the terminal it failed with, another as unknown; the owner is called once |
| EventSteps.UncaughtEndsThePull | src/bazaar_compute_node/contrib/claude/events.py:90-132 | any other failure ends the pull alone |
| EventSteps.PassedOverReadsOn | src/bazaar_compute_node/contrib/claude/events.py:110-187 | a refused result, the result of another and a message that says nothing leave the turn reading, unless it was closed |
| EventSteps.PullGoesOn | src/bazaar_compute_node/contrib/claude/events.py:90-113 | a pull is over at once if and only if the stream is closed or ended; otherwise it hands out the first that waits, starts the turn, or receives |
| EventSteps.ClosingEnds | src/bazaar_compute_node/contrib/claude/events.py:137-143 | after a close at most one more event is handed out, none if no pull was under way, and the owner is called |
| EventSteps.NothingAfterTerminal | src/bazaar_compute_node/contrib/claude/events.py:90-143 | whatever happens after its terminal, a stream hands out nothing more |
| EventSteps.ClosedOnce | src/bazaar_compute_node/contrib/claude/events.py:535-561 | the closed callback is called at most once, and once exactly after a terminal or a completed `aclose`; a closed stream hands out at most one more event |
| EventStream.TurnEventStream.Next | src/bazaar_compute_node/contrib/claude/events.py:90-113 | what is returned is what is appended to the stream |
| EventStream.TurnEventStream.OnMessage | src/bazaar_compute_node/contrib/claude/events.py:110-187 | a message becomes its events, an error report, a reset or a claim, and its first event is returned |
| EventStream.TurnEventStream.OnClaim | src/bazaar_compute_node/contrib/claude/events.py:282-369 | a granted result ends the turn after its usage, a refused one reads on |
| EventStream.TurnEventStream.OnTold | src/bazaar_compute_node/contrib/claude/events.py:100-132 | once the owner was told, the turn ends with the terminal its report calls for |
| EventStream.TurnEventStream.OnNotTold | src/bazaar_compute_node/contrib/claude/events.py:90-132 | a failure to tell the owner is itself told only inside the mapping of a message |
| EventStream.TurnEventStream.AClose | src/bazaar_compute_node/contrib/claude/events.py:137-143 | the owner is told exactly when no terminal was reached |
| AgentSteps.RunsAreSound | src/bazaar_compute_node/app/application.py:561-668 | over every interleaving of changes, starts, failures and stops, agents being taken in under ids that are not listed, the invariant holds |
| AgentSteps.OneInstance | src/bazaar_compute_node/app/application.py:618-668 | in every run an agent has at most one instance that is not over |
| AgentSteps.UpRunsWhatIsWritten | src/bazaar_compute_node/app/application.py:290-351 | in every run an instance coming up or up is the listed one and runs the configuration last written |
| AgentSteps.RefusedIffUnderWay | src/bazaar_compute_node/app/application.py:657-668 | a change is refused if and only if a start or another change of that agent is under way, and a change not taken changes nothing |
| AgentSteps.StartsAlone | src/bazaar_compute_node/app/application.py:618-635 | an agent is never started twice, nor beside an instance that is left |
| AgentSteps.UpdateComesUp | src/bazaar_compute_node/app/application.py:584-616 | an update of an agent that is up: whatever goes on meanwhile, once its instance has stopped it is started from what was written, and when its adapters load and it comes up it is the one instance of the agent, up, with that configuration, and may be changed again |
| AgentSteps.UpdateStarts | src/bazaar_compute_node/app/application.py:584-616 | an update of an agent that is down starts it at once |
| AgentSteps.AddStarts | src/bazaar_compute_node/app/application.py:561-582 | so does taking one in |
| AgentSteps.StartComesUp | src/bazaar_compute_node/app/application.py:290-351 | whatever goes on meanwhile, a start whose adapters load and whose instance comes up leaves the agent up with what is written, its success on record |
| AgentSteps.StopEnds | src/bazaar_compute_node/app/application.py:746-766 | a stop that is over leaves its instance over and off the list, and the agent is started from what was written, unless the change was a removal or was cancelled: then it is down |
| AgentSteps.NotLoadedIsDown | src/bazaar_compute_node/app/application.py:318-342 | a start whose adapters do not load leaves the agent down, its failure on record unless it was cancelled |
| AgentSteps.FailedIsDown | src/bazaar_compute_node/app/application.py:318-342 | a start that fails later takes its instance off the list, and after the clean-up the same holds, the instance being over |
| AgentSteps.RemoveIsGone | src/bazaar_compute_node/app/application.py:637-655 | whatever goes on meanwhile, once its instance has stopped a removed agent is neither written, listed nor starting, and every instance of it is over |
| AgentSteps.DoneIff | src/bazaar_compute_node/app/application.py:561-668 | which changes are taken, and which fail for their configuration or their write |
| AgentSteps.AddKeepsIff | src/bazaar_compute_node/app/application.py:561-582 | taking an agent in keeps the invariant if and only if no instance is listed under its id |
| AgentSteps.UpListedSurvivesIff | src/bazaar_compute_node/app/application.py:561-582 | after an agent is taken in, every continuation keeps each instance that is coming up or up listed and on what is written, if and only if no instance is listed under the id it was taken in under |
| AgentSteps.AddingUnderAnOldIdCrosses | src/bazaar_compute_node/app/application.py:746-766 | a direct `add_agent` during a removal leaves an instance running unlisted |
| Agents.NodeApplication.WriteAgent | src/bazaar_compute_node/app/application.py:383-435 | the outcome, and that any but success leaves the node as it was |
| Agents.NodeApplication.UpdateAgent | src/bazaar_compute_node/app/application.py:584-616 | checks in order, the write, then the stop or the start |
| Agents.NodeApplication.RemoveAgent | src/bazaar_compute_node/app/application.py:637-655 | checks in order, the write, then the stop |
| Agents.NodeApplication.EndStop | src/bazaar_compute_node/app/application.py:746-766 | the instance is over and off the list, and an update that was not cancelled is being started with what it wrote |
| Agents.NodeApplication.OnCleaned | src/bazaar_compute_node/app/application.py:318-342 | a start that failed is over, its failure recorded unless it was cancelled |
| Agents.NodeApplication.OnUp | src/bazaar_compute_node/app/application.py:290-351 | what has come up is listed and runs what is written |
| RepeatRules.RuleRoundTrip | src/bazaar_compute_node/core/reminder_schedule.py:121-164 | the canonical text of every accepted rule parses to the very same recurrence, which passes its own checks |
| RepeatRules.DurationRoundTrip | src/bazaar_compute_node/core/reminder_schedule.py:103-118 | the same for durations, which are at least a minute |
| RepeatRules.CountIsRead | src/bazaar_compute_node/core/reminder_schedule.py:103-137 | a count of m, h or d is that many times 60000, 3600000 or 86400000 ms, in a duration as in a rule, and 0 is refused |
| RepeatRules.DailyIsRead | src/bazaar_compute_node/core/reminder_schedule.py:138-164 | a daily rule is for the hour and minute its four digits say, or is refused when there is no such time |
| RepeatRules.WeeklyIsFor | src/bazaar_compute_node/core/reminder_schedule.py:138-164 | a weekly rule is for exactly the weekdays it names, Monday being 0, at the time its digits say |
| RepeatRules.MalformedIff | src/bazaar_compute_node/core/reminder_schedule.py:121-164 | a text is malformed if and only if it has none of the three forms |
| RepeatRules.LeadingZerosForgotten | src/bazaar_compute_node/core/reminder_schedule.py:121-137 | leading zeros make no difference |
| RepeatRules.WeekdayOrderForgotten | src/bazaar_compute_node/core/reminder_schedule.py:138-164 | the order of weekdays and repeats make no difference |
| RepeatRules.SplitJoin | src/bazaar_compute_node/core/reminder_schedule.py:138-164 | splitting a joined list of names gives the names |
| TimeZones.ShownIff | src/bazaar_compute_node/core/reminder_schedule.py:276-278 | a local time survives the round trip exactly when no change has skipped it |
| TimeZones.FirstReading | src/bazaar_compute_node/core/reminder_schedule.py:263-266 | of the instants that show a local time, the one with fold 0 is the first |
| TimeZones.ReadingsInOrder | src/bazaar_compute_node/core/reminder_schedule.py:263-266 | first readings keep the order of local time |
| TimeZones.SearchSettles | src/bazaar_compute_node/core/reminder_schedule.py:263-273 | stepping by minutes ends within a day on the first local time that exists |
| CalendarSlots.ResolveLocal | src/bazaar_compute_node/core/reminder_schedule.py:263-273 | the loop finds that local time |
| CalendarSlots.NextCalendarSlot | src/bazaar_compute_node/core/reminder_schedule.py:239-260 | the loop over eight days is the search the lemmas are about |
| CalendarSlots.SlotSettles | src/bazaar_compute_node/core/reminder_schedule.py:254-256 | a slot inside a gap is moved to the first existing local time, none is passed over |
| CalendarSlots.SlotIsAsked | src/bazaar_compute_node/core/reminder_schedule.py:254-273 | in terms of the rule's hour and minute: a clock in the zone shows exactly them at the slot of a day, or, if they are skipped, the first local time after them that is not; and the slot is the first instant that shows it |
| CalendarSlots.FoundShowsTheTime | src/bazaar_compute_node/core/reminder_schedule.py:239-260 | the same of what the search finds, on a day the rule falls on |
| CalendarSlots.FallsIff | src/bazaar_compute_node/core/reminder_schedule.py:249-253 | a rule falls on a day if it is daily or lists the day's weekday, day 4 being a Monday |
| CalendarSlots.SearchFindsNext | src/bazaar_compute_node/core/reminder_schedule.py:239-260 | what is found is after the timestamp, is a slot of the rule, and no slot of the rule on any day lies between; a gap is never too long |
| CalendarSlots.NotFoundIff | src/bazaar_compute_node/core/reminder_schedule.py:260 | nothing is found if and only if the rule is for tomorrow's weekday alone and its slot tomorrow is already past |
| CalendarSlots.EightDaysSuffice | src/bazaar_compute_node/core/reminder_schedule.py:247-260 | where no repeated stretch crosses midnight the search always succeeds |
| CalendarSlots.EightDaysAreNotAlwaysEnough | src/bazaar_compute_node/core/reminder_schedule.py:260 | a zone, a rule and a moment for which it does not |
| AgentKeys.KeyReadsBack | src/bazaar_compute_server/fleet.py:174-176 | a key reads back from its text if and only if its computer id has no slash |
| AgentKeys.KeyOfCuts | src/bazaar_compute_server/fleet.py:174-176 | any text is cut at its first slash, and without one is all computer id |
| AgentKeys.LessIff | src/bazaar_compute_server/fleet.py:131-144 | texts compare by the first character in which they differ, the shorter first |
| AgentList.AgentPage | src/bazaar_compute_server/fleet.py:114-171 | the nested loop over batches, computers and agents returns exactly the page of the flat list: the first 50 past the cursor, or all up to the stop, and whether any remain |
| AgentList.NothingBeforeCursor | src/bazaar_compute_server/fleet.py:131-144 | reading the cursor's own computer and those past it misses nothing |
| AgentList.AllIsAscending | src/bazaar_compute_server/fleet.py:412-413 | the flat list is in key order, each agent once |
| AgentList.AllIff | src/bazaar_compute_server/fleet.py:114-171 | an agent is in the flat list if and only if a listed computer reports it and it is visible to the account |
| AgentList.EdgeMovesOn | src/bazaar_compute_server/fleet.py:104-111 | asking past a page's edge asks for exactly what that page left, and only the last page is short |
| AgentList.WalkVisitsAll | src/bazaar_compute_server/fleet.py:114-171 | following edges from the start ends and shows every visible agent once, in order |
| AgentList.RefreshIsSame | src/bazaar_compute_server/fleet.py:114-171 | asking for everything up to an edge gives the prefix of the list up to it, with the same edge and the same answer to whether more remain |
| RuntimeChoice.Runtime.Select | src/bazaar_compute_node/core/runtime.py:246-264 | the first runtime that is not excluded and whose ban is over, or else the one whose ban ends first; none only if all are excluded; a ban is forgotten only when it is over |
| RuntimeChoice.ChosenIsUnique | src/bazaar_compute_node/core/runtime.py:246-264 | that determines the choice |
| RuntimeChoice.FirstIsChosen | src/bazaar_compute_node/core/runtime.py:246-264 | the first runtime that is not excluded and whose ban, if any, is over is the one chosen |
| RuntimeChoice.BanLastsAnHour | src/bazaar_compute_node/core/runtime.py:246-269 | a failed runtime is passed over for an hour while any other may serve, and serves again after it unless one before it does |
| RuntimeChoice.RoundsDiffer | src/bazaar_compute_node/core/runtime.py:246-269 | in a run of select-then-fail rounds with a clock that moves, n rounds within a ban pick n different runtimes |
| RuntimeChoice.TakeTurns | src/bazaar_compute_node/core/runtime.py:246-269 | after n rounds it is the same runtime again |
| RuntimeChoice.TwoTakeTurns | src/bazaar_compute_node/core/runtime.py:246-269 | such a run: two runtimes that always fail are picked in turn |
| RuntimeChoice.ReturnsIff | src/bazaar_compute_node/core/runtime.py:246-269 | in every run, ties or not, within a ban and n rounds, a round picks a runtime that was picked since if and only if all that were not stand banned to the time the first of these bans was set to, and one that was picked, and comes before them all, is banned to that time too |
| RuntimeChoice.AllDifferIff | src/bazaar_compute_node/core/runtime.py:246-269 | in every run, rounds in a row within a ban, at most n of them, pick as many different runtimes if and only if there is no such tie before any of them |
| RuntimeChoice.RepeatsIff | src/bazaar_compute_node/core/runtime.py:246-269 | the case of two rounds: the second repeats the pick of the first if and only if that was the first runtime and all the others stood banned to the time its own ban was set to |
| RuntimeChoice.TiesBreakTurns | src/bazaar_compute_node/core/runtime.py:264 | a run from no bans in which equal bans make the first be picked twice in a row |
| RuntimeChoice.TiesSkipOne | src/bazaar_compute_node/core/runtime.py:264 | a run from no bans among three runtimes, no round repeating the last pick, in which three rounds within a ban leave one runtime out |
| Draining.ReferencedMessages | src/bazaar_compute_node/core/storage.py:493-518 | the references are those mentioned, or nothing when one does not resolve |
| Draining.MentionedOnce | src/bazaar_compute_node/core/storage.py:493-518 | no reference is listed twice or is among the messages, and every reply leads to one of the two |
| Draining.Storage.CheckOneThread | src/bazaar_compute_node/core/storage.py:439-490 | a failed check changes nothing, another moves the cursor to the last inbound message |
| Draining.Storage.CheckMessages | src/bazaar_compute_node/core/storage.py:129-144 | conversations are drained together or not at all |
| Draining.CheckIsAllOrNothing | src/bazaar_compute_node/core/storage.py:129-144 | each conversation named is handed out once, however often it is named; no other is touched |
| Draining.CheckTells | src/bazaar_compute_node/core/storage.py:439-490 | what a check reports of each conversation it names: the oldest unread messages, at most 100, nothing the second time, and as snapshot the new cursor, which is the number of the last inbound message |
| Draining.CheckFailsIff | src/bazaar_compute_node/core/storage.py:439-518 | a check fails if and only if a conversation is unknown, or a message it would hand out replies to one that is neither among them nor in the history |
| Draining.NothingComesBack | src/bazaar_compute_node/core/storage.py:475-482 | over every run no cursor goes back, and what was passed over stays so |
| Draining.ExactIffNeverOverrun | src/bazaar_compute_node/core/storage.py:439-490 | over every run of arrivals and checks, what was handed out and what is unread make up the conversation, each message once and in order, if and only if no check found more than 100 unread |
| Draining.BurstIsExactIff | src/bazaar_compute_node/core/storage.py:439-490 | n messages that arrive in an empty conversation before its first check are handed out exactly if and only if n is at most 100 |
| Draining.HeldIffNewer | src/bazaar_compute_node/core/storage.py:280-343 | a reply passes if and only if nothing notifying came after its snapshot; a hold counts all that did, and shows the newest of them, at most 20, up to the very last |
| Draining.RecheckAgreesIff | src/bazaar_compute_node/core/storage.py:345-366 | the recheck contradicts itself if and only if the snapshot is negative and nothing notifying was kept; otherwise it holds if and only if something came after the snapshot |
| Draining.PassedIsInformed | src/bazaar_compute_node/core/storage.py:280-296 | a reply that passes with a check's snapshot was written with every notifying message handed out |

## Left out

- TimerWheel.Timer.Reset: the type errors for delays that are not integers are not modelled, the type rules them out.
- TimerWheel.TimerWheel.Rebuild: the order in which timers expire together is not modelled, here and within one tick.
- CalendarSlots.SearchFindsNext: zones with offsets of odd seconds, or with changes so close that what they skip or repeat overlaps, are outside `Usable`.
- CalendarSlots.NextCalendarSlot: the range of years of the date library is not modelled.
- ClientSteps.ExactRouting: says nothing of a client whose reader was cancelled over a numbered message, which only `close` does; ClientSteps.RoutedFromMinimum covers it.
- AgentList.AgentPage: a list that changes between the reads of one page is not modelled.
- Draining.Storage.CheckMessages: target projections and the times kept with a cursor are not modelled.
- AgentSteps.RunsAreSound: the start and the stop of the node itself, changes that wait for their start, and the environment values kept before a failed write are not modelled.
- EventSteps.EveryStreamIsShaped: what is in an event, tool names and stream ids included, is not modelled; neither are two consumers pulling at once.
- Runtime holders, `fleet`'s page of computers, unread summaries, history and inbox catalogues: lookups and slices that would only add easy members.
- `parse_fire_at`, `format_utc_timestamp`, the zone database and calendar arithmetic: the library's.
- The event loop: futures are flags and tasks are steps; a lock or condition nobody holds does not suspend.
- HTTP pages, access checks, transport, processes, configuration files and SQL are not part of this model.
