/** One provider connection shared by foreground turns, as steps on a value.

    A turn opens under the route lock and keeps the lock while its first message
    is sent; a reader numbers each business message before it waits for that lock
    to route it; turns close under the lock.  Any enabled step may come next. */
module ClientSteps {
  import opened Wrappers

  // ---- the provider cycle ----

  datatype Cycle = Idle | Foreground | ProviderWake | ProviderWakeAdopted

  datatype Event = ForegroundOpened | ForegroundClosed | WakeStarted | WakeFinished

  /** The transition table; two pairs have no entry. */
  function Transition(cycle: Cycle, event: Event): Option<Cycle> {
    match (cycle, event)
    case (Idle, ForegroundOpened) => Some(Foreground)
    case (Idle, ForegroundClosed) => Some(Idle)
    case (Idle, WakeStarted) => Some(ProviderWake)
    case (Idle, WakeFinished) => Some(Idle)
    case (Foreground, ForegroundClosed) => Some(Idle)
    case (Foreground, WakeStarted) => Some(ProviderWakeAdopted)
    case (Foreground, WakeFinished) => Some(Foreground)
    case (ProviderWake, ForegroundOpened) => Some(ProviderWakeAdopted)
    case (ProviderWake, ForegroundClosed) => Some(ProviderWake)
    case (ProviderWake, WakeStarted) => Some(ProviderWake)
    case (ProviderWake, WakeFinished) => Some(Idle)
    case (ProviderWakeAdopted, ForegroundClosed) => Some(ProviderWake)
    case (ProviderWakeAdopted, WakeStarted) => Some(ProviderWakeAdopted)
    case (ProviderWakeAdopted, WakeFinished) => Some(Foreground)
    case (Foreground, ForegroundOpened) => None
    case (ProviderWakeAdopted, ForegroundOpened) => None
  }

  predicate Attached(cycle: Cycle) {
    cycle == Foreground || cycle == ProviderWakeAdopted
  }

  // ---- messages and inboxes ----

  datatype Envelope = Envelope(kind: string, subtype: Option<string>, origin: Option<string>, body: string)

  /** An origin that is named and is not a human. */
  predicate Foreign(e: Envelope) {
    e.origin.Some? && e.origin.value != "human"
  }

  predicate StartsWake(e: Envelope) {
    || (e.kind == "system" && e.subtype == Some("task_notification"))
    || (e.kind == "user" && Foreign(e))
  }

  predicate FinishesWake(e: Envelope) {
    e.kind == "result" && Foreign(e)
  }

  datatype Item = Message(envelope: Envelope) | Failure(error: string)

  /** `items` is all that was ever put in, of which the turn has taken some. */
  datatype Inbox = Inbox(minimum: nat, adopted: bool, items: seq<Item>, taken: nat)

  datatype Numbered = Numbered(sequence: nat, envelope: Envelope)

  /** Where the task of a turn stands. */
  datatype Phase =
    | Opening(inbox: nat)
    | Sending(inbox: nat)
    | Closing(inbox: nat)

  /** When an inbox was attached, and detached if it was: how many messages had been
      routed by then. */
  datatype Span = Span(start: nat, stop: Option<nat>)

  /** The fields of the source's `Client` that routing uses, and where its tasks
      stand.  `numbered`: the message the reader has numbered and not routed.
      `routed`: every message routed, `spans`: every attachment, `drops`: how many
      numbered messages a cancelled reader left unrouted.  `broken`: a transition
      was missing from the table. */
  datatype State = State(
    cycle: Cycle,
    inboxes: map<nat, Inbox>,
    attached: Option<nat>,
    sequence: nat,
    numbered: Option<Envelope>,
    lock: Option<nat>,
    phases: map<nat, Phase>,
    routed: seq<Numbered>,
    spans: map<nat, Span>,
    drops: nat,
    broken: bool)
  {
    /** An inbox is attached exactly while the cycle is in the foreground, and while
        a provider's cycle is adopted its mark says so. */
    ghost predicate CycleAgrees() {
      && !broken
      && (attached.Some? <==> Attached(cycle))
      && (attached.Some? ==> attached.value in inboxes)
      && (attached.Some? && cycle == ProviderWakeAdopted ==> inboxes[attached.value].adopted)
    }

    /** The lock is held by the one task that is sending, and an inbox is attached
        once. */
    ghost predicate LockAgrees() {
      && (forall t :: t in phases ==> phases[t].inbox in inboxes)
      && (forall t :: t in phases && phases[t].Sending? ==> lock == Some(t))
      && (lock.Some? ==> lock.value in phases && phases[lock.value].Sending?)
      && (forall t :: t in phases && phases[t].Opening? ==> phases[t].inbox !in spans)
      && (forall t, u :: t in phases && u in phases && t != u && phases[t].Opening? && phases[u].Opening? ==>
            phases[t].inbox != phases[u].inbox)
    }

    /** Numbers climb, and while no message was dropped they count the routed ones. */
    ghost predicate Counted() {
      && (forall k :: 0 <= k < |routed| ==> 0 < routed[k].sequence <= sequence)
      && (forall j, k :: 0 <= j < k < |routed| ==> routed[j].sequence < routed[k].sequence)
      && (numbered.Some? ==> 0 < sequence && forall k :: 0 <= k < |routed| ==> routed[k].sequence < sequence)
      && (drops == 0 ==>
            && sequence == |routed| + (if numbered.Some? then 1 else 0)
            && forall k :: 0 <= k < |routed| ==> routed[k].sequence == k + 1)
    }

    /** Where the attachment of an inbox ends, or would end now. */
    function End(span: Span): nat {
      if span.stop.Some? then span.stop.value else |routed|
    }

    /** Attachments follow one another. */
    ghost predicate SpansAgree() {
      && (attached.Some? ==> attached.value in spans)
      && (forall i :: i in spans ==>
            && i in inboxes
            && spans[i].start <= End(spans[i]) <= |routed|
            && (spans[i].stop.None? <==> attached == Some(i))
            && 0 < inboxes[i].minimum
            && (drops == 0 ==> spans[i].start <= inboxes[i].minimum - 1 <= spans[i].start + 1))
      && (attached.Some? ==> forall i :: i in spans && i != attached.value ==>
          End(spans[i]) <= spans[attached.value].start)
      && (forall i, j :: i in spans && j in spans && i != j ==>
            End(spans[i]) <= spans[j].start || End(spans[j]) <= spans[i].start)
    }

    /** What an inbox was given is what was routed while it was attached, from its
        minimum on. */
    ghost predicate Exact() {
      && (forall i :: i in spans ==>
            && i in inboxes
            && spans[i].start <= End(spans[i]) <= |routed|
            && Business(inboxes[i].items) == From(routed[spans[i].start..End(spans[i])], inboxes[i].minimum))
      && (forall i :: i in inboxes && i !in spans ==> inboxes[i].items == [])
      && (forall i :: i in inboxes ==> inboxes[i].taken <= |inboxes[i].items|)
    }

    ghost predicate Sound() {
      CycleAgrees() && LockAgrees() && Counted() && SpansAgree() && Exact()
    }
  }

  /** The messages among the items. */
  function Business(items: seq<Item>): seq<Envelope> {
    if items == [] then []
    else
      var last := items[|items| - 1];
      Business(items[..|items| - 1]) + if last.Message? then [last.envelope] else []
  }

  /** The messages numbered `minimum` or later. */
  function From(routed: seq<Numbered>, minimum: nat): seq<Envelope> {
    if routed == [] then []
    else
      var last := routed[|routed| - 1];
      From(routed[..|routed| - 1], minimum) + if minimum <= last.sequence then [last.envelope] else []
  }

  const Start: State := State(Idle, map[], None, 0, None, None, map[], [], map[], 0, false)

  // ---- the steps ----

  /** A transition of the cycle; a missing one is an error of the machine. */
  function Turn(s: State, event: Event): (t: State)
    ensures t == s.(cycle := t.cycle, broken := t.broken)
  {
    match Transition(s.cycle, event)
    case Some(cycle) => s.(cycle := cycle)
    case None => s.(broken := true)
  }

  /** `open_turn` up to the lock. */
  function BeginOpen(s: State, task: nat, inbox: nat): State {
    s.(inboxes := s.inboxes[inbox := Inbox(s.sequence + 1, false, [], 0)],
       phases := s.phases[task := Opening(inbox)])
  }

  /** Whether an opening turn is turned away: another one is in the foreground. */
  predicate Refuses(s: State) {
    s.attached.Some?
  }

  /** The inbox takes its place, and its task holds the lock while it sends. */
  function Seat(s: State, task: nat, inbox: nat): State
    requires inbox in s.inboxes
  {
    s.(inboxes := s.inboxes[inbox := s.inboxes[inbox].(minimum := s.sequence + 1,
                                                       adopted := s.cycle == ProviderWakeAdopted)],
       attached := Some(inbox),
       lock := Some(task),
       phases := s.phases[task := Sending(inbox)],
       spans := s.spans[inbox := Span(|s.routed|, None)])
  }

  /** `open_turn` from the lock to its send, or to its refusal. */
  function Attach(s: State, task: nat): State
    requires task in s.phases && s.phases[task].inbox in s.inboxes
  {
    if Refuses(s) then s.(phases := s.phases - {task})
    else Seat(Turn(s, ForegroundOpened), task, s.phases[task].inbox)
  }

  /** A task is over, and lets the lock go if it held it.  This is a send that went
      out, failed or timed out, an opening that timed out, and a close given up. */
  function Leave(s: State, task: nat): State {
    s.(phases := s.phases - {task}, lock := if s.lock == Some(task) then None else s.lock)
  }

  /** A cancelled opening goes on to close what it may have attached. */
  function CancelOpen(s: State, task: nat): State
    requires task in s.phases
  {
    s.(phases := s.phases[task := Closing(s.phases[task].inbox)], lock := if s.lock == Some(task) then None else s.lock)
  }

  /** `close_turn` up to the lock. */
  function BeginClose(s: State, task: nat, inbox: nat): State {
    s.(phases := s.phases[task := Closing(inbox)])
  }

  /** An inbox is detached: its span ends here. */
  function Detach(s: State, inbox: nat): State
    requires inbox in s.spans
  {
    Turn(s, ForegroundClosed).(attached := None, spans := s.spans[inbox := s.spans[inbox].(stop := Some(|s.routed|))])
  }

  /** `close_turn` under the lock. */
  function FinishClose(s: State, task: nat): State
    requires task in s.phases
  {
    var inbox := s.phases[task].inbox;
    var t := s.(phases := s.phases - {task});
    if s.attached != Some(inbox) || inbox !in s.spans then t
    else Detach(t, inbox)
  }

  /** The reader numbers a business message. */
  function Read(s: State, envelope: Envelope): State {
    s.(sequence := s.sequence + 1, numbered := Some(envelope))
  }

  /** The inbox a message is put in. */
  function Given(inbox: Inbox, adopted: bool, envelope: Envelope, sequence: nat): Inbox {
    inbox.(adopted := inbox.adopted || adopted,
           items := if inbox.minimum <= sequence then inbox.items + [Message(envelope)] else inbox.items)
  }

  /** `_route_business_message` under the lock. */
  function Route(s: State): State
    requires s.numbered.Some?
  {
    var e := s.numbered.value;
    var woken := if StartsWake(e) then Turn(s, WakeStarted) else s;
    var given :=
      if s.attached.Some? && s.attached.value in s.inboxes then
        woken.(inboxes := s.inboxes[s.attached.value :=
                            Given(s.inboxes[s.attached.value], woken.cycle == ProviderWakeAdopted, e, s.sequence)])
      else woken;
    var done := if FinishesWake(e) then Turn(given, WakeFinished) else given;
    done.(numbered := None, routed := s.routed + [Numbered(s.sequence, e)])
  }

  /** The reader is cancelled before it routed what it numbered. */
  function Drop(s: State): State {
    s.(numbered := None, drops := s.drops + 1)
  }

  /** `_publish_failure`, which takes no lock. */
  function Fail(s: State, error: string): State {
    if s.attached.Some? && s.attached.value in s.inboxes then
      var inbox := s.inboxes[s.attached.value];
      s.(inboxes := s.inboxes[s.attached.value := inbox.(items := inbox.items + [Failure(error)])])
    else s
  }

  /** A turn takes the next item of its inbox. */
  function Receive(s: State, inbox: nat): State
    requires inbox in s.inboxes
  {
    s.(inboxes := s.inboxes[inbox := s.inboxes[inbox].(taken := s.inboxes[inbox].taken + 1)])
  }

  datatype Step =
    | DoBeginOpen(task: nat, inbox: nat)
    | DoAttach(task: nat)
    | DoLeave(task: nat)
    | DoCancelOpen(task: nat)
    | DoBeginClose(task: nat, inbox: nat)
    | DoFinishClose(task: nat)
    | DoRead(envelope: Envelope)
    | DoRoute
    | DoDrop
    | DoFail(error: string)
    | DoReceive(inbox: nat)

  predicate Enabled(s: State, step: Step) {
    match step
    case DoBeginOpen(task, inbox) => task !in s.phases && inbox !in s.inboxes
    case DoAttach(task) => task in s.phases && s.phases[task].Opening? && s.lock.None?
    case DoLeave(task) => task in s.phases
    case DoCancelOpen(task) => task in s.phases && !s.phases[task].Closing?
    case DoBeginClose(task, inbox) => task !in s.phases && inbox in s.inboxes
    case DoFinishClose(task) => task in s.phases && s.phases[task].Closing? && s.lock.None?
    case DoRead(_) => s.numbered.None?
    case DoRoute => s.numbered.Some? && s.lock.None?
    case DoDrop => s.numbered.Some?
    case DoFail(_) => true
    case DoReceive(inbox) => inbox in s.inboxes && s.inboxes[inbox].taken < |s.inboxes[inbox].items|
  }

  function Next(s: State, step: Step): State
    requires s.Sound() && Enabled(s, step)
  {
    match step
    case DoBeginOpen(task, inbox) => BeginOpen(s, task, inbox)
    case DoAttach(task) => Attach(s, task)
    case DoLeave(task) => Leave(s, task)
    case DoCancelOpen(task) => CancelOpen(s, task)
    case DoBeginClose(task, inbox) => BeginClose(s, task, inbox)
    case DoFinishClose(task) => FinishClose(s, task)
    case DoRead(envelope) => Read(s, envelope)
    case DoRoute => Route(s)
    case DoDrop => Drop(s)
    case DoFail(error) => Fail(s, error)
    case DoReceive(inbox) => Receive(s, inbox)
  }

  // ---- each part of the invariant, and the changes it does not mind ----

  lemma CycleStays(s: State, t: State)
    requires s.CycleAgrees()
    requires t.broken == s.broken && t.attached == s.attached && t.cycle == s.cycle
    requires forall i :: i in s.inboxes ==> i in t.inboxes && (s.inboxes[i].adopted ==> t.inboxes[i].adopted)
    ensures t.CycleAgrees()
  {
  }

  lemma LockStays(s: State, t: State)
    requires s.LockAgrees()
    requires t.phases == s.phases && t.lock == s.lock && t.spans.Keys == s.spans.Keys
    requires forall i :: i in s.inboxes ==> i in t.inboxes
    ensures t.LockAgrees()
  {
    assert forall i :: i in t.spans ==> i in s.spans.Keys;
  }

  lemma CountStays(s: State, t: State)
    requires s.Counted()
    requires t.routed == s.routed && t.sequence == s.sequence && t.numbered == s.numbered && t.drops == s.drops
    ensures t.Counted()
  {
  }

  lemma SpansStay(s: State, t: State)
    requires s.SpansAgree()
    requires t.attached == s.attached && t.spans == s.spans && |t.routed| == |s.routed|
    requires t.drops == 0 ==> s.drops == 0
    requires forall i :: i in s.inboxes ==>
        i in t.inboxes && (i in s.spans ==> t.inboxes[i].minimum == s.inboxes[i].minimum)
    ensures t.SpansAgree()
  {
  }

  lemma ExactStays(s: State, t: State)
    requires s.Exact()
    requires t.routed == s.routed && t.spans == s.spans
    requires forall i :: i in t.inboxes ==>
               && (i in s.inboxes ==>
                   t.inboxes[i].items == s.inboxes[i].items && t.inboxes[i].minimum == s.inboxes[i].minimum)
               && (i !in s.inboxes ==> t.inboxes[i].items == [])
               && t.inboxes[i].taken <= |t.inboxes[i].items|
    requires forall i :: i in s.inboxes ==> i in t.inboxes
    ensures t.Exact()
  {
  }

  // ---- every step keeps the invariant ----

  lemma OpenKeeps(s: State, task: nat, inbox: nat)
    requires s.Sound() && Enabled(s, DoBeginOpen(task, inbox))
    ensures BeginOpen(s, task, inbox).Sound()
  {
    var t := BeginOpen(s, task, inbox);
    CycleStays(s, t);
    OpenLocks(s, task, inbox);
    CountStays(s, t);
    SpansStay(s, t);
    ExactStays(s, t);
  }

  lemma OpenLocks(s: State, task: nat, inbox: nat)
    requires s.LockAgrees() && s.SpansAgree() && Enabled(s, DoBeginOpen(task, inbox))
    ensures BeginOpen(s, task, inbox).LockAgrees()
  {
  }

  lemma AttachKeeps(s: State, task: nat)
    requires s.Sound() && Enabled(s, DoAttach(task))
    ensures Attach(s, task).Sound()
  {
    assert s.phases[task].inbox in s.inboxes;
    hide State.CycleAgrees, State.LockAgrees, State.Counted, State.SpansAgree, State.Exact;
    if Refuses(s) {
      assert Attach(s, task) == Leave(s, task);
      LeaveKeeps(s, task);
    } else {
      AttachCycle(s, task);
      AttachLocks(s, task);
      AttachSpans(s, task);
      AttachExact(s, task);
    }
  }

  lemma AttachCycle(s: State, task: nat)
    requires s.CycleAgrees() && s.LockAgrees() && s.Counted() && Enabled(s, DoAttach(task)) && !Refuses(s)
    ensures Attach(s, task).CycleAgrees() && Attach(s, task).Counted()
  {
  }

  lemma AttachLocks(s: State, task: nat)
    requires s.LockAgrees() && Enabled(s, DoAttach(task)) && !Refuses(s)
    ensures Attach(s, task).LockAgrees()
  {
  }

  lemma AttachSpans(s: State, task: nat)
    requires s.Sound() && Enabled(s, DoAttach(task)) && !Refuses(s)
    ensures Attach(s, task).SpansAgree()
  {
    hide State.Exact;
  }

  lemma AttachExact(s: State, task: nat)
    requires s.Sound() && Enabled(s, DoAttach(task)) && !Refuses(s)
    ensures Attach(s, task).Exact()
  {
  }

  lemma LeaveLocks(s: State, task: nat)
    requires s.LockAgrees() && task in s.phases
    ensures Leave(s, task).LockAgrees()
    ensures s.phases[task].Opening? && s.lock.None? ==> Leave(s, task) == s.(phases := s.phases - {task})
  {
  }

  lemma LeaveKeeps(s: State, task: nat)
    requires s.Sound() && task in s.phases
    ensures Leave(s, task).Sound()
  {
    LeaveLocks(s, task);
    PhasesOnly(s, Leave(s, task));
  }

  /** A step of a task that only moves the task along. */
  lemma PhasesOnly(s: State, t: State)
    requires s.Sound() && t == s.(phases := t.phases, lock := t.lock) && t.LockAgrees()
    ensures t.Sound()
  {
    CycleStays(s, t);
    CountStays(s, t);
    SpansStay(s, t);
    ExactStays(s, t);
  }

  lemma CancelKeeps(s: State, task: nat)
    requires s.Sound() && Enabled(s, DoCancelOpen(task))
    ensures CancelOpen(s, task).Sound()
  {
    PhasesOnly(s, CancelOpen(s, task));
  }

  lemma BeginCloseKeeps(s: State, task: nat, inbox: nat)
    requires s.Sound() && Enabled(s, DoBeginClose(task, inbox))
    ensures BeginClose(s, task, inbox).Sound()
  {
    PhasesOnly(s, BeginClose(s, task, inbox));
  }

  lemma CloseKeeps(s: State, task: nat)
    requires s.Sound() && Enabled(s, DoFinishClose(task))
    ensures FinishClose(s, task).Sound()
  {
    var inbox := s.phases[task].inbox;
    assert s.attached == Some(inbox) ==> inbox in s.spans;
    hide State.CycleAgrees, State.LockAgrees, State.Counted, State.SpansAgree, State.Exact, Detach;
    var left := s.(phases := s.phases - {task});
    LeaveKeeps(s, task);
    LeaveUnlocked(s, task);
    if s.attached == Some(inbox) {
      var t := FinishClose(s, task);
      assert t == Detach(left, inbox);
      DetachLocks(left, inbox);
      DetachCounts(left, inbox);
      DetachSpans(left, inbox);
      DetachExact(left, inbox);
    }
  }

  /** A closing task holds no lock, so leaving takes it off the list and no more. */
  lemma LeaveUnlocked(s: State, task: nat)
    requires s.LockAgrees() && task in s.phases && s.phases[task].Closing?
    ensures Leave(s, task) == s.(phases := s.phases - {task})
  {
  }

  lemma DetachLocks(s: State, inbox: nat)
    requires s.LockAgrees() && inbox in s.spans
    ensures Detach(s, inbox).LockAgrees()
  {
  }

  lemma DetachCounts(s: State, inbox: nat)
    requires s.Counted() && s.CycleAgrees() && s.SpansAgree() && s.attached == Some(inbox)
    ensures Detach(s, inbox).Counted() && Detach(s, inbox).CycleAgrees()
  {
  }

  /** Detaching moves the end of no span. */
  lemma DetachEnds(s: State, inbox: nat)
    requires s.SpansAgree() && s.attached == Some(inbox)
    ensures var t := Detach(s, inbox);
            && t.routed == s.routed && t.drops == s.drops && t.inboxes == s.inboxes && t.attached == None
            && t.spans.Keys == s.spans.Keys
            && forall i :: i in s.spans ==>
                 t.spans[i].start == s.spans[i].start && t.End(t.spans[i]) == s.End(s.spans[i]) && t.spans[i].stop.Some?
  {
  }

  /** Detaching ends the span where it stands, which changes nothing it holds. */
  lemma DetachSpans(s: State, inbox: nat)
    requires s.SpansAgree() && s.attached == Some(inbox)
    ensures Detach(s, inbox).SpansAgree()
  {
    DetachEnds(s, inbox);
    hide Detach;
  }

  lemma DetachExact(s: State, inbox: nat)
    requires s.SpansAgree() && s.Exact() && s.attached == Some(inbox)
    ensures Detach(s, inbox).Exact()
  {
    DetachEnds(s, inbox);
    hide Detach, Business, From, State.End;
  }

  lemma ReadKeeps(s: State, envelope: Envelope)
    requires s.Sound() && s.numbered.None?
    ensures Read(s, envelope).Sound()
  {
    var t := Read(s, envelope);
    CycleStays(s, t);
    LockStays(s, t);
    SpansStay(s, t);
    ExactStays(s, t);
  }

  lemma DropKeeps(s: State)
    requires s.Sound() && s.numbered.Some?
    ensures Drop(s).Sound()
  {
    var t := Drop(s);
    CycleStays(s, t);
    LockStays(s, t);
    SpansStay(s, t);
    ExactStays(s, t);
  }

  /** Everything routing does but the turns of the cycle. */
  ghost predicate Routes(s: State, t: State) {
    && s.numbered.Some?
    && t.attached == s.attached && t.lock == s.lock && t.phases == s.phases && t.spans == s.spans
    && t.sequence == s.sequence && t.drops == s.drops && t.numbered == None
    && t.routed == s.routed + [Numbered(s.sequence, s.numbered.value)]
    && t.inboxes.Keys == s.inboxes.Keys
    && (forall i :: i in s.inboxes && s.attached != Some(i) ==> t.inboxes[i] == s.inboxes[i])
    && (s.attached.Some? && s.attached.value in s.inboxes ==>
          var was := s.inboxes[s.attached.value];
          var now := t.inboxes[s.attached.value];
          && now.minimum == was.minimum && now.taken == was.taken && (was.adopted ==> now.adopted)
          && now.items == if was.minimum <= s.sequence then was.items + [Message(s.numbered.value)] else was.items)
  }

  lemma RouteRoutes(s: State)
    requires s.numbered.Some?
    ensures Routes(s, Route(s))
  {
    hide StartsWake, FinishesWake, Turn;
    var t := Route(s);
    assert t.inboxes == if s.attached.Some? && s.attached.value in s.inboxes
                        then s.inboxes[s.attached.value := t.inboxes[s.attached.value]] else s.inboxes;
  }

  lemma RouteCycle(s: State)
    requires s.CycleAgrees() && s.numbered.Some?
    ensures Route(s).CycleAgrees()
  {
  }

  lemma RouteCounts(s: State, t: State)
    requires s.Counted() && Routes(s, t)
    ensures t.Counted()
  {
  }

  lemma RouteSpans(s: State, t: State)
    requires s.SpansAgree() && Routes(s, t)
    ensures t.SpansAgree()
  {
    forall i | i in s.spans
      ensures t.End(t.spans[i]) == s.End(s.spans[i]) + if s.attached == Some(i) then 1 else 0
    {
    }
  }

  /** One more message routed is one more message given, if it is due. */
  lemma GivenOneMore(routed: seq<Numbered>, start: nat, m: Numbered, minimum: nat, items: seq<Item>)
    requires start <= |routed|
    requires Business(items) == From(routed[start..], minimum)
    ensures Business(if minimum <= m.sequence then items + [Message(m.envelope)] else items)
            == From((routed + [m])[start..], minimum)
  {
    var more := (routed + [m])[start..];
    assert more[..|more| - 1] == routed[start..];
    var given := items + [Message(m.envelope)];
    assert given[..|given| - 1] == items;
  }

  /** The messages routed within a span. */
  function Within(s: State, i: nat): seq<Numbered>
    requires i in s.spans && s.spans[i].start <= s.End(s.spans[i]) <= |s.routed|
  {
    s.routed[s.spans[i].start..s.End(s.spans[i])]
  }

  lemma RouteWithin(s: State, t: State, i: nat)
    requires s.SpansAgree() && Routes(s, t) && i in s.spans
    ensures t.spans[i].start <= t.End(t.spans[i]) <= |t.routed|
    ensures Within(t, i) == if s.attached == Some(i) then t.routed[s.spans[i].start..] else Within(s, i)
    ensures s.attached == Some(i) ==> Within(s, i) == s.routed[s.spans[i].start..]
  {
  }

  lemma RouteExact(s: State, t: State)
    requires s.SpansAgree() && s.Exact() && Routes(s, t)
    ensures t.Exact()
  {
    forall i | i in t.spans
      ensures t.spans[i].start <= t.End(t.spans[i]) <= |t.routed|
      ensures Business(t.inboxes[i].items) == From(Within(t, i), t.inboxes[i].minimum)
    {
      RouteWithin(s, t, i);
      if s.attached == Some(i) {
        GivenOneMore(s.routed, s.spans[i].start, Numbered(s.sequence, s.numbered.value),
                     s.inboxes[i].minimum, s.inboxes[i].items);
      }
    }
  }

  lemma RouteKeeps(s: State)
    requires s.Sound() && s.numbered.Some?
    ensures Route(s).Sound()
  {
    var t := Route(s);
    RouteRoutes(s);
    RouteCycle(s);
    LockStays(s, t);
    RouteCounts(s, t);
    RouteSpans(s, t);
    RouteExact(s, t);
  }

  lemma FailKeeps(s: State, error: string)
    requires s.Sound()
    ensures Fail(s, error).Sound()
  {
    var t := Fail(s, error);
    CycleStays(s, t);
    LockStays(s, t);
    CountStays(s, t);
    SpansStay(s, t);
    FailExact(s, error);
  }

  lemma FailsNoBusiness(items: seq<Item>, error: string)
    ensures Business(items + [Failure(error)]) == Business(items)
  {
    assert (items + [Failure(error)])[..|items|] == items;
  }

  lemma FailExact(s: State, error: string)
    requires s.Exact() && s.SpansAgree()
    ensures Fail(s, error).Exact()
  {
    if s.attached.Some? {
      FailsNoBusiness(s.inboxes[s.attached.value].items, error);
    }
    hide Business, From, State.SpansAgree;
  }

  lemma ReceiveKeeps(s: State, inbox: nat)
    requires s.Sound() && Enabled(s, DoReceive(inbox))
    ensures Receive(s, inbox).Sound()
  {
    hide State.CycleAgrees, State.LockAgrees, State.Counted, State.SpansAgree;
    var t := Receive(s, inbox);
    CycleStays(s, t);
    LockStays(s, t);
    CountStays(s, t);
    SpansStay(s, t);
    ExactStays(s, t);
  }

  lemma NextKeeps(s: State, step: Step)
    requires s.Sound() && Enabled(s, step)
    ensures Next(s, step).Sound()
  {
    match step
    case DoBeginOpen(task, inbox) => OpenKeeps(s, task, inbox);
    case DoAttach(task) => AttachKeeps(s, task);
    case DoLeave(task) => LeaveKeeps(s, task);
    case DoCancelOpen(task) => CancelKeeps(s, task);
    case DoBeginClose(task, inbox) => BeginCloseKeeps(s, task, inbox);
    case DoFinishClose(task) => CloseKeeps(s, task);
    case DoRead(envelope) => ReadKeeps(s, envelope);
    case DoRoute => RouteKeeps(s);
    case DoDrop => DropKeeps(s);
    case DoFail(error) => FailKeeps(s, error);
    case DoReceive(inbox) => ReceiveKeeps(s, inbox);
  }

  // ---- runs ----

  ghost predicate CanRun(s: State, steps: seq<Step>)
    requires s.Sound()
    decreases |steps|
  {
    steps != [] ==>
      && Enabled(s, steps[0])
      && (NextKeeps(s, steps[0]); CanRun(Next(s, steps[0]), steps[1..]))
  }

  ghost function Run(s: State, steps: seq<Step>): State
    requires s.Sound() && CanRun(s, steps)
    decreases |steps|
  {
    if steps == [] then s
    else
      NextKeeps(s, steps[0]);
      Run(Next(s, steps[0]), steps[1..])
  }

  /** What never goes back: a mark once set, what an inbox was given, and which
      messages were routed. */
  ghost predicate Grows(s: State, t: State) {
    && s.routed <= t.routed
    && forall i :: i in s.inboxes ==>
         && i in t.inboxes
         && (i in s.spans ==> i in t.spans && t.spans[i].start == s.spans[i].start)
         && (i in s.spans && s.spans[i].stop.Some? ==> t.spans[i] == s.spans[i])
         && (i in s.spans ==> t.inboxes[i].minimum == s.inboxes[i].minimum)
         && (s.inboxes[i].adopted ==> t.inboxes[i].adopted)
         && s.inboxes[i].items <= t.inboxes[i].items
         && s.inboxes[i].taken <= t.inboxes[i].taken
  }

  /** An inbox not yet attached bears no mark. */
  ghost predicate Fresh(s: State) {
    forall i :: i in s.inboxes && i !in s.spans ==> !s.inboxes[i].adopted
  }

  lemma GrowsOn(s: State, t: State, u: State)
    requires Grows(s, t) && Grows(t, u)
    ensures Grows(s, u)
  {
  }

  lemma RouteGrows(s: State)
    requires s.Sound() && s.numbered.Some?
    ensures Grows(s, Route(s)) && (Fresh(s) ==> Fresh(Route(s)))
  {
    RouteRoutes(s);
  }

  lemma AttachGrows(s: State, task: nat)
    requires s.Sound() && Fresh(s) && Enabled(s, DoAttach(task))
    ensures Grows(s, Attach(s, task)) && Fresh(Attach(s, task))
  {
    hide State.Counted, State.Exact, State.CycleAgrees;
  }

  lemma CloseGrows(s: State, task: nat)
    requires s.Sound() && Fresh(s) && Enabled(s, DoFinishClose(task))
    ensures Grows(s, FinishClose(s, task)) && Fresh(FinishClose(s, task))
  {
    CloseEnds(s, task);
    hide FinishClose, State.Sound;
  }

  lemma FailGrows(s: State, error: string)
    requires s.Sound() && Fresh(s)
    ensures Grows(s, Fail(s, error)) && Fresh(Fail(s, error))
  {
  }

  lemma ReceiveGrows(s: State, inbox: nat)
    requires Fresh(s) && inbox in s.inboxes
    ensures Grows(s, Receive(s, inbox)) && Fresh(Receive(s, inbox))
  {
  }

  lemma OpenGrows(s: State, task: nat, inbox: nat)
    requires s.Sound() && Fresh(s) && inbox !in s.inboxes
    ensures Grows(s, BeginOpen(s, task, inbox)) && Fresh(BeginOpen(s, task, inbox))
  {
  }

  lemma NextGrows(s: State, step: Step)
    requires s.Sound() && Fresh(s) && Enabled(s, step)
    ensures Grows(s, Next(s, step)) && Fresh(Next(s, step))
  {
    match step
    case DoRoute => RouteGrows(s);
    case DoAttach(task) => AttachGrows(s, task);
    case DoFinishClose(task) => CloseGrows(s, task);
    case DoFail(error) => FailGrows(s, error);
    case DoReceive(inbox) => ReceiveGrows(s, inbox);
    case DoBeginOpen(task, inbox) => OpenGrows(s, task, inbox);
    case _ =>
  }

  /** Over every interleaving: the cycle never meets a missing transition, marks are
      never cleared, and what an inbox was given is never taken back. */
  lemma {:induction false} RunsAreSound(s: State, steps: seq<Step>)
    requires s.Sound() && Fresh(s) && CanRun(s, steps)
    ensures Run(s, steps).Sound() && Fresh(Run(s, steps)) && Grows(s, Run(s, steps))
    decreases |steps|
  {
    if steps != [] {
      NextKeeps(s, steps[0]);
      NextGrows(s, steps[0]);
      RunsAreSound(Next(s, steps[0]), steps[1..]);
      GrowsOn(s, Next(s, steps[0]), Run(s, steps));
    }
  }

  // ---- what the invariant says, one promise at a time ----

  function Envelopes(routed: seq<Numbered>): seq<Envelope> {
    if routed == [] then [] else Envelopes(routed[..|routed| - 1]) + [routed[|routed| - 1].envelope]
  }

  lemma {:induction false} FromAll(routed: seq<Numbered>, minimum: nat)
    requires forall k :: 0 <= k < |routed| ==> minimum <= routed[k].sequence
    ensures From(routed, minimum) == Envelopes(routed)
  {
    if routed != [] {
      FromAll(routed[..|routed| - 1], minimum);
    }
  }

  lemma {:induction false} FromTail(routed: seq<Numbered>, minimum: nat)
    requires routed != [] && routed[0].sequence < minimum
    ensures From(routed, minimum) == From(routed[1..], minimum)
  {
    if |routed| > 1 {
      FromTail(routed[..|routed| - 1], minimum);
      assert routed[1..][..|routed[1..]| - 1] == routed[..|routed| - 1][1..];
    }
  }

  /** Every state of a run from the start is sound. */
  lemma Reached(steps: seq<Step>)
    requires CanRun(Start, steps)
    ensures Run(Start, steps).Sound()
  {
    hide Run, CanRun;
    RunsAreSound(Start, steps);
  }

  /** Exact routing, in every run: an inbox holds precisely the messages numbered from
      its minimum on among those routed while it was attached, in order, and numbers
      climb. */
  lemma RoutedFromMinimum(steps: seq<Step>, i: nat)
    requires CanRun(Start, steps)
    ensures var s := Run(Start, steps);
            && (forall j, k :: 0 <= j < k < |s.routed| ==> s.routed[j].sequence < s.routed[k].sequence)
            && (i in s.spans ==>
                  && i in s.inboxes && s.spans[i].start <= s.End(s.spans[i]) <= |s.routed|
                  && Business(s.inboxes[i].items)
                     == From(s.routed[s.spans[i].start..s.End(s.spans[i])], s.inboxes[i].minimum))
  {
    hide Run, CanRun, State.CycleAgrees, State.LockAgrees, State.SpansAgree;
    Reached(steps);
  }

  /** Messages are numbered from 1 on without a gap, and an inbox holds every message
      from its minimum up to the last one routed before it was detached. */
  ghost predicate WithoutGap(s: State, i: nat) {
    && (forall k :: 0 <= k < |s.routed| ==> s.routed[k].sequence == k + 1)
    && (i in s.spans ==>
          && i in s.inboxes
          && var from, to := s.inboxes[i].minimum - 1, s.End(s.spans[i]);
          && 0 <= from && to <= |s.routed|
          && Business(s.inboxes[i].items) == if from <= to then Envelopes(s.routed[from..to]) else [])
  }

  lemma NoGap(s: State, i: nat)
    requires s.Counted() && s.SpansAgree() && s.Exact() && s.drops == 0
    ensures WithoutGap(s, i)
  {
    if i in s.spans {
      SliceFrom(s.routed, s.spans[i].start, s.End(s.spans[i]), s.inboxes[i].minimum);
    }
  }

  /** While no reader was cancelled over a message, routing is exact without a gap. */
  lemma ExactRouting(steps: seq<Step>, i: nat)
    requires CanRun(Start, steps)
    ensures Run(Start, steps).drops == 0 ==> WithoutGap(Run(Start, steps), i)
  {
    var s := Run(Start, steps);
    hide Run, CanRun, WithoutGap, State.CycleAgrees, State.LockAgrees, State.Counted, State.SpansAgree, State.Exact;
    Reached(steps);
    if s.drops == 0 {
      NoGap(s, i);
    }
  }

  lemma SliceFrom(routed: seq<Numbered>, start: nat, to: nat, minimum: nat)
    requires start <= to <= |routed| && 0 < minimum && start <= minimum - 1 <= start + 1
    requires forall k :: 0 <= k < |routed| ==> routed[k].sequence == k + 1
    ensures From(routed[start..to], minimum) ==
            if minimum - 1 <= to then Envelopes(routed[minimum - 1..to]) else []
  {
    var within := routed[start..to];
    if start < minimum - 1 && within != [] {
      FromTail(within, minimum);
      assert within[1..] == routed[minimum - 1..to];
    }
    if minimum - 1 <= to {
      var due := routed[minimum - 1..to];
      assert forall k :: 0 <= k < |due| ==> due[k] == routed[minimum - 1 + k];
      FromAll(due, minimum);
    }
  }

  /** No message is given to two inboxes: the stretches they were attached for do
      not meet. */
  lemma SpansApart(steps: seq<Step>, i: nat, j: nat, k: nat)
    requires CanRun(Start, steps)
    ensures var s := Run(Start, steps);
            i in s.spans && j in s.spans && s.spans[i].start <= k < s.End(s.spans[i]) ==>
              i == j || !(s.spans[j].start <= k < s.End(s.spans[j]))
  {
    hide Run, CanRun, State.LockAgrees, State.Counted, State.Exact;
    Reached(steps);
  }

  /** The only missing transitions are openings over an attached turn, and those are
      turned away before the machine is asked. */
  lemma NoTransitionMissing(steps: seq<Step>, event: Event)
    requires CanRun(Start, steps)
    ensures var s := Run(Start, steps);
            && !s.broken
            && (Transition(s.cycle, event).None? <==> event == ForegroundOpened && Refuses(s))
  {
    hide Run, CanRun, State.LockAgrees, State.Counted, State.SpansAgree, State.Exact;
    Reached(steps);
  }

  // ---- the provider's own cycle, and the marks it leaves ----

  predicate Waking(cycle: Cycle) {
    cycle == ProviderWake || cycle == ProviderWakeAdopted
  }

  /** The table keeps two facts apart: whether a turn is in the foreground, and whether the
      provider is awake of its own. */
  lemma TransitionTurns(cycle: Cycle, event: Event)
    requires Transition(cycle, event).Some?
    ensures var next := Transition(cycle, event).value;
            && (Attached(next) <==> event == ForegroundOpened || (Attached(cycle) && event != ForegroundClosed))
            && (Waking(next) <==> event == WakeStarted || (Waking(cycle) && event != WakeFinished))
  {
  }

  /** Whether the last message that starts or finishes a wake started one. */
  function AwakeAfter(routed: seq<Numbered>): bool {
    if routed == [] then false
    else
      var last := routed[|routed| - 1].envelope;
      if FinishesWake(last) then false else StartsWake(last) || AwakeAfter(routed[..|routed| - 1])
  }

  /** The provider was awake when an inbox was attached, or woke while it was. */
  ghost predicate AwakeWithin(routed: seq<Numbered>, start: nat, end: nat)
    requires end <= |routed|
  {
    exists k :: start <= k <= end && AwakeAfter(routed[..k])
  }

  /** The cycle and the marks tell what was routed. */
  ghost predicate Marked(s: State) {
    && (Waking(s.cycle) <==> AwakeAfter(s.routed))
    && forall i :: i in s.spans ==>
         && i in s.inboxes && s.End(s.spans[i]) <= |s.routed|
         && (s.inboxes[i].adopted <==> AwakeWithin(s.routed, s.spans[i].start, s.End(s.spans[i])))
  }

  lemma AwakeOneMore(routed: seq<Numbered>, m: Numbered)
    ensures AwakeAfter(routed + [m]) <==>
            !FinishesWake(m.envelope) && (StartsWake(m.envelope) || AwakeAfter(routed))
  {
    assert (routed + [m])[..|routed|] == routed;
  }

  /** What comes later does not change what was so within a stretch. */
  lemma WithinStays(routed: seq<Numbered>, more: seq<Numbered>, start: nat, end: nat)
    requires end <= |routed| && routed <= more
    ensures AwakeWithin(more, start, end) <==> AwakeWithin(routed, start, end)
  {
    hide AwakeAfter;
    forall k | 0 <= k <= end ensures more[..k] == routed[..k] {
    }
    if k :| start <= k <= end && AwakeAfter(routed[..k]) {
      assert AwakeAfter(more[..k]);
    }
    if k :| start <= k <= end && AwakeAfter(more[..k]) {
      assert AwakeAfter(routed[..k]);
    }
  }

  lemma WithinOneMore(more: seq<Numbered>, start: nat)
    requires start < |more|
    ensures AwakeWithin(more, start, |more|) <==> AwakeWithin(more, start, |more| - 1) || AwakeAfter(more)
  {
    hide AwakeAfter;
    assert more[..|more|] == more;
  }

  /** What routing does to the cycle and to the mark of the attached inbox. */
  lemma RouteMarks(s: State)
    requires s.CycleAgrees() && s.numbered.Some?
    ensures var e, t := s.numbered.value, Route(s);
            && (Waking(t.cycle) <==> !FinishesWake(e) && (StartsWake(e) || Waking(s.cycle)))
            && (s.attached.Some? ==> (t.inboxes[s.attached.value].adopted <==>
                  s.inboxes[s.attached.value].adopted || Waking(t.cycle)))
  {
  }

  lemma RouteMarked(s: State)
    requires s.Sound() && s.numbered.Some? && Marked(s)
    ensures Marked(Route(s))
  {
    var t, m := Route(s), Numbered(s.sequence, s.numbered.value);
    RouteRoutes(s);
    RouteMarks(s);
    AwakeOneMore(s.routed, m);
    assert Waking(t.cycle) <==> AwakeAfter(t.routed);
    hide Route, AwakeAfter, AwakeWithin, State.CycleAgrees, State.LockAgrees, State.Counted, State.Exact, StartsWake,
      FinishesWake;
    forall i | i in t.spans
      ensures i in t.inboxes && t.End(t.spans[i]) <= |t.routed|
      ensures t.inboxes[i].adopted <==> AwakeWithin(t.routed, t.spans[i].start, t.End(t.spans[i]))
    {
      RoutedWithin(s, t, m, i);
    }
  }

  lemma RoutedWithin(s: State, t: State, m: Numbered, i: nat)
    requires Routes(s, t) && i in s.spans && s.SpansAgree() && Marked(s) && t.routed == s.routed + [m]
    requires Waking(t.cycle) <==> AwakeAfter(t.routed)
    requires s.attached.Some? ==> (t.inboxes[s.attached.value].adopted <==>
                                     s.inboxes[s.attached.value].adopted || Waking(t.cycle))
    ensures i in t.inboxes && t.End(t.spans[i]) <= |t.routed|
    ensures t.inboxes[i].adopted <==> AwakeWithin(t.routed, t.spans[i].start, t.End(t.spans[i]))
  {
    hide AwakeAfter, AwakeWithin, Waking;
    WithinStays(s.routed, t.routed, s.spans[i].start, s.End(s.spans[i]));
    if s.attached == Some(i) {
      WithinOneMore(t.routed, s.spans[i].start);
    }
  }

  lemma AttachMarked(s: State, task: nat)
    requires s.Sound() && Fresh(s) && Enabled(s, DoAttach(task)) && Marked(s)
    ensures Marked(Attach(s, task))
  {
    hide AwakeAfter, State.Counted, State.Exact;
    var t := Attach(s, task);
    assert s.routed[..|s.routed|] == s.routed;
    if !Refuses(s) {
      assert Waking(t.cycle) == Waking(s.cycle);
    }
  }

  lemma DetachTurns(s: State, inbox: nat)
    requires s.CycleAgrees() && s.attached == Some(inbox) && inbox in s.spans
    ensures Waking(Detach(s, inbox).cycle) <==> Waking(s.cycle)
    ensures !Attached(Detach(s, inbox).cycle)
  {
  }

  lemma CloseIsDetach(s: State, task: nat)
    requires s.SpansAgree() && task in s.phases
    ensures var i, left := s.phases[task].inbox, s.(phases := s.phases - {task});
            if s.attached == Some(i) then i in s.spans && FinishClose(s, task) == Detach(left, i)
            else FinishClose(s, task) == left
  {
  }

  /** The same spans, each with the same start and end. */
  ghost predicate SameEnds(s: State, t: State) {
    && t.spans.Keys == s.spans.Keys
    && forall i :: i in s.spans ==>
         && t.spans[i].start == s.spans[i].start && t.End(t.spans[i]) == s.End(s.spans[i])
         && (s.spans[i].stop.Some? ==> t.spans[i] == s.spans[i])
  }

  lemma DetachSame(s: State, inbox: nat)
    requires s.SpansAgree() && s.attached == Some(inbox)
    ensures inbox in s.spans && SameEnds(s, Detach(s, inbox))
    ensures Detach(s, inbox).routed == s.routed && Detach(s, inbox).inboxes == s.inboxes
  {
  }

  /** A close moves the end of no span, and does not touch the provider's own cycle. */
  lemma CloseEnds(s: State, task: nat)
    requires s.Sound() && Enabled(s, DoFinishClose(task))
    ensures var t := FinishClose(s, task);
            && t.routed == s.routed && t.inboxes == s.inboxes && (Waking(t.cycle) <==> Waking(s.cycle))
            && SameEnds(s, t)
  {
    var i, left := s.phases[task].inbox, s.(phases := s.phases - {task});
    CloseIsDetach(s, task);
    LeftAgrees(s, left);
    LeftSame(s, left);
    hide FinishClose, Detach, Waking, SameEnds, State.CycleAgrees, State.LockAgrees, State.Counted, State.SpansAgree,
      State.Exact;
    if s.attached == Some(i) {
      DetachTurns(left, i);
      DetachSame(left, i);
    }
  }

  lemma LeftAgrees(s: State, t: State)
    requires s.CycleAgrees() && s.SpansAgree() && t == s.(phases := t.phases)
    ensures t.CycleAgrees() && t.SpansAgree()
  {
  }

  lemma LeftSame(s: State, t: State)
    requires t == s.(phases := t.phases)
    ensures SameEnds(s, t)
    ensures forall u :: SameEnds(t, u) ==> SameEnds(s, u)
  {
  }

  lemma CloseMarked(s: State, task: nat)
    requires s.Sound() && Enabled(s, DoFinishClose(task)) && Marked(s)
    ensures Marked(FinishClose(s, task))
  {
    CloseEnds(s, task);
    hide AwakeAfter, AwakeWithin, Waking, FinishClose, State.Sound;
  }

  /** Steps that turn nothing. */
  lemma MarksStay(s: State, t: State)
    requires Marked(s) && t.cycle == s.cycle && t.routed == s.routed && t.spans == s.spans
    requires forall i :: i in s.inboxes ==> i in t.inboxes && t.inboxes[i].adopted == s.inboxes[i].adopted
    ensures Marked(t)
  {
    hide AwakeAfter, AwakeWithin;
  }

  lemma NextMarked(s: State, step: Step)
    requires s.Sound() && Fresh(s) && Enabled(s, step) && Marked(s)
    ensures Marked(Next(s, step))
  {
    if step.DoRoute? {
      RouteMarked(s);
    } else if step.DoAttach? {
      AttachMarked(s, step.task);
    } else if step.DoFinishClose? {
      CloseMarked(s, step.task);
    } else {
      hide State.Sound, Marked, Fresh;
      MarksStay(s, Next(s, step));
    }
  }

  lemma {:induction false} RunsAreMarked(s: State, steps: seq<Step>)
    requires s.Sound() && Fresh(s) && CanRun(s, steps) && Marked(s)
    ensures Marked(Run(s, steps))
    decreases |steps|
  {
    if steps != [] {
      NextKeeps(s, steps[0]);
      NextGrows(s, steps[0]);
      NextMarked(s, steps[0]);
      hide Next, Marked, State.Sound, Fresh;
      RunsAreMarked(Next(s, steps[0]), steps[1..]);
    }
  }

  /** In every run: the cycle is the provider's own exactly while the last message that
      starts or finishes a wake started one; and a turn is marked as adopting a wake if
      and only if the provider was awake when it was attached, or woke before it was
      detached. */
  lemma AdoptedIff(steps: seq<Step>, i: nat)
    requires CanRun(Start, steps)
    ensures var s := Run(Start, steps);
            && (Waking(s.cycle) <==> AwakeAfter(s.routed))
            && (Attached(s.cycle) <==> s.attached.Some?)
            && (i in s.spans ==>
                  && i in s.inboxes && s.End(s.spans[i]) <= |s.routed|
                  && (s.inboxes[i].adopted <==> AwakeWithin(s.routed, s.spans[i].start, s.End(s.spans[i]))))
  {
    hide Run, CanRun, AwakeWithin;
    Reached(steps);
    RunsAreMarked(Start, steps);
  }

  // ---- what is read is what is routed ----

  function Reads(steps: seq<Step>): seq<Envelope> {
    if steps == [] then [] else (if steps[0].DoRead? then [steps[0].envelope] else []) + Reads(steps[1..])
  }

  /** The message that is numbered and not routed. */
  function Waiting(s: State): seq<Envelope> {
    if s.numbered.Some? then [s.numbered.value] else []
  }

  lemma NextReads(s: State, step: Step)
    requires s.Sound() && Enabled(s, step)
    ensures var t := Next(s, step);
            && s.drops <= t.drops
            && (t.drops == s.drops ==>
                  Envelopes(t.routed) + Waiting(t) ==
                    Envelopes(s.routed) + Waiting(s) + if step.DoRead? then [step.envelope] else [])
  {
    hide State.Sound, Turn, Route;
    if step.DoRoute? {
      RouteRoutes(s);
      var m := Numbered(s.sequence, s.numbered.value);
      assert (s.routed + [m])[..|s.routed|] == s.routed;
    } else {
      hide Envelopes;
    }
  }

  /** Over every interleaving in which no reader was cancelled over a message, what was
      routed, and the one that waits for it, are the messages read, in order. */
  lemma {:induction false} RoutedAsRead(s: State, steps: seq<Step>)
    requires s.Sound() && CanRun(s, steps)
    ensures s.drops <= Run(s, steps).drops
    ensures var t := Run(s, steps);
            t.drops == s.drops ==>
              Envelopes(t.routed) + Waiting(t) == Envelopes(s.routed) + Waiting(s) + Reads(steps)
    decreases |steps|
  {
    if steps != [] {
      var next := Next(s, steps[0]);
      NextKeeps(s, steps[0]);
      NextReads(s, steps[0]);
      hide Next, Envelopes, Waiting, State.Sound;
      RoutedAsRead(next, steps[1..]);
      var read := if steps[0].DoRead? then [steps[0].envelope] else [];
      assert Envelopes(s.routed) + Waiting(s) + read + Reads(steps[1..]) ==
        Envelopes(s.routed) + Waiting(s) + (read + Reads(steps[1..]));
    }
  }

  // ---- a turn from its opening to its close ----

  lemma RunOne(s: State, step: Step, steps: seq<Step>)
    requires s.Sound() && CanRun(s, [step] + steps)
    ensures Enabled(s, step) && Next(s, step).Sound() && CanRun(Next(s, step), steps)
    ensures Run(s, [step] + steps) == Run(Next(s, step), steps)
  {
    NextKeeps(s, step);
    assert ([step] + steps)[0] == step && ([step] + steps)[1..] == steps;
  }

  /** An opening that gets the lock is turned away if another turn is in the foreground,
      and leaves no trace; otherwise its inbox is attached, empty, and due for whatever is
      numbered from now on, and it holds the lock while it sends. */
  lemma OpeningIsSeated(s: State, task: nat)
    requires s.Sound() && Enabled(s, DoAttach(task))
    ensures var i, t := s.phases[task].inbox, Next(s, DoAttach(task));
            if s.attached.Some? then t == s.(phases := s.phases - {task})
            else
              && t.attached == Some(i) && t.lock == Some(task) && t.phases == s.phases[task := Sending(i)]
              && Attached(t.cycle) && Waking(t.cycle) == Waking(s.cycle) && t.broken == s.broken
              && i in t.inboxes && t.inboxes[i].minimum == s.sequence + 1 && t.inboxes[i].items == []
              && (t.inboxes[i].adopted <==> Waking(s.cycle))
              && t.spans == s.spans[i := Span(|s.routed|, None)]
  {
    hide State.Counted;
  }

  /** A turn that begins to open waits for the lock alone. */
  lemma OpeningBegins(s: State, task: nat, inbox: nat)
    requires s.Sound() && Enabled(s, DoBeginOpen(task, inbox))
    ensures var t := Next(s, DoBeginOpen(task, inbox));
            t.phases == s.phases[task := Opening(inbox)] && (Enabled(t, DoAttach(task)) <==> s.lock.None?)
  {
    hide State.Sound;
  }

  /** The lock is let go by the task that sends, when its send is over or cancelled, and by
      no other step; a cancelled opening goes on to close its inbox. */
  lemma OnlyTheSenderHolds(s: State, step: Step, task: nat)
    requires s.Sound() && Enabled(s, step) && s.lock == Some(task)
    ensures task in s.phases && s.phases[task].Sending?
    ensures var t := Next(s, step);
            if step == DoLeave(task) then t.lock == None && task !in t.phases
            else if step == DoCancelOpen(task)
            then t.lock == None && task in t.phases && t.phases[task] == Closing(s.phases[task].inbox)
            else t.lock == s.lock && task in t.phases && t.phases[task] == s.phases[task]
  {
    hide State.CycleAgrees, State.Counted, State.SpansAgree, State.Exact, Turn, StartsWake, FinishesWake;
  }

  /** A task that gives up is gone; the lock another task holds stays with it. */
  lemma LeavingIsGone(s: State, task: nat)
    requires s.Sound() && Enabled(s, DoLeave(task))
    ensures var t := Next(s, DoLeave(task));
            task !in t.phases && t.lock == (if s.lock == Some(task) then None else s.lock)
  {
    hide State.Sound;
  }

  /** An inbox is detached by the close of its own turn, and by no other step. */
  lemma OnlyItsCloseDetaches(s: State, step: Step, i: nat)
    requires s.Sound() && Enabled(s, step) && s.attached == Some(i)
    ensures Next(s, step).attached == Some(i) <==> !(step.DoFinishClose? && s.phases[step.task] == Closing(i))
  {
    hide State.CycleAgrees, State.Counted, State.LockAgrees, State.Exact, Turn, Route;
    if step.DoRoute? { RouteRoutes(s); }
  }

  lemma StaysDetached(s: State, task: nat, i: nat)
    requires task in s.phases && s.attached != Some(i)
    ensures FinishClose(s, task).attached != Some(i)
  {
  }

  /** An inbox that is detached stays so, and is given nothing more. */
  lemma DetachedStays(s: State, step: Step, i: nat)
    requires s.Sound() && Enabled(s, step) && i in s.spans && s.spans[i].stop.Some?
    ensures var t := Next(s, step);
            && i in s.inboxes && i in t.spans && t.spans[i] == s.spans[i] && t.attached != Some(i)
            && i in t.inboxes && t.inboxes[i].items == s.inboxes[i].items
  {
    hide State.CycleAgrees, State.Counted, State.Exact, Turn, Route, FinishClose;
    if step.DoRoute? {
      RouteRoutes(s);
    } else if step.DoFinishClose? {
      CloseEnds(s, step.task);
      StaysDetached(s, step.task, i);
    }
  }

  lemma {:induction false} DetachedForGood(s: State, steps: seq<Step>, i: nat)
    requires s.Sound() && CanRun(s, steps) && i in s.spans && s.spans[i].stop.Some?
    ensures var t := Run(s, steps);
            && t.attached != Some(i) && i in s.inboxes && i in t.inboxes && t.inboxes[i].items == s.inboxes[i].items
    decreases |steps|
  {
    assert s.attached != Some(i) && i in s.inboxes;
    if steps != [] {
      NextKeeps(s, steps[0]);
      DetachedStays(s, steps[0], i);
      hide Next, State.Sound;
      DetachedForGood(Next(s, steps[0]), steps[1..], i);
    }
  }

  /** Closing a turn that is attached takes it out of the foreground, and the next opening
      is not turned away; it never comes back, and is given nothing more.  Closing another
      turn changes nothing for this one. */
  lemma ClosedForGood(s: State, task: nat, steps: seq<Step>)
    requires s.Sound() && CanRun(s, [DoFinishClose(task)] + steps)
    ensures Enabled(s, DoFinishClose(task))
    ensures var i, t, last := s.phases[task].inbox, Next(s, DoFinishClose(task)), Run(s, [DoFinishClose(task)] + steps);
            && t.attached != Some(i) && t.phases == s.phases - {task} && Waking(t.cycle) == Waking(s.cycle)
            && (s.attached == Some(i) ==> t.attached == None && !Refuses(t) && !Attached(t.cycle))
            && (s.attached != Some(i) ==> t.attached == s.attached && t.cycle == s.cycle)
            && (i in s.spans ==>
                  && last.attached != Some(i) && i in s.inboxes && i in last.inboxes
                  && last.inboxes[i].items == s.inboxes[i].items)
  {
    RunOne(s, DoFinishClose(task), steps);
    CloseDetaches(s, task);
    var i, t := s.phases[task].inbox, Next(s, DoFinishClose(task));
    hide Run, CanRun, Next, State.Sound;
    if i in t.spans {
      DetachedForGood(t, steps, i);
    }
  }

  lemma CloseDetaches(s: State, task: nat)
    requires s.Sound() && Enabled(s, DoFinishClose(task))
    ensures var i, t := s.phases[task].inbox, Next(s, DoFinishClose(task));
            && t.attached != Some(i) && t.phases == s.phases - {task} && Waking(t.cycle) == Waking(s.cycle)
            && (s.attached == Some(i) ==> t.attached == None && !Attached(t.cycle))
            && (s.attached != Some(i) ==> t.attached == s.attached && t.cycle == s.cycle)
            && t.inboxes == s.inboxes && t.spans.Keys == s.spans.Keys
            && (i in s.spans ==> t.spans[i].stop.Some?)
  {
    hide State.Counted, State.LockAgrees, State.Exact;
  }

  /** A turn that begins to close goes on to it once the lock is free. */
  lemma ClosingBegins(s: State, task: nat, inbox: nat)
    requires s.Sound() && Enabled(s, DoBeginClose(task, inbox))
    ensures var t := Next(s, DoBeginClose(task, inbox));
            t.phases == s.phases[task := Closing(inbox)] && (Enabled(t, DoFinishClose(task)) <==> s.lock.None?)
  {
    hide State.Sound;
  }

  // ---- what a turn takes out of its inbox ----

  /** A failure is put in the attached inbox, after all that is there, and stays. */
  lemma FailureArrives(s: State, error: string, steps: seq<Step>)
    requires s.Sound() && Fresh(s) && CanRun(s, [DoFail(error)] + steps)
    ensures s.attached.Some? ==>
              var i, t := s.attached.value, Run(s, [DoFail(error)] + steps);
              i in s.inboxes && i in t.inboxes && s.inboxes[i].items + [Failure(error)] <= t.inboxes[i].items
    ensures s.attached.None? ==> Next(s, DoFail(error)) == s
  {
    RunOne(s, DoFail(error), steps);
    NextGrows(s, DoFail(error));
    hide Run, CanRun;
    assert s.attached.Some? ==> s.attached.value in s.inboxes;
    RunsAreSound(Next(s, DoFail(error)), steps);
  }

  /** The items a turn takes in one step, and over a run. */
  ghost function TakenBy(s: State, step: Step, i: nat): seq<Item>
    requires Enabled(s, step)
  {
    if step == DoReceive(i) then [s.inboxes[i].items[s.inboxes[i].taken]] else []
  }

  ghost function Taken(s: State, steps: seq<Step>, i: nat): seq<Item>
    requires s.Sound() && CanRun(s, steps)
    decreases |steps|
  {
    if steps == [] then []
    else
      NextKeeps(s, steps[0]);
      TakenBy(s, steps[0], i) + Taken(Next(s, steps[0]), steps[1..], i)
  }

  /** How far a turn has come with its inbox. */
  ghost predicate UpTo(s: State, i: nat) {
    i in s.inboxes && s.inboxes[i].taken <= |s.inboxes[i].items|
  }

  /** A step takes the next item of an inbox, or leaves what is there to take. */
  lemma NextMoves(s: State, step: Step, i: nat)
    requires s.Sound() && Enabled(s, step) && i in s.inboxes
    ensures var t := Next(s, step);
            && i in t.inboxes && s.inboxes[i].items <= t.inboxes[i].items
            && t.inboxes[i].taken == s.inboxes[i].taken + if step == DoReceive(i) then 1 else 0
  {
    hide State.Sound, Turn, Route;
    if step.DoRoute? { RouteRoutes(s); }
  }

  lemma TakenWithin(s: State, i: nat)
    requires s.Sound() && i in s.inboxes
    ensures UpTo(s, i)
  {
  }

  lemma NextTakes(s: State, step: Step, i: nat)
    requires s.Sound() && Enabled(s, step) && i in s.inboxes
    ensures var t := Next(s, step);
            && UpTo(s, i) && UpTo(t, i) && s.inboxes[i].items <= t.inboxes[i].items
            && s.inboxes[i].taken <= t.inboxes[i].taken
            && TakenBy(s, step, i) == t.inboxes[i].items[s.inboxes[i].taken..t.inboxes[i].taken]
  {
    hide State.Sound, Next;
    NextMoves(s, step, i);
    TakenWithin(s, i);
    var from, all := s.inboxes[i].taken, Next(s, step).inboxes[i].items;
    if step == DoReceive(i) {
      assert all[from] == s.inboxes[i].items[from];
      assert all[from..from + 1] == [all[from]];
    } else {
      assert all[from..from] == [];
    }
  }

  lemma TakesOn(items: seq<Item>, all: seq<Item>, from: nat, to: nat, end: nat)
    requires items <= all && from <= to <= |items| && to <= end <= |all|
    ensures items[from..to] + all[to..end] == all[from..end]
  {
  }

  /** Over every interleaving, a turn takes the items of its inbox in the order they were
      put in, none twice and none left out. */
  lemma {:induction false} TakenInOrder(s: State, steps: seq<Step>, i: nat)
    requires s.Sound() && CanRun(s, steps) && i in s.inboxes
    ensures var t := Run(s, steps);
            && UpTo(s, i) && UpTo(t, i) && s.inboxes[i].items <= t.inboxes[i].items
            && s.inboxes[i].taken <= t.inboxes[i].taken
            && Taken(s, steps, i) == t.inboxes[i].items[s.inboxes[i].taken..t.inboxes[i].taken]
    decreases |steps|
  {
    TakenWithin(s, i);
    if steps != [] {
      var next, t := Next(s, steps[0]), Run(s, steps);
      NextKeeps(s, steps[0]);
      NextTakes(s, steps[0], i);
      hide Next, State.Sound, TakenBy;
      TakenInOrder(next, steps[1..], i);
      TakesOn(next.inboxes[i].items, t.inboxes[i].items, s.inboxes[i].taken, next.inboxes[i].taken, t.inboxes[i].taken);
    }
  }
}
