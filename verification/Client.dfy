/** The connection's `Client`, each method one stretch of a task between two
    suspension points, tied to the step it is. */
module Client {
  import opened Wrappers
  import opened ClientSteps

  class Client {
    var cycle: Cycle
    /** The turn inboxes made, by number: the objects the source's tasks hold. */
    var inboxes: map<nat, Inbox>
    var attached: Option<nat>
    var sequence: nat
    /** The holder of the route lock. */
    var lock: Option<nat>
    /** A transition the table does not have was asked for. */
    var broken: bool

    ghost var numbered: Option<Envelope>
    ghost var phases: map<nat, Phase>
    ghost var routed: seq<Numbered>
    ghost var spans: map<nat, Span>
    ghost var drops: nat

    ghost function View(): State
      reads this
    {
      State(cycle, inboxes, attached, sequence, numbered, lock, phases, routed, spans, drops, broken)
    }

    ghost predicate Valid()
      reads this
    {
      View().Sound()
    }

    constructor ()
      ensures Valid() && View() == Start
    {
      cycle, inboxes, attached, sequence, lock, broken := Idle, map[], None, 0, None, false;
      numbered, phases, routed, spans, drops := None, map[], [], map[], 0;
    }

    /** `_transition`. */
    method Turn(event: Event)
      modifies this`cycle, this`broken
      ensures View() == ClientSteps.Turn(old(View()), event)
    {
      match Transition(cycle, event)
      case Some(next) => cycle := next;
      case None => broken := true;
    }

    /** `open_turn` up to the lock. */
    method BeginOpen(task: nat, inbox: nat)
      requires Valid() && Enabled(View(), DoBeginOpen(task, inbox))
      modifies this`inboxes, this`phases
      ensures Valid() && View() == ClientSteps.BeginOpen(old(View()), task, inbox)
    {
      hide State.Sound;
      OpenKeeps(View(), task, inbox);
      inboxes := inboxes[inbox := Inbox(sequence + 1, false, [], 0)];
      phases := phases[task := Opening(inbox)];
    }

    /** `open_turn` from the lock to its send; refused while another turn is in the
        foreground. */
    method Attach(task: nat, inbox: nat) returns (refused: bool)
      requires Valid() && Enabled(View(), DoAttach(task)) && phases[task].inbox == inbox
      modifies this`cycle, this`broken, this`inboxes, this`attached, this`lock, this`phases, this`spans
      ensures Valid() && View() == ClientSteps.Attach(old(View()), task)
      ensures refused == old(attached).Some?
      ensures !refused ==> inboxes[inbox].minimum == sequence + 1 && attached == Some(inbox) && lock == Some(task)
    {
      assert phases[task].inbox in inboxes;
      hide State.Sound;
      AttachKeeps(View(), task);
      if attached.Some? {
        phases := phases - {task};
        return true;
      }
      Turn(ForegroundOpened);
      Seat(task, inbox);
      return false;
    }

    /** What `open_turn` does once the cycle has turned. */
    method Seat(task: nat, inbox: nat)
      requires inbox in inboxes
      modifies this`inboxes, this`attached, this`lock, this`phases, this`spans
      ensures View() == ClientSteps.Seat(old(View()), task, inbox)
    {
      var was := inboxes[inbox];
      inboxes := inboxes[inbox := was.(minimum := sequence + 1, adopted := cycle == ProviderWakeAdopted)];
      attached := Some(inbox);
      lock := Some(task);
      phases, spans := phases[task := Sending(inbox)], spans[inbox := Span(|routed|, None)];
    }

    /** A task is over: its message was sent, failed or timed out, or it gave up
        waiting for the lock. */
    method Leave(task: nat)
      requires Valid() && Enabled(View(), DoLeave(task))
      modifies this`lock, this`phases
      ensures Valid() && View() == ClientSteps.Leave(old(View()), task)
    {
      LeaveKeeps(View(), task);
      if lock == Some(task) {
        lock := None;
      }
      phases := phases - {task};
    }

    /** An opening is cancelled, and goes on to close its inbox. */
    method CancelOpen(task: nat, inbox: nat)
      requires Valid() && Enabled(View(), DoCancelOpen(task)) && phases[task].inbox == inbox
      modifies this`lock, this`phases
      ensures Valid() && View() == ClientSteps.CancelOpen(old(View()), task)
    {
      CancelKeeps(View(), task);
      if lock == Some(task) {
        lock := None;
      }
      phases := phases[task := Closing(inbox)];
    }

    /** `close_turn` up to the lock. */
    method BeginClose(task: nat, inbox: nat)
      requires Valid() && Enabled(View(), DoBeginClose(task, inbox))
      modifies this`phases
      ensures Valid() && View() == ClientSteps.BeginClose(old(View()), task, inbox)
    {
      BeginCloseKeeps(View(), task, inbox);
      phases := phases[task := Closing(inbox)];
    }

    /** `close_turn` under the lock. */
    method FinishClose(task: nat, inbox: nat)
      requires Valid() && Enabled(View(), DoFinishClose(task)) && phases[task].inbox == inbox
      modifies this`cycle, this`broken, this`attached, this`phases, this`spans
      ensures Valid() && View() == ClientSteps.FinishClose(old(View()), task)
      ensures attached != Some(inbox)
      ensures old(attached) == Some(inbox) ==> attached == None && !Attached(cycle)
    {
      assert attached == Some(inbox) ==> inbox in spans;
      hide State.Sound, Detach;
      CloseKeeps(View(), task);
      phases := phases - {task};
      if attached == Some(inbox) {
        Unseat(inbox);
      }
    }

    /** The attached inbox is detached. */
    method Unseat(inbox: nat)
      requires inbox in spans
      modifies this`cycle, this`broken, this`attached, this`spans
      ensures View() == Detach(old(View()), inbox)
    {
      hide State.Sound;
      Turn(ForegroundClosed);
      attached, spans := None, spans[inbox := spans[inbox].(stop := Some(|routed|))];
    }

    /** The reader takes a business message and numbers it. */
    method Read(envelope: Envelope) returns (number: nat)
      requires Valid() && Enabled(View(), DoRead(envelope))
      modifies this`sequence, this`numbered
      ensures Valid() && View() == ClientSteps.Read(old(View()), envelope)
      ensures number == sequence
    {
      hide State.Sound;
      ReadKeeps(View(), envelope);
      sequence := sequence + 1;
      numbered := Some(envelope);
      return sequence;
    }

    /** `_route_business_message` under the lock. */
    method Route(envelope: Envelope, number: nat)
      requires Valid() && Enabled(View(), DoRoute) && numbered == Some(envelope) && number == sequence
      modifies this`cycle, this`broken, this`inboxes, this`numbered, this`routed
      ensures Valid() && View() == ClientSteps.Route(old(View()))
    {
      hide State.Sound, State.CycleAgrees, State.LockAgrees, State.Counted, State.SpansAgree, State.Exact;
      RouteKeeps(View());
      if StartsWake(envelope) {
        Turn(WakeStarted);
      }
      Give(envelope, number);
      if FinishesWake(envelope) {
        Turn(WakeFinished);
      }
      numbered, routed := None, routed + [Numbered(number, envelope)];
    }

    /** A message is put in the attached inbox, if it is due there. */
    method Give(envelope: Envelope, number: nat)
      modifies this`inboxes
      ensures inboxes == if attached.Some? && attached.value in old(inboxes)
                         then old(inboxes)[attached.value := Given(old(inboxes)[attached.value],
                                             cycle == ProviderWakeAdopted, envelope, number)]
                         else old(inboxes)
    {
      if attached.Some? && attached.value in inboxes {
        var inbox := inboxes[attached.value];
        if cycle == ProviderWakeAdopted {
          inbox := inbox.(adopted := true);
        }
        if inbox.minimum <= number {
          inbox := inbox.(items := inbox.items + [Message(envelope)]);
        }
        inboxes := inboxes[attached.value := inbox];
      }
    }

    /** The reader is cancelled while it waits to route. */
    method Drop()
      requires Valid() && Enabled(View(), DoDrop)
      modifies this`numbered, this`drops
      ensures Valid() && View() == ClientSteps.Drop(old(View()))
    {
      hide State.Sound;
      DropKeeps(View());
      numbered, drops := None, drops + 1;
    }

    /** `_publish_failure`. */
    method Fail(error: string)
      requires Valid()
      modifies this`inboxes
      ensures Valid() && View() == ClientSteps.Fail(old(View()), error)
    {
      FailKeeps(View(), error);
      if attached.Some? {
        var inbox := inboxes[attached.value];
        inboxes := inboxes[attached.value := inbox.(items := inbox.items + [Failure(error)])];
      }
    }

    /** `receive`, once there is an item. */
    method Receive(inbox: nat) returns (item: Item)
      requires Valid() && inbox in inboxes && inboxes[inbox].taken < |inboxes[inbox].items|
      modifies this`inboxes
      ensures View() == ClientSteps.Receive(old(View()), inbox)
      ensures Valid()
      ensures item == old(inboxes)[inbox].items[old(inboxes)[inbox].taken]
    {
      hide State.Sound;
      var was := inboxes[inbox];
      item := was.items[was.taken];
      ReceiveKeeps(View(), inbox);
      inboxes := inboxes[inbox := was.(taken := was.taken + 1)];
    }
  }
}
