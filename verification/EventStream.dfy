/** One turn's `TurnEventStream`, each method one stretch between two places where its
    task may be parked, tied to the step it is. */
module EventStream {
  import opened Wrappers
  import opened EventSteps

  class TurnEventStream {
    const thread: string
    const initialError: Option<End>
    var initialEmitted: bool
    var terminalEmitted: bool
    var closed: bool
    var closedCallbackCalled: bool
    var pending: seq<Event>

    ghost var pull: Pull
    ghost var closers: nat
    ghost var out: seq<Event>
    ghost var late: nat
    ghost var calls: nat
    ghost var unreported: bool
    ghost var unclosed: bool

    ghost function View(): State
      reads this
    {
      State(initialError, initialEmitted, terminalEmitted, closed, closedCallbackCalled, pending, pull, closers, out,
            late, calls, unreported, unclosed)
    }

    ghost predicate Valid()
      reads this
    {
      View().Sound()
    }

    constructor (thread: string, initialError: Option<End>)
      ensures Valid() && View() == Start(initialError) && this.thread == thread
    {
      this.thread, this.initialError := thread, initialError;
      initialEmitted, terminalEmitted, closed, closedCallbackCalled, pending := false, false, false, false, [];
      pull, closers, out, late, calls, unreported, unclosed := NoPull, 0, [], 0, 0, false, false;
    }

    /** An event goes to the consumer. */
    ghost method Hand(e: Event)
      modifies this`out, this`late, this`pull
      ensures View() == Return(old(View()), e)
    {
      out, late, pull := out + [e], late + (if closed then 1 else 0), NoPull;
    }

    /** `__anext__` up to its first wait. */
    method Next() returns (event: Option<Event>)
      requires Valid() && pull == NoPull
      modifies this
      ensures Valid() && View() == Ask(old(View()))
      ensures event.Some? ==> out == old(out) + [event.value]
      ensures event.None? ==> out == old(out)
    {
      AskKeeps(View());
      if closed {
        return None;
      }
      if pending != [] {
        event, pending := Some(pending[0]), pending[1..];
        Hand(event.value);
        return;
      }
      if terminalEmitted {
        return None;
      }
      if !initialEmitted {
        initialEmitted := true;
        if initialError.Some? {
          pull := Telling(AtStart);
          return None;
        }
        Hand(Started);
        return Some(Started);
      }
      pull := Receiving;
      return None;
    }

    /** A message is received, and mapped up to where that may wait. */
    method OnMessage(m: Message, adopted: bool) returns (event: Option<Event>)
      requires Valid() && pull == Receiving
      modifies this
      ensures Valid() && View() == Receive(old(View()), m, thread, adopted)
      ensures event.Some? ==> out == old(out) + [event.value]
      ensures event.None? ==> out == old(out)
    {
      ReceiveKeeps(View(), m, thread, adopted);
      event := None;
      match Map(m, thread, adopted) {
        case Items(events) =>
          pending := pending + events;
          if pending != [] {
            event, pending := Some(pending[0]), pending[1..];
            Hand(event.value);
          } else if closed {
            pull := NoPull;
          }
        case Raises => pull := Telling(AtError);
        case Resets => pull := Telling(AtReset);
        case Claims(usage, end) => pull := Claiming(usage, end);
      }
    }

    /** `_terminal_event` up to its wait for the owner, if it has one to wait for. */
    method EndTurn(items: seq<Event>, mapped: bool) returns (event: Option<Event>)
      requires items != [] && (mapped ==> pending == [])
      modifies this
      ensures View() == EndWith(old(View()), items, mapped)
      ensures event.Some? ==> out == old(out) + [event.value]
      ensures event.None? ==> out == old(out)
    {
      terminalEmitted := true;
      if !closedCallbackCalled {
        closedCallbackCalled := true;
        calls, pull := calls + 1, Ending(items, mapped);
        return None;
      }
      event := HandOut(items, mapped);
    }

    /** What follows `_terminal_event`. */
    method HandOut(items: seq<Event>, mapped: bool) returns (event: Option<Event>)
      requires items != []
      modifies this`pending, this`out, this`late, this`pull
      ensures View() == Deliver(old(View()), items, mapped)
      ensures event.Some? && out == old(out) + [event.value]
    {
      if mapped {
        pending := pending + items;
        event, pending := Some(pending[0]), pending[1..];
      } else {
        event := Some(items[0]);
      }
      Hand(event.value);
    }

    /** The claim of a result is answered. */
    method OnClaim(granted: bool, usage: UsageFields, end: End) returns (event: Option<Event>)
      requires Valid() && pull == Claiming(usage, end)
      modifies this
      ensures Valid() && View() == Claim(old(View()), granted)
      ensures event.Some? ==> out == old(out) + [event.value]
      ensures event.None? ==> out == old(out)
    {
      ClaimKeeps(View(), granted);
      event := None;
      if !granted {
        pull := if closed then NoPull else Receiving;
        return;
      }
      if usage == BadUsage {
        pull := Telling(AtError);
        return;
      }
      var items := if usage == SomeUsage then [Usage] else [];
      assert items + [Terminal(end)] == if usage == SomeUsage then [Usage, Terminal(end)] else [Terminal(end)];
      event := EndTurn(items + [Terminal(end)], true);
    }

    /** The owner has been told. */
    method OnTold(why: Why) returns (event: Option<Event>)
      requires Valid() && pull == Telling(why)
      modifies this
      ensures why.AtStart? ==> initialError.Some?
      ensures Valid() && View() == Told(old(View()))
      ensures event.Some? ==> out == old(out) + [event.value]
      ensures event.None? ==> out == old(out)
    {
      ToldKeeps(View());
      match why {
        case AtStart => event := EndTurn([Terminal(initialError.value)], false);
        case AtReset => event := EndTurn([Terminal(Unknown)], true);
        case AtError => event := EndTurn([Terminal(Unknown)], false);
      }
    }

    /** Receiving or claiming has failed, or is cancelled; whether the owner is told. */
    method OnFailure(caught: bool) returns (tells: bool)
      requires Valid() && (pull.Receiving? || pull.Claiming?)
      modifies this`pull
      ensures Valid() && View() == EventSteps.Fail(old(View()), caught)
      ensures tells == caught
    {
      FailKeeps(View(), caught);
      pull := if caught then Telling(AtError) else NoPull;
      tells := caught;
    }

    /** The owner has raised while it was told; whether it is told of that. */
    method OnNotTold(why: Why, caught: bool) returns (tells: bool)
      requires Valid() && pull == Telling(why)
      modifies this`pull, this`unreported
      ensures Valid() && View() == NotTold(old(View()), caught)
      ensures tells == (why.AtReset? && caught)
    {
      NotToldKeeps(View(), caught);
      tells := why.AtReset? && caught;
      if why.AtStart? {
        unreported := !closed;
      }
      pull := if tells then Telling(AtError) else NoPull;
    }

    /** The owner's callback at the end of the turn has raised; whether the owner is told. */
    method OnNotEnded(items: seq<Event>, mapped: bool, caught: bool) returns (tells: bool)
      requires Valid() && pull == Ending(items, mapped)
      modifies this`pull
      ensures Valid() && View() == NotEnded(old(View()), caught)
      ensures tells == (mapped && caught)
    {
      NotEndedKeeps(View(), caught);
      tells := mapped && caught;
      pull := if tells then Telling(AtError) else NoPull;
    }

    /** The owner's callback at the end of the turn has returned. */
    method OnEnded(items: seq<Event>, mapped: bool) returns (event: Option<Event>)
      requires Valid() && pull == Ending(items, mapped) && items != []
      modifies this
      ensures Valid() && View() == Deliver(old(View()), items, mapped)
      ensures event.Some? && out == old(out) + [event.value]
    {
      DeliverKeeps(View(), items, mapped);
      event := HandOut(items, mapped);
    }

    /** `_call_closed` up to its wait. */
    method CallOwner() returns (call: bool)
      requires Valid()
      modifies this
      ensures Valid() && View() == CallClosed(old(View()))
      ensures call <==> old(calls) == 0
      ensures call ==> calls == 1
    {
      CallClosedKeeps(View());
      call := !closedCallbackCalled;
      if call {
        closedCallbackCalled := true;
        calls := calls + 1;
      }
    }

    /** `aclose` up to its first wait; whether it tells the owner first. */
    method AClose() returns (tells: bool)
      requires Valid()
      modifies this
      ensures Valid() && View() == Close(old(View()))
      ensures tells <==> !old(terminalEmitted)
    {
      CloseKeeps(View());
      closed := true;
      tells := !terminalEmitted;
      if tells {
        closers := closers + 1;
        return;
      }
      if !closedCallbackCalled {
        closedCallbackCalled := true;
        calls := calls + 1;
      }
    }
  }
}
