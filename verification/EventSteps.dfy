/** The stream of events of one turn, as steps on a value.

    One consumer pulls, and a pull may be parked while a message is received, a
    result is claimed, or one of the owner's callbacks runs; closing the stream may
    come in between.  Callbacks may raise, and any parked task may be cancelled. */
module EventSteps {
  import opened Wrappers

  datatype End = Completed | Failed | Cancelled | Unknown

  /** What the stream hands out; `Other` stands for every event that neither starts
      nor ends the turn. */
  datatype Event = Started | Other(text: string) | Usage | Terminal(end: End)

  // ---- messages ----

  datatype UsageFields = NoUsage | SomeUsage | BadUsage

  /** What is read of a provider message.  `reading`: the events a message that is no
      result comes to, nothing when it is malformed. */
  datatype Message = Message(
    kind: string,
    session: Option<string>,
    reading: Option<seq<string>>,
    valid: bool,
    origin: Option<string>,
    usage: UsageFields,
    failed: bool)

  datatype Mapped = Items(events: seq<Event>) | Raises | Resets | Claims(usage: UsageFields, end: End)

  function Others(texts: seq<string>): (events: seq<Event>)
    ensures |events| == |texts| && forall i :: 0 <= i < |events| ==> events[i] == Other(texts[i])
  {
    seq(|texts|, i requires 0 <= i < |texts| => Other(texts[i]))
  }

  predicate NeedsSession(kind: string) {
    kind in {"user", "assistant", "system", "result", "stream_event", "conversation_reset"}
  }

  /** `_map_message` up to the first place it may wait. */
  function Map(m: Message, thread: string, adopted: bool): Mapped {
    if NeedsSession(m.kind) && m.session.None? then Raises
    else if m.session.Some? && m.session.value != thread then Raises
    else if m.kind == "result" then
      if !m.valid then Raises
      else if m.origin.Some? && m.origin.value != "human" && !adopted then Items([])
      else Claims(m.usage, if m.failed then Failed else Completed)
    else if m.kind in {"stream_event", "assistant", "user", "system"} then
      if m.reading.None? then Raises else Items(Others(m.reading.value))
    else if m.kind == "conversation_reset" then Resets
    else Items([])
  }

  // ---- the stream ----

  /** Where a call of the owner's `on_unusable` was made. */
  datatype Why = AtStart | AtReset | AtError

  /** Where the consumer's pull stands.  `Ending`: in `on_closed`, with the events to
      hand out after it; `mapped`, when a message is being mapped. */
  datatype Pull =
    | NoPull
    | Receiving
    | Claiming(usage: UsageFields, end: End)
    | Telling(why: Why)
    | Ending(items: seq<Event>, mapped: bool)

  /** The fields of the source's `TurnEventStream`, and where its tasks stand.
      `opening`: how the turn ended if it failed to open.  `closers`: how many
      `aclose` calls are parked in `on_unusable`.  `out`: all that was handed out, of
      which `late` after the stream was closed; `calls`: how often `on_closed` was
      called.  `unreported`: `on_unusable` raised over a failed opening of a stream
      that was open;
      `unclosed`: it raised in an `aclose`. */
  datatype State = State(
    opening: Option<End>,
    initialEmitted: bool,
    terminalEmitted: bool,
    closed: bool,
    closedCalled: bool,
    pending: seq<Event>,
    pull: Pull,
    closers: nat,
    out: seq<Event>,
    late: nat,
    calls: nat,
    unreported: bool,
    unclosed: bool)
  {
    /** A terminal was handed out, or waits to be. */
    predicate Ended() {
      (out != [] && out[|out| - 1].Terminal?) || (pending != [] && pending[|pending| - 1].Terminal?)
    }

    /** Started comes first and the terminal last, in what is out and in what waits. */
    ghost predicate Ordered() {
      && (forall i :: 0 < i < |out| ==> !out[i].Started?)
      && (forall i :: 0 <= i < |out| - 1 ==> !out[i].Terminal?)
      && (forall i :: 0 <= i < |pending| ==> !pending[i].Started?)
      && (forall i :: 0 <= i < |pending| - 1 ==> !pending[i].Terminal?)
      && (pending != [] ==> out != [] && !out[|out| - 1].Terminal?)
    }

    /** What a pull that is under way may rely on. */
    ghost predicate PullAgrees() {
      && (pull != NoPull ==> initialEmitted && pending == [] && !Ended())
      && (terminalEmitted ==> !pull.Receiving? && !pull.Claiming?)
      && (Ended() ==> terminalEmitted && closedCalled)
      && (pull.Ending? ==>
            && terminalEmitted && closedCalled
            && pull.items != [] && pull.items[|pull.items| - 1].Terminal?
            && (forall i :: 0 <= i < |pull.items| - 1 ==> !pull.items[i].Terminal? && !pull.items[i].Started?)
            && (pull.mapped && opening.None? ==> out != [])
            && (!pull.mapped ==> |pull.items| == 1))
    }

    /** How the stream begins. */
    ghost predicate OpeningAgrees() {
      && (!initialEmitted ==> out == [] && pending == [] && !terminalEmitted && !unreported)
      && (unreported ==> opening.Some?)
      && (pull.Telling? && pull.why == AtStart ==> opening.Some? && out == [] && !terminalEmitted && !unreported)
      && (opening.None? && initialEmitted ==> out != [] && out[0] == Started)
      && (opening.Some? && !unreported ==>
            && pending == []
            && !pull.Receiving? && !pull.Claiming?
            && (pull.Telling? ==> pull.why == AtStart)
            && (pull.Ending? ==> !pull.mapped && pull.items != [] && pull.items[0] == Terminal(opening.value))
            && |out| <= 1 && (out != [] ==> out[0] == Terminal(opening.value))
            && (initialEmitted && pull == NoPull ==> terminalEmitted || closed))
    }

    /** The closed callback, and what closing still allows. */
    ghost predicate ClosingAgrees() {
      && calls == (if closedCalled then 1 else 0)
      && (closed ==> closers > 0 || unclosed || closedCalled)
      && (!closed ==> closers == 0 && !unclosed && late == 0)
      && (late > 0 ==> late == 1 && pull == NoPull)
    }

    ghost predicate Sound() {
      Ordered() && PullAgrees() && OpeningAgrees() && ClosingAgrees()
    }
  }

  /** What no step ever changes or takes back. */
  predicate Onward(s: State, after: State) {
    && after.opening == s.opening && s.out <= after.out
    && (s.closed ==> after.closed && |after.out| - after.late == |s.out| - s.late) && s.calls <= after.calls
  }

  /** A step that hands nothing over, and does not end the turn. */
  predicate Quiet(s: State, after: State) {
    after.out == s.out && after.pending == s.pending && (after.pull.Ending? ==> after.pull == s.pull)
  }

  function Start(opening: Option<End>): State {
    State(opening, false, false, false, false, [], NoPull, 0, [], 0, 0, false, false)
  }

  /** The pull returns an event. */
  function Return(s: State, e: Event): (after: State)
    ensures Onward(s, after)
  {
    s.(out := s.out + [e], late := s.late + (if s.closed then 1 else 0), pull := NoPull)
  }

  /** The first of what waits is returned. */
  function ReturnFirst(s: State): (after: State)
    requires s.pending != []
    ensures Onward(s, after)
  {
    Return(s.(pending := s.pending[1..]), s.pending[0])
  }

  /** Once `on_closed` has returned. */
  function Deliver(s: State, items: seq<Event>, mapped: bool): (after: State)
    requires items != []
    ensures Onward(s, after)
  {
    if mapped then ReturnFirst(s.(pending := s.pending + items)) else Return(s, items[0])
  }

  /** `_terminal_event`, and what follows it if the callback was called before. */
  function EndWith(s: State, items: seq<Event>, mapped: bool): (after: State)
    requires items != []
    ensures Onward(s, after)
  {
    if s.closedCalled then Deliver(s.(terminalEmitted := true), items, mapped)
    else s.(terminalEmitted := true, closedCalled := true, calls := s.calls + 1, pull := Ending(items, mapped))
  }

  /** `__anext__` up to the first place it may wait. */
  function Ask(s: State): (after: State)
    ensures Onward(s, after)
  {
    if s.closed then s
    else if s.pending != [] then ReturnFirst(s)
    else if s.terminalEmitted then s
    else if !s.initialEmitted then
      var begun := s.(initialEmitted := true);
      if s.opening.Some? then begun.(pull := Telling(AtStart)) else Return(begun, Started)
    else s.(pull := Receiving)
  }

  function Receive(s: State, m: Message, thread: string, adopted: bool): (after: State)
    ensures Onward(s, after)
  {
    match Map(m, thread, adopted)
    case Items(events) =>
      if events != [] then ReturnFirst(s.(pending := s.pending + events))
      else if s.closed then s.(pull := NoPull) else s
    case Raises => s.(pull := Telling(AtError))
    case Resets => s.(pull := Telling(AtReset))
    case Claims(usage, end) => s.(pull := Claiming(usage, end))
  }

  /** A failure inside the reading of a message: a protocol or transport error is told
      to the owner, anything else ends the pull. */
  function Fail(s: State, caught: bool): (after: State)
    ensures Onward(s, after) && Quiet(s, after)
  {
    s.(pull := if caught then Telling(AtError) else NoPull)
  }

  /** The claim of a result is answered. */
  function Claim(s: State, granted: bool): (after: State)
    requires s.pull.Claiming?
    ensures Onward(s, after)
  {
    if !granted then (if s.closed then s.(pull := NoPull) else s.(pull := Receiving))
    else match s.pull.usage
      case BadUsage => s.(pull := Telling(AtError))
      case SomeUsage => EndWith(s, [Usage, Terminal(s.pull.end)], true)
      case NoUsage => EndWith(s, [Terminal(s.pull.end)], true)
  }

  /** `on_unusable` has returned to a pull. */
  function Told(s: State): (after: State)
    requires s.pull.Telling? && (s.pull.why.AtStart? ==> s.opening.Some?)
    ensures Onward(s, after)
  {
    match s.pull.why
    case AtStart => EndWith(s, [Terminal(s.opening.value)], false)
    case AtReset => EndWith(s, [Terminal(Unknown)], true)
    case AtError => EndWith(s, [Terminal(Unknown)], false)
  }

  /** `on_unusable` has raised in a pull. */
  function NotTold(s: State, caught: bool): (after: State)
    requires s.pull.Telling?
    ensures Onward(s, after) && Quiet(s, after)
  {
    match s.pull.why
    case AtStart => s.(pull := NoPull, unreported := !s.closed)
    case AtReset => Fail(s, caught)
    case AtError => s.(pull := NoPull)
  }

  /** `on_closed` has raised in a pull. */
  function NotEnded(s: State, caught: bool): (after: State)
    requires s.pull.Ending?
    ensures Onward(s, after) && Quiet(s, after)
  {
    if s.pull.mapped then Fail(s, caught) else s.(pull := NoPull)
  }

  /** `_call_closed` in an `aclose`. */
  function CallClosed(s: State): (after: State)
    ensures Onward(s, after) && Quiet(s, after)
  {
    if s.closedCalled then s else s.(closedCalled := true, calls := s.calls + 1)
  }

  /** `aclose` up to the first place it may wait. */
  function Close(s: State): (after: State)
    ensures Onward(s, after) && Quiet(s, after)
  {
    if s.terminalEmitted then CallClosed(s.(closed := true)) else s.(closed := true, closers := s.closers + 1)
  }

  datatype Step =
    | DoAsk
    | DoReceive(message: Message, thread: string, adopted: bool)
    | DoFail(caught: bool)
    | DoClaim(granted: bool)
    | DoTold
    | DoNotTold(caught: bool)
    | DoEnded
    | DoNotEnded(caught: bool)
    | DoClose
    | DoCloserTold
    | DoCloserNotTold

  /** A step that cannot come next changes nothing. */
  predicate Enabled(s: State, step: Step) {
    match step
    case DoAsk => s.pull == NoPull
    case DoReceive(_, _, _) => s.pull == Receiving
    case DoFail(_) => s.pull.Receiving? || s.pull.Claiming?
    case DoClaim(_) => s.pull.Claiming?
    case DoTold => s.pull.Telling? && (s.pull.why.AtStart? ==> s.opening.Some?)
    case DoNotTold(_) => s.pull.Telling?
    case DoEnded => s.pull.Ending? && s.pull.items != []
    case DoNotEnded(_) => s.pull.Ending?
    case DoClose => true
    case DoCloserTold => s.closers > 0
    case DoCloserNotTold => s.closers > 0
  }

  function Next(s: State, step: Step): (after: State)
    ensures Onward(s, after)
  {
    if !Enabled(s, step) then s
    else match step
      case DoAsk => Ask(s)
      case DoReceive(m, thread, adopted) => Receive(s, m, thread, adopted)
      case DoFail(caught) => Fail(s, caught)
      case DoClaim(granted) => Claim(s, granted)
      case DoTold => Told(s)
      case DoNotTold(caught) => NotTold(s, caught)
      case DoEnded => Deliver(s, s.pull.items, s.pull.mapped)
      case DoNotEnded(caught) => NotEnded(s, caught)
      case DoClose => Close(s)
      case DoCloserTold => CallClosed(s.(closers := s.closers - 1))
      case DoCloserNotTold => s.(closers := s.closers - 1, unclosed := true)
  }

  function Run(s: State, steps: seq<Step>): State
    decreases |steps|
  {
    if steps == [] then s else Run(Next(s, steps[0]), steps[1..])
  }

  // ---- what every step keeps ----

  lemma AskKeeps(s: State)
    requires s.Sound() && s.pull == NoPull
    ensures Ask(s).Sound()
  {
    if !s.closed && s.pending != [] {
      FirstKeeps(s);
    }
  }

  lemma FirstKeeps(s: State)
    requires s.Sound() && s.pull == NoPull && !s.closed && s.pending != []
    ensures ReturnFirst(s).Sound()
  {
    var after := ReturnFirst(s);
    assert s.pending == [s.pending[0]] + after.pending;
    assert after.out == s.out + [s.pending[0]];
    assert s.Ended() <==> after.Ended();
  }

  lemma ReceiveKeeps(s: State, m: Message, thread: string, adopted: bool)
    requires s.Sound() && s.pull == Receiving
    ensures Receive(s, m, thread, adopted).Sound()
  {
    match Map(m, thread, adopted) {
      case Items(events) =>
        if events != [] { ItemsKeep(s, events); } else if s.closed { TurnKeeps(s, NoPull); }
      case Raises => TurnKeeps(s, Telling(AtError));
      case Resets => TurnKeeps(s, Telling(AtReset));
      case Claims(usage, end) => TurnKeeps(s, Claiming(usage, end));
    }
  }

  lemma ItemsKeep(s: State, events: seq<Event>)
    requires s.Sound() && s.pull == Receiving && events != []
    requires forall i :: 0 <= i < |events| ==> events[i].Other?
    ensures ReturnFirst(s.(pending := s.pending + events)).Sound()
  {
  }

  lemma DeliverKeeps(s: State, items: seq<Event>, mapped: bool)
    requires s.Sound() && s.pull == Ending(items, mapped)
    ensures Deliver(s, items, mapped).Sound()
  {
  }

  /** A terminal may end a pull of an open stream, and only the reported failure a
      stream that did not open. */
  lemma EndWithKeeps(s: State, items: seq<Event>, mapped: bool)
    requires s.Sound() && (s.pull.Claiming? || s.pull.Telling?)
    requires items != [] && items[|items| - 1].Terminal? && (!mapped ==> |items| == 1)
    requires forall i :: 0 <= i < |items| - 1 ==> !items[i].Terminal? && !items[i].Started?
    requires s.opening.None? || s.unreported || (!mapped && items[0] == Terminal(s.opening.value))
    ensures EndWith(s, items, mapped).Sound()
  {
    var ending := s.(terminalEmitted := true, closedCalled := true, calls := 1, pull := Ending(items, mapped));
    assert ending.Sound();
    DeliverKeeps(ending, items, mapped);
  }

  lemma ClaimKeeps(s: State, granted: bool)
    requires s.Sound() && s.pull.Claiming?
    ensures Claim(s, granted).Sound()
  {
    hide EndWith, State.Ordered, State.ClosingAgrees;
    if granted && s.pull.usage == SomeUsage {
      EndWithKeeps(s, [Usage, Terminal(s.pull.end)], true);
    } else if granted && s.pull.usage == NoUsage {
      EndWithKeeps(s, [Terminal(s.pull.end)], true);
    } else if granted {
      TurnKeeps(s, Telling(AtError));
    } else if s.closed {
      TurnKeeps(s, NoPull);
    } else {
      TurnKeeps(s, Receiving);
    }
  }

  lemma ToldKeeps(s: State)
    requires s.Sound() && s.pull.Telling?
    ensures s.pull.why.AtStart? ==> s.opening.Some?
    ensures Told(s).Sound()
  {
    hide EndWith, State.Ordered, State.ClosingAgrees;
    match s.pull.why {
      case AtStart => EndWithKeeps(s, [Terminal(s.opening.value)], false);
      case AtReset => EndWithKeeps(s, [Terminal(Unknown)], true);
      case AtError => EndWithKeeps(s, [Terminal(Unknown)], false);
    }
  }

  /** A pull of a stream that is open may move on without handing anything out. */
  lemma TurnKeeps(s: State, pull: Pull)
    requires s.Sound() && s.pull != NoPull && !pull.Ending? && (pull.Telling? ==> pull.why != AtStart)
    requires (pull.Receiving? || pull.Claiming?) ==> !s.terminalEmitted
    requires s.opening.None? || s.unreported || (pull == NoPull && s.terminalEmitted)
    ensures s.(pull := pull).Sound()
  {
  }

  lemma FailKeeps(s: State, caught: bool)
    requires s.Sound() && s.pull != NoPull
    requires s.pull.Receiving? || s.pull.Claiming? || s.opening.None? || s.unreported
    ensures Fail(s, caught).Sound()
  {
    TurnKeeps(s, if caught then Telling(AtError) else NoPull);
  }

  lemma NotToldKeeps(s: State, caught: bool)
    requires s.Sound() && s.pull.Telling?
    ensures NotTold(s, caught).Sound()
  {
    match s.pull.why {
      case AtStart =>
      case AtReset => FailKeeps(s, caught);
      case AtError => TurnKeeps(s, NoPull);
    }
  }

  lemma NotEndedKeeps(s: State, caught: bool)
    requires s.Sound() && s.pull.Ending?
    ensures NotEnded(s, caught).Sound()
  {
    if s.pull.mapped { FailKeeps(s, caught); } else { TurnKeeps(s, NoPull); }
  }

  lemma CallClosedKeeps(s: State)
    requires s.Sound()
    ensures CallClosed(s).Sound()
  {
  }

  lemma CloseKeeps(s: State)
    requires s.Sound()
    ensures Close(s).Sound()
  {
    if s.terminalEmitted {
      var called := s.(closedCalled := true, calls := 1);
      assert called.Sound();
    }
  }

  lemma CloserKeeps(s: State, told: bool)
    requires s.Sound() && s.closers > 0
    ensures told ==> CallClosed(s.(closers := s.closers - 1)).Sound()
    ensures !told ==> s.(closers := s.closers - 1, unclosed := true).Sound()
  {
  }

  lemma NextKeeps(s: State, step: Step)
    requires s.Sound()
    ensures Next(s, step).Sound()
  {
    hide Ask, Receive, Fail, Claim, Told, NotTold, NotEnded, CallClosed, Close, Deliver;
    hide State.Ordered, State.PullAgrees, State.OpeningAgrees, State.ClosingAgrees;
    if Enabled(s, step) {
      match step {
        case DoAsk => AskKeeps(s);
        case DoReceive(m, thread, adopted) => ReceiveKeeps(s, m, thread, adopted);
        case DoClaim(granted) => ClaimKeeps(s, granted);
        case DoTold => ToldKeeps(s);
        case DoEnded => DeliverKeeps(s, s.pull.items, s.pull.mapped);
        case DoFail(caught) => FailKeeps(s, caught);
        case DoNotTold(caught) => NotToldKeeps(s, caught);
        case DoNotEnded(caught) => NotEndedKeeps(s, caught);
        case DoClose => CloseKeeps(s);
        case DoCloserTold => CloserKeeps(s, true);
        case DoCloserNotTold => CloserKeeps(s, false);
      }
    }
  }

  /** Every state of every run is sound, and nothing handed out is taken back. */
  lemma {:induction false} RunsAreSound(s: State, steps: seq<Step>)
    requires s.Sound()
    ensures Run(s, steps).Sound() && Onward(s, Run(s, steps))
    decreases |steps|
  {
    hide Next;
    if steps != [] {
      NextKeeps(s, steps[0]);
      RunsAreSound(Next(s, steps[0]), steps[1..]);
    }
  }

  // ---- the shape of a stream ----

  /** Started first, or a single terminal when opening failed; one terminal at most,
      and it is last. */
  ghost predicate Shaped(opening: Option<End>, out: seq<Event>) {
    && (forall i :: 0 <= i < |out| ==> (out[i].Started? <==> i == 0 && opening.None?))
    && (forall i :: 0 <= i < |out| - 1 ==> !out[i].Terminal?)
    && (opening.Some? ==> out == [] || out == [Terminal(opening.value)])
  }

  /** Every stream has its shape, unless the owner raised while it was told that an open
      stream had failed to open. */
  lemma EveryStreamIsShaped(opening: Option<End>, steps: seq<Step>)
    ensures var s := Run(Start(opening), steps);
            !s.unreported ==> Shaped(opening, s.out)
    ensures !Run(Start(opening), steps).unreported || opening.Some?
  {
    RunsAreSound(Start(opening), steps);
  }

  /** A pull that finds the stream closed is handed nothing, and so are all after it. */
  lemma {:induction false} ClosedIsQuiet(s: State, steps: seq<Step>)
    requires s.closed && s.pull == NoPull
    ensures Run(s, steps).out == s.out
    decreases |steps|
  {
    if steps != [] {
      ClosedStays(s, steps[0]);
      ClosedIsQuiet(Next(s, steps[0]), steps[1..]);
    }
  }

  lemma ClosedStays(s: State, step: Step)
    requires s.closed && s.pull == NoPull
    ensures var t := Next(s, step); t.closed && t.pull == NoPull && t.out == s.out
  {
  }

  /** When the owner raises while it is told of a failed opening, the stream keeps its
      shape, whatever happens next, if and only if it had been closed by then. */
  lemma ShapeSurvivesIff(s: State, caught: bool)
    requires s.Sound() && s.pull == Telling(AtStart)
    ensures (forall steps :: Shaped(s.opening, Run(NotTold(s, caught), steps).out)) <==> s.closed
  {
    var raised := NotTold(s, caught);
    assert s.opening.Some? && raised.out == [] && raised.pending == [] && raised.initialEmitted &&
        !raised.terminalEmitted;
    assert raised.closed == s.closed && raised.pull == NoPull && raised.opening == s.opening;
    hide Run, Next, NotTold, State.Sound;
    if s.closed {
      forall steps
        ensures Shaped(s.opening, Run(raised, steps).out)
      {
        ClosedIsQuiet(raised, steps);
      }
    } else {
      ReadsOn(raised);
      assert !Shaped(s.opening, Run(raised, [DoAsk] + ([DoReceive(Says("hi", ""), "", false)] + [])).out);
    }
  }

  /** A message that says one thing. */
  function Says(text: string, thread: string): Message {
    Message("assistant", Some(thread), Some([text]), true, None, NoUsage, false)
  }

  /** A stream that is open, and has neither started nor ended, reads on. */
  lemma ReadsOn(s: State)
    requires !s.closed && s.pull == NoPull && s.out == [] && s.pending == [] && s.initialEmitted && !s.terminalEmitted
    ensures Run(s, [DoAsk] + ([DoReceive(Says("hi", ""), "", false)] + [])).out == [Other("hi")]
  {
    var next := Next(s, DoAsk);
    assert next == s.(pull := Receiving);
    MessageComesFirst(next, Says("hi", ""), "", "hi");
    RunIs(s, DoAsk, [DoReceive(Says("hi", ""), "", false)] + []);
    RunIs(next, DoReceive(Says("hi", ""), "", false), []);
  }

  /** Such a run from the very start. */
  lemma UnreportedOpeningLosesItsShape(end: End)
    ensures var s := Run(Start(Some(end)),
        [DoAsk] + ([DoNotTold(false)] + ([DoAsk] + ([DoReceive(Says("hi", ""), "", false)] + []))));
            s.out == [Other("hi")] && !Shaped(Some(end), s.out)
  {
    var rest := [DoAsk] + ([DoReceive(Says("hi", ""), "", false)] + []);
    var s0 := Start(Some(end));
    var s1 := Next(s0, DoAsk);
    var s2 := Next(s1, DoNotTold(false));
    assert s2 == s0.(initialEmitted := true, unreported := true);
    hide Run, Next;
    RunIs(s0, DoAsk, [DoNotTold(false)] + rest);
    RunIs(s1, DoNotTold(false), rest);
    ReadsOn(s2);
  }

  lemma MessageComesFirst(s: State, m: Message, thread: string, text: string)
    requires s.pull == Receiving && s.out == [] && s.pending == []
    requires m.kind == "assistant" && m.session == Some(thread) && m.reading == Some([text])
    ensures Next(s, DoReceive(m, thread, false)).out == [Other(text)]
  {
    assert Map(m, thread, false) == Items([Other(text)]);
  }

  lemma RunIs(s: State, step: Step, steps: seq<Step>)
    ensures Run(s, [step] + steps) == Run(Next(s, step), steps)
  {
    assert ([step] + steps)[1..] == steps;
  }

  /** The turn ends: its last events go out, or wait to, once the owner was called. */
  function Ended(s: State): State
    requires s.pull.Ending? ==> s.pull.items != []
  {
    if s.pull.Ending? then Deliver(s, s.pull.items, s.pull.mapped) else s
  }

  lemma EndsWith(s: State, items: seq<Event>, mapped: bool)
    requires s.pending == [] && items != [] && !s.pull.Ending? && (!mapped ==> |items| == 1)
    ensures var t := EndWith(s, items, mapped);
            && (t.pull.Ending? ==> t.pull.items != [])
            && Ended(t).out == s.out + [items[0]] && Ended(t).pending == items[1..]
            && Ended(t).terminalEmitted && Ended(t).pull == NoPull
            && Ended(t).calls == s.calls + if s.closedCalled then 0 else 1
  {
    hide Onward;
    assert s.pending + items == items;
  }

  /** A result that is claimed ends the turn the way it says, its usage told first. */
  lemma ResultEndsTheTurn(s: State, m: Message, thread: string, adopted: bool)
    requires s.Sound() && s.pull == Receiving
    requires adopted || m.origin.None? || m.origin.value == "human"
    requires m.kind == "result" && m.session == Some(thread) && m.valid && m.usage != BadUsage
    ensures Receive(s, m, thread, adopted).pull.Claiming?
    ensures var claimed := Claim(Receive(s, m, thread, adopted), true);
            && (claimed.pull.Ending? ==> claimed.pull.items != [])
            && var ended := Ended(claimed);
            && var usage := if m.usage.SomeUsage? then [Usage] else [];
            && ended.out + ended.pending == s.out + usage + [Terminal(if m.failed then Failed else Completed)]
            && ended.terminalEmitted && ended.calls == 1
  {
    assert s.pending == [] && s.calls == if s.closedCalled then 1 else 0;
    hide State.Sound, Onward;
    var end := if m.failed then Failed else Completed;
    var claiming := s.(pull := Claiming(m.usage, end));
    assert Receive(s, m, thread, adopted) == claiming;
    hide EndWith, Ended, Receive;
    var items := if m.usage.SomeUsage? then [Usage, Terminal(end)] else [Terminal(end)];
    assert Claim(claiming, true) == EndWith(claiming, items, true);
    EndsWith(claiming, items, true);
    assert s.out + [items[0]] + items[1..] ==
      s.out + (if m.usage.SomeUsage? then [Usage] else []) + [Terminal(end)];
  }

  /** After its terminal a stream hands out nothing more. */
  lemma NothingAfterTerminal(s: State, steps: seq<Step>)
    requires s.Sound() && s.out != [] && s.out[|s.out| - 1].Terminal?
    ensures Run(s, steps).out == s.out
  {
    RunsAreSound(s, steps);
    assert Run(s, steps).out[|s.out| - 1] == s.out[|s.out| - 1];
  }

  /** The closed callback is called once at most; exactly once when a terminal was
      handed out, and when every `aclose` has run through without the owner raising.
      A closed stream hands out one event more at most, to the pull it found parked. */
  lemma ClosedOnce(opening: Option<End>, steps: seq<Step>)
    ensures var s := Run(Start(opening), steps);
            && s.calls <= 1
            && (s.Ended() ==> s.calls == 1)
            && (s.closed && s.closers == 0 && !s.unclosed ==> s.calls == 1)
            && s.late <= 1 && (s.closed && s.late == 1 ==> s.pull == NoPull)
  {
    hide Run;
    RunsAreSound(Start(opening), steps);
  }

  // ---- what is handed out is what was read ----

  /** The texts of the events that neither start nor end the turn. */
  function Texts(events: seq<Event>): seq<string> {
    if events == [] then []
    else (if events[0].Other? then [events[0].text] else []) + Texts(events[1..])
  }

  lemma {:induction false} TextsOn(a: seq<Event>, b: seq<Event>)
    ensures Texts(a + b) == Texts(a) + Texts(b)
  {
    if a == [] {
      assert a + b == b;
    } else {
      assert (a + b)[1..] == a[1..] + b;
      TextsOn(a[1..], b);
    }
  }

  lemma {:induction false} OthersSay(texts: seq<string>)
    ensures Texts(Others(texts)) == texts
  {
    if texts != [] {
      OthersSay(texts[1..]);
      assert Others(texts)[1..] == Others(texts[1..]);
      assert texts == [texts[0]] + texts[1..];
    }
  }

  /** What a message of this session has to say, if it is well formed. */
  function Spoken(m: Message, thread: string): seq<string> {
    if m.kind in {"stream_event", "assistant", "user", "system"} && m.session == Some(thread) && m.reading.Some?
    then m.reading.value else []
  }

  lemma MapSpeaks(m: Message, thread: string, adopted: bool)
    ensures var mapped := Map(m, thread, adopted);
            if mapped.Items? then Texts(mapped.events) == Spoken(m, thread) else Spoken(m, thread) == []
  {
    if m.reading.Some? { OthersSay(m.reading.value); }
  }

  /** What a message received in a step has to say. */
  function HeardIn(s: State, step: Step): seq<string> {
    if step.DoReceive? && s.pull == Receiving then Spoken(step.message, step.thread) else []
  }

  /** What the messages received in a run have to say. */
  function Heard(s: State, steps: seq<Step>): seq<string>
    decreases |steps|
  {
    if steps == [] then []
    else
      HeardIn(s, steps[0]) + Heard(Next(s, steps[0]), steps[1..])
  }

  /** A turn that is about to end says nothing more. */
  ghost predicate EndsSilently(s: State) {
    s.pull.Ending? ==> Texts(s.pull.items) == []
  }

  lemma ReturnSays(s: State, more: seq<Event>)
    requires s.pending + more != []
    ensures var t := ReturnFirst(s.(pending := s.pending + more));
            Texts(t.out + t.pending) == Texts(s.out + s.pending) + Texts(more)
  {
    var all := s.pending + more;
    var t := ReturnFirst(s.(pending := all));
    assert t.out + t.pending == s.out + s.pending + more;
    TextsOn(s.out + s.pending, more);
  }

  lemma DeliverSays(s: State, items: seq<Event>, mapped: bool)
    requires items != [] && Texts(items) == [] && s.pending == [] && (!mapped ==> |items| == 1)
    ensures var t := Deliver(s, items, mapped);
            Texts(t.out + t.pending) == Texts(s.out + s.pending) && t.pull == NoPull
  {
    if mapped {
      ReturnSays(s, items);
    } else {
      var t := Deliver(s, items, mapped);
      assert items == [items[0]] && t.out + t.pending == s.out + s.pending + items;
      TextsOn(s.out + s.pending, items);
    }
  }

  lemma EndWithSays(s: State, items: seq<Event>, mapped: bool)
    requires items != [] && Texts(items) == [] && s.pending == [] && (!mapped ==> |items| == 1)
    ensures var t := EndWith(s, items, mapped);
            Texts(t.out + t.pending) == Texts(s.out + s.pending) && EndsSilently(t)
  {
    hide Texts, Deliver;
    if s.closedCalled {
      var ended := s.(terminalEmitted := true);
      assert EndWith(s, items, mapped) == Deliver(ended, items, mapped);
      DeliverSays(ended, items, mapped);
    }
  }

  /** What a step adds to what was said. */
  ghost predicate SaysMore(s: State, t: State, said: seq<string>) {
    Texts(t.out + t.pending) == Texts(s.out + s.pending) + said && EndsSilently(t)
  }

  lemma ReceiveSays(s: State, m: Message, thread: string, adopted: bool)
    requires s.pull == Receiving && s.pending == []
    ensures SaysMore(s, Receive(s, m, thread, adopted), Spoken(m, thread))
  {
    MapSpeaks(m, thread, adopted);
    var mapped := Map(m, thread, adopted);
    hide Map, Spoken, Texts;
    if mapped.Items? && mapped.events != [] {
      ReturnSays(s, mapped.events);
      FirstReturned(s.(pending := s.pending + mapped.events));
    }
    assert Texts(s.out + s.pending) + [] == Texts(s.out + s.pending);
    NothingSaid();
  }

  lemma NothingSaid()
    ensures Texts([]) == [] && forall e: Event :: !e.Other? ==> Texts([e]) == []
    ensures forall e: Event, f: Event :: !e.Other? && !f.Other? ==> Texts([e, f]) == []
  {
    forall e: Event, f: Event | !e.Other? && !f.Other? ensures Texts([e, f]) == [] {
      TextsOn([e], [f]);
      assert [e] + [f] == [e, f];
    }
  }

  lemma ClaimSays(s: State, granted: bool)
    requires s.pull.Claiming? && s.pending == []
    ensures SaysMore(s, Claim(s, granted), [])
  {
    NothingSaid();
    hide Texts, EndWith;
    if granted && s.pull.usage.SomeUsage? {
      EndWithSays(s, [Usage, Terminal(s.pull.end)], true);
    } else if granted && s.pull.usage.NoUsage? {
      EndWithSays(s, [Terminal(s.pull.end)], true);
    }
    assert Texts(s.out + s.pending) + [] == Texts(s.out + s.pending);
  }

  lemma ToldSays(s: State)
    requires s.pull.Telling? && (s.pull.why.AtStart? ==> s.opening.Some?) && s.pending == []
    ensures SaysMore(s, Told(s), [])
  {
    NothingSaid();
    hide Texts, EndWith;
    EndWithSays(s, [Terminal(if s.pull.why.AtStart? then s.opening.value else Unknown)], s.pull.why.AtReset?);
    assert Texts(s.out + s.pending) + [] == Texts(s.out + s.pending);
  }

  lemma QuietSays(s: State, t: State)
    requires EndsSilently(s) && Quiet(s, t)
    ensures SaysMore(s, t, [])
  {
  }

  lemma EndedSays(s: State)
    requires s.pull.Ending? && s.pull.items != [] && Texts(s.pull.items) == [] && s.pending == []
    requires !s.pull.mapped ==> |s.pull.items| == 1
    ensures SaysMore(s, Deliver(s, s.pull.items, s.pull.mapped), [])
  {
    DeliverSays(s, s.pull.items, s.pull.mapped);
  }

  lemma NextSays(s: State, step: Step)
    requires s.Sound() && EndsSilently(s)
    ensures SaysMore(s, Next(s, step), HeardIn(s, step))
  {
    assert s.pull != NoPull ==> s.pending == [];
    assert s.pull.Ending? && !s.pull.mapped ==> |s.pull.items| == 1;
    var t := Next(s, step);
    hide SaysMore, Texts, Spoken, Onward, EndsSilently, State.Sound;
    hide Ask, Receive, Claim, Told, Deliver, Fail, NotTold, NotEnded, CallClosed, Close;
    if !Enabled(s, step) {
      QuietSays(s, t);
    } else {
      match step {
        case DoAsk => AskSays(s);
        case DoReceive(m, thread, adopted) => ReceiveSays(s, m, thread, adopted);
        case DoClaim(granted) => ClaimSays(s, granted);
        case DoTold => ToldSays(s);
        case DoEnded => EndedSays(s);
        case _ => QuietSays(s, t);
      }
    }
  }

  lemma FirstReturned(s: State)
    requires s.pending != []
    ensures ReturnFirst(s).pull == NoPull
  {
  }

  lemma AskSays(s: State)
    requires s.Sound() && s.pull == NoPull
    ensures SaysMore(s, Ask(s), [])
  {
    if s.pending != [] {
      assert s.pending + [] == s.pending;
      ReturnSays(s, []);
    } else {
      TextsOn(s.out + s.pending, [Started]);
    }
  }

  /** Over every run, what was handed out and what waits to be say exactly what the
      messages received had to say, in order: nothing is lost and nothing comes twice. */
  lemma {:induction false} SaysWhatWasHeard(s: State, steps: seq<Step>)
    requires s.Sound() && EndsSilently(s)
    ensures var t := Run(s, steps);
            Texts(t.out + t.pending) == Texts(s.out + s.pending) + Heard(s, steps)
    decreases |steps|
  {
    if steps != [] {
      NextKeeps(s, steps[0]);
      NextSays(s, steps[0]);
      hide Next, Texts, State.Sound, EndsSilently, HeardIn;
      SaysWhatWasHeard(Next(s, steps[0]), steps[1..]);
    }
  }

  // ---- how a turn comes to its end ----

  /** A result of this session that is the turn's own, and says whether it failed. */
  predicate IsResult(step: Step, end: End) {
    && step.DoReceive? && step.message.kind == "result" && step.message.session == Some(step.thread)
    && step.message.valid
    && (step.adopted || step.message.origin.None? || step.message.origin.value == "human")
    && end == (if step.message.failed then Failed else Completed)
  }

  /** A terminal that is handed out, or will be. */
  ghost predicate EndsAs(s: State, end: End) {
    || Terminal(end) in s.out || Terminal(end) in s.pending
    || (s.pull.Ending? && Terminal(end) in s.pull.items)
  }

  predicate ClaimsEnd(s: State, end: End) {
    s.pull.Claiming? && s.pull.end == end
  }

  /** One of the steps is a result of that end, and its claim is granted later. */
  ghost predicate Earned(steps: seq<Step>, end: End) {
    exists j, k :: 0 <= j < k < |steps| && IsResult(steps[j], end) && steps[k] == DoClaim(true)
  }

  lemma DeliverEnds(s: State, items: seq<Event>, mapped: bool, end: End)
    requires items != [] && EndsAs(Deliver(s, items, mapped), end)
    ensures Terminal(end) in s.out || Terminal(end) in s.pending || Terminal(end) in items
  {
    var t := Deliver(s, items, mapped);
    if mapped {
      var all := s.pending + items;
      assert t.out == s.out + [all[0]] && t.pending == all[1..];
      assert Terminal(end) in t.out ==> Terminal(end) in s.out || Terminal(end) == all[0];
      assert Terminal(end) in all ==> Terminal(end) in s.pending || Terminal(end) in items;
    } else {
      assert t.out == s.out + [items[0]];
    }
  }

  lemma EndWithEnds(s: State, items: seq<Event>, mapped: bool, end: End)
    requires items != []
    ensures var t := EndWith(s, items, mapped);
            && !t.pull.Claiming?
            && (EndsAs(t, end) ==> Terminal(end) in s.out || Terminal(end) in s.pending || Terminal(end) in items)
  {
    if s.closedCalled && EndsAs(EndWith(s, items, mapped), end) {
      DeliverEnds(s.(terminalEmitted := true), items, mapped, end);
    }
  }

  lemma ReceiveEnds(s: State, m: Message, thread: string, adopted: bool, end: End)
    requires s.pull == Receiving && s.pending == []
    ensures var t := Receive(s, m, thread, adopted);
            && (EndsAs(t, end) ==> EndsAs(s, end))
            && (ClaimsEnd(t, end) ==> IsResult(DoReceive(m, thread, adopted), end))
  {
    MapIs(m, thread, adopted);
    var mapped := Map(m, thread, adopted);
    hide Map, Onward;
    if mapped.Items? && mapped.events != [] {
      assert s.pending + mapped.events == mapped.events;
      FirstEnds(s, mapped.events, end);
      hide ReturnFirst;
    }
  }

  lemma FirstEnds(s: State, events: seq<Event>, end: End)
    requires events != [] && Terminal(end) !in events && s.pending == []
    ensures var t := ReturnFirst(s.(pending := events));
            t.pull == NoPull && (EndsAs(t, end) ==> Terminal(end) in s.out)
  {
    var t := ReturnFirst(s.(pending := events));
    assert t.out == s.out + [events[0]] && t.pending == events[1..];
    assert events == [events[0]] + events[1..];
  }

  lemma MapIs(m: Message, thread: string, adopted: bool)
    ensures var mapped := Map(m, thread, adopted);
            && (mapped.Items? ==> forall end :: Terminal(end) !in mapped.events)
            && (mapped.Claims? ==> IsResult(DoReceive(m, thread, adopted), mapped.end))
  {
  }

  lemma AskEnds(s: State, end: End)
    requires s.pull == NoPull && EndsAs(Ask(s), end)
    ensures EndsAs(s, end)
  {
  }

  /** A turn comes to end as completed or failed by a claim of just that. */
  lemma NextEnds(s: State, step: Step, end: End)
    requires s.Sound() && s.opening.None? && end != Unknown
    ensures var t := Next(s, step);
            && (EndsAs(t, end) ==> EndsAs(s, end) || (ClaimsEnd(s, end) && step == DoClaim(true)))
            && (ClaimsEnd(t, end) ==> ClaimsEnd(s, end) || IsResult(step, end))
  {
    assert s.pull != NoPull ==> s.pending == [];
    assert s.pull.Telling? ==> s.pull.why != AtStart;
    hide State.Sound, Deliver, EndWith;
    var t := Next(s, step);
    if Enabled(s, step) {
      if step.DoEnded? && EndsAs(t, end) {
        DeliverEnds(s, s.pull.items, s.pull.mapped, end);
      } else if step.DoClaim? && step.granted && !s.pull.usage.BadUsage? {
        var last := Terminal(s.pull.end);
        EndWithEnds(s, if s.pull.usage.SomeUsage? then [Usage, last] else [last], true, end);
      } else if step.DoTold? {
        EndWithEnds(s, [Terminal(Unknown)], s.pull.why.AtReset?, end);
      } else if step.DoReceive? {
        hide Onward;
        ReceiveEnds(s, step.message, step.thread, step.adopted, end);
      } else if step.DoAsk? {
        if EndsAs(t, end) { AskEnds(s, end); }
      }
    }
  }

  lemma {:induction false} EndsAreEarned(s: State, steps: seq<Step>, end: End)
    requires s.Sound() && s.opening.None? && end != Unknown && EndsAs(Run(s, steps), end)
    ensures EndsAs(s, end) || (ClaimsEnd(s, end) && DoClaim(true) in steps) || Earned(steps, end)
    decreases |steps|
  {
    if steps != [] {
      var next, rest := Next(s, steps[0]), steps[1..];
      NextKeeps(s, steps[0]);
      NextEnds(s, steps[0], end);
      hide Next, EndsAs, IsResult, State.Sound;
      EndsAreEarned(next, rest, end);
      if Earned(rest, end) {
        var j, k :| 0 <= j < k < |rest| && IsResult(rest[j], end) && rest[k] == DoClaim(true);
        assert steps[j + 1] == rest[j] && steps[k + 1] == rest[k];
      } else if ClaimsEnd(next, end) && DoClaim(true) in rest {
        var k :| 0 <= k < |rest| && rest[k] == DoClaim(true);
        assert steps[k + 1] == DoClaim(true);
      }
    }
  }

  /** Over every run of a turn that opened: it ends as completed only by a result of its
      own that did not fail and was claimed for it, as failed only by one that did, and as
      cancelled never. */
  lemma CompletedIsEarned(steps: seq<Step>, end: End)
    requires end != Unknown && Terminal(end) in Run(Start(None), steps).out
    ensures end != Cancelled && Earned(steps, end)
  {
    EndsAreEarned(Start(None), steps, end);
  }

  /** The turn goes off the rails: a message that is of no or another session where one is
      called for, a result or a message that is malformed, or a reset. */
  predicate Derails(m: Message, thread: string) {
    || (m.session.Some? && m.session.value != thread)
    || (m.session.None? && NeedsSession(m.kind))
    || (m.kind == "result" && !m.valid)
    || (m.kind in {"stream_event", "assistant", "user", "system"} && m.reading.None?)
    || m.kind == "conversation_reset"
  }

  lemma DerailedIsTold(s: State, m: Message, thread: string, adopted: bool)
    requires s.pull == Receiving && Derails(m, thread)
    ensures var t := Next(s, DoReceive(m, thread, adopted));
            t.pull.Telling? && t.pull.why != AtStart && t == s.(pull := t.pull)
  {
    assert Map(m, thread, adopted).Raises? || Map(m, thread, adopted).Resets?;
    hide Map;
  }

  /** Once the owner has been told, and called if it was not before, the turn ends: as
      unknown, or as it failed to open. */
  lemma ToldEnds(s: State)
    requires s.Sound() && s.pull.Telling?
    ensures s.pull.why.AtStart? ==> s.opening.Some?
    ensures var t, end := Run(s, [DoTold] + ([DoEnded] + [])), if s.pull.why.AtStart? then s.opening.value else Unknown;
            && t.out == s.out + [Terminal(end)] && t.pending == [] && t.terminalEmitted && t.calls == 1
            && t.pull == NoPull
  {
    var end := if s.pull.why.AtStart? then s.opening.value else Unknown;
    var told := Next(s, DoTold);
    assert s.pending == [] && s.calls == if s.closedCalled then 1 else 0;
    assert told == EndWith(s, [Terminal(end)], s.pull.why.AtReset?);
    RunIs(s, DoTold, [DoEnded] + []);
    RunIs(told, DoEnded, []);
    EndsWith(s, [Terminal(end)], s.pull.why.AtReset?);
    hide State.Sound, EndWith, Deliver, Told;
  }

  /** A turn that goes off the rails ends as unknown, and with nothing else. */
  lemma DerailedEndsUnknown(s: State, m: Message, thread: string, adopted: bool)
    requires s.Sound() && s.pull == Receiving && Derails(m, thread)
    ensures var t := Run(s, [DoReceive(m, thread, adopted)] + ([DoTold] + ([DoEnded] + [])));
            t.out == s.out + [Terminal(Unknown)] && t.pending == [] && t.terminalEmitted && t.calls == 1
  {
    NextKeeps(s, DoReceive(m, thread, adopted));
    DerailedIsTold(s, m, thread, adopted);
    RunIs(s, DoReceive(m, thread, adopted), [DoTold] + ([DoEnded] + []));
    hide Run, Next, State.Sound;
    ToldEnds(Next(s, DoReceive(m, thread, adopted)));
  }

  /** Whether a step is a failure the stream tells its owner of: usage that cannot be read,
      or an error caught in the reading of a message. */
  predicate Caught(s: State, step: Step) {
    || (step == DoFail(true) && (s.pull.Receiving? || s.pull.Claiming?))
    || (step == DoClaim(true) && s.pull.Claiming? && s.pull.usage.BadUsage?)
    || (step == DoNotTold(true) && s.pull.Telling? && s.pull.why.AtReset?)
    || (step == DoNotEnded(true) && s.pull.Ending? && s.pull.mapped)
  }

  /** Then the turn ends as unknown too. */
  lemma CaughtEndsUnknown(s: State, step: Step)
    requires s.Sound() && Caught(s, step)
    ensures var t := Run(s, [step] + ([DoTold] + ([DoEnded] + [])));
            t.out == s.out + [Terminal(Unknown)] && t.pending == [] && t.terminalEmitted && t.calls == 1
  {
    NextKeeps(s, step);
    var t := Next(s, step);
    assert t == s.(pull := Telling(AtError));
    RunIs(s, step, [DoTold] + ([DoEnded] + []));
    hide Run, Next, State.Sound;
    ToldEnds(t);
  }

  /** Other failures end the pull, and neither the turn nor what was handed out. */
  lemma UncaughtEndsThePull(s: State, step: Step)
    requires Enabled(s, step) && !Caught(s, step) && (step.DoFail? || step.DoNotTold? || step.DoNotEnded?)
    ensures var t := Next(s, step); t == s.(pull := NoPull, unreported := t.unreported)
  {
  }

  /** A message with nothing in it for this turn: a result that is another's, or one of this
      session that says nothing and is no result. */
  predicate IsPassedOver(m: Message, thread: string, adopted: bool) {
    && !Derails(m, thread)
    && if m.kind == "result" then m.origin.Some? && m.origin.value != "human" && !adopted else Spoken(m, thread) == []
  }

  /** Such a message, and a result that is not granted, leave the turn as it is: it reads
      on, unless it was closed. */
  lemma PassedOverReadsOn(s: State, m: Message, thread: string, adopted: bool)
    requires s.Sound()
    ensures s.pull.Claiming? ==> Next(s, DoClaim(false)) == s.(pull := if s.closed then NoPull else Receiving)
    ensures s.pull.Receiving? && IsPassedOver(m, thread, adopted) ==>
              Next(s, DoReceive(m, thread, adopted)) == s.(pull := if s.closed then NoPull else Receiving)
  {
    if s.pull.Receiving? && IsPassedOver(m, thread, adopted) {
      assert Map(m, thread, adopted) == Items([]);
    }
  }

  // ---- pulling and closing ----

  /** A pull gets the first of what waits; with nothing waiting it starts the turn, tells of
      a failed opening, or receives; and it is over at once if and only if the stream is
      closed, or its terminal is out. */
  lemma PullGoesOn(s: State)
    requires s.Sound() && s.pull == NoPull
    ensures var t := Next(s, DoAsk);
            && (t == s <==> s.closed || (s.terminalEmitted && s.pending == []))
            && (t != s && s.initialEmitted ==> t.out + t.pending == s.out + s.pending)
            && (t != s && s.pending != [] ==> |t.out| == |s.out| + 1)
            && (t != s && s.pending == [] && s.initialEmitted ==> t == s.(pull := Receiving))
            && (t != s && !s.initialEmitted ==>
                  t == s.(initialEmitted := true, pull := t.pull, out := t.out)
                  && if s.opening.None? then t.out == [Started] && t.pull == NoPull
                     else t.out == [] && t.pull == Telling(AtStart))
  {
    if s.pending != [] {
      assert [s.pending[0]] + s.pending[1..] == s.pending;
    }
  }

  lemma ClosingIs(s: State)
    requires s.Sound()
    ensures var t := Next(s, DoClose);
            && t.closed && t.out == s.out && t.pull == s.pull && t.late == s.late
            && (if s.terminalEmitted then t.calls == 1 else t.closers == s.closers + 1)
            && (!s.closed ==> t.late == 0) && s.late <= 1
            && (s.late == 1 ==> s.pull == NoPull)
  {
    hide State.Ordered, State.PullAgrees, State.OpeningAgrees;
  }

  lemma CloserCalls(s: State)
    requires s.Sound() && s.closers > 0
    ensures Next(s, DoCloserTold).calls == 1
  {
    hide State.Ordered, State.PullAgrees, State.OpeningAgrees;
  }

  /** After a close at most one more event is handed out, and none if no pull was under
      way; the owner is called, once it was told if the turn had not ended. */
  lemma ClosingEnds(s: State, steps: seq<Step>)
    requires s.Sound()
    ensures var t, last := Next(s, DoClose), Run(s, [DoClose] + steps);
            && t.closed && t.out == s.out && last.closed
            && (if s.terminalEmitted then t.calls == 1
                else t.closers == s.closers + 1 && Next(t, DoCloserTold).calls == 1)
            && |last.out| <= |s.out| + (if s.pull == NoPull then 0 else 1)
  {
    var t := Next(s, DoClose);
    ClosingIs(s);
    NextKeeps(s, DoClose);
    RunIs(s, DoClose, steps);
    RunsAreSound(t, steps);
    hide Next, Run, State.Ordered, State.PullAgrees, State.OpeningAgrees;
    assert Run(t, steps).late <= 1;
    if t.closers > 0 { CloserCalls(t); }
    if s.pull == NoPull { ClosedIsQuiet(t, steps); }
  }
}
