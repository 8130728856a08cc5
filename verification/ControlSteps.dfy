/** Requests handed down to computers and their answers coming back, as steps on a
    value: any step that is enabled may come next, so a run of steps is an
    interleaving of all the tasks between their suspension points. */
module ControlSteps {
  import opened Wrappers
  import opened PollBatches

  type Computer = string
  type Response = string

  /** A computer and the text of a request to it, keys sorted. */
  datatype Key = Key(computer: Computer, request: string)

  /** The source's `_Asked`, named by its update id wherever the source keeps a
      reference to it.  `answer` is the future: done once it holds a value. */
  datatype Asked = Asked(key: Key, waiters: nat, answer: Option<Response>)

  /** A request on a computer's list. */
  datatype Entry = Entry(computer: Computer, id: nat)

  datatype Poll = Poll(computer: Computer, after: nat, notified: bool)

  /** The fields of the source's `Controls`, and where its tasks stand.
      `made`: every request so far, by update id.  `asked` and `inFlight`: the
      requests out, per computer and per request.  `askers`: the tasks suspended
      in `ask` and the request each waits on.  `polls`: the polls held.
      `callbacks`: requests answered whose done-callback has not run.
      `reported`: the answer each answered request was given. */
  datatype State = State(
    made: map<nat, Asked>,
    asked: set<Entry>,
    inFlight: map<Key, nat>,
    lastId: nat,
    closing: bool,
    askers: map<nat, nat>,
    polls: map<nat, Poll>,
    callbacks: set<nat>,
    reported: map<nat, Response>)
  {
    predicate Listed(id: nat)
      requires id in made
    {
      Entry(made[id].key.computer, id) in asked
    }

    function WaitersOn(id: nat): set<nat> {
      set a | a in askers && askers[a] == id
    }

    /** The ids on a computer's list. */
    function IdsOf(computer: Computer): set<nat> {
      set e | e in asked && e.computer == computer :: e.id
    }

    /** `asked` and `inFlight` hold the same requests. */
    ghost predicate SameRequests() {
      && (forall e :: e in asked ==>
            e.id in made && made[e.id].key.computer == e.computer
            && made[e.id].key in inFlight && inFlight[made[e.id].key] == e.id)
      && (forall key :: key in inFlight ==>
            inFlight[key] in made && made[inFlight[key]].key == key && Entry(key.computer, inFlight[key]) in asked)
    }

    /** A request out has a waiter or is about to be taken off; one still waited
        for and not answered is out. */
    ghost predicate Waited() {
      && (forall a :: a in askers ==> askers[a] in made)
      && (forall id :: id in callbacks ==> id in made && made[id].answer.Some?)
      && (forall id :: id in made ==>
            && made[id].waiters == |WaitersOn(id)|
            && if made[id].answer.None? then Listed(id) <==> made[id].waiters > 0
               else Listed(id) ==> id in callbacks)
    }

    /** An answer held is the answer reported. */
    ghost predicate Told() {
      && (forall id :: id in reported ==> id in made)
      && forall id :: id in made ==> made[id].answer == if id in reported then Some(reported[id]) else None
    }

    /** No request is out past the offset of a poll nobody woke. */
    ghost predicate NoLostWakeup() {
      forall p :: p in polls && !polls[p].notified ==>
        && !closing
        && forall e :: e in asked && e.computer == polls[p].computer ==> e.id <= polls[p].after
    }

    ghost predicate Sound() {
      && (forall id :: id in made ==> id <= lastId)
      && SameRequests() && Waited() && Told() && NoLostWakeup()
    }
  }

  const Start: State := State(map[], {}, map[], 0, false, map[], map[], {}, map[])

  // ---- the steps ----

  /** The polls of one computer, woken. */
  function Woken(polls: map<nat, Poll>, computer: Computer): map<nat, Poll> {
    map p | p in polls :: if polls[p].computer == computer then polls[p].(notified := true) else polls[p]
  }

  function NewId(s: State, clock: nat): nat {
    if s.lastId + 1 < clock then clock else s.lastId + 1
  }

  /** The request an `ask` ends up waiting on. */
  function AskId(s: State, key: Key, clock: nat): nat {
    if key in s.inFlight then s.inFlight[key] else NewId(s, clock)
  }

  /** A request nobody has out: it goes on the computer's list, and the polls of
      that computer are woken. */
  function NewRequest(s: State, key: Key, clock: nat): State {
    var id := NewId(s, clock);
    s.(lastId := id,
       made := s.made[id := Asked(key, 0, None)],
       inFlight := s.inFlight[key := id],
       asked := s.asked + {Entry(key.computer, id)},
       polls := Woken(s.polls, key.computer))
  }

  /** One waiter more. */
  function Join(s: State, id: nat, asker: nat): State
    requires id in s.made
  {
    s.(made := s.made[id := s.made[id].(waiters := s.made[id].waiters + 1)], askers := s.askers[asker := id])
  }

  /** `ask` up to its wait. */
  function Ask(s: State, key: Key, clock: nat, asker: nat): State
    requires key in s.inFlight ==> s.inFlight[key] in s.made
  {
    Join(if key in s.inFlight then s else NewRequest(s, key, clock), AskId(s, key, clock), asker)
  }

  /** `_forget`. */
  function Forget(s: State, id: nat): State
    requires id in s.made
  {
    var key := s.made[id].key;
    s.(inFlight := if key in s.inFlight && s.inFlight[key] == id then s.inFlight - {key} else s.inFlight,
       asked := s.asked - {Entry(key.computer, id)})
  }

  /** One waiter fewer. */
  function Part(s: State, asker: nat): State
    requires asker in s.askers && s.askers[asker] in s.made && s.made[s.askers[asker]].waiters > 0
  {
    var id := s.askers[asker];
    s.(made := s.made[id := s.made[id].(waiters := s.made[id].waiters - 1)], askers := s.askers - {asker})
  }

  /** `ask` after its wait, however it ended. */
  function EndAsk(s: State, asker: nat): State
    requires asker in s.askers && s.askers[asker] in s.made && s.made[s.askers[asker]].waiters > 0
  {
    var id := s.askers[asker];
    var t := Part(s, asker);
    if t.made[id].waiters == 0 && t.made[id].answer.None? then Forget(t, id) else t
  }

  /** Whether a report of an answer is taken. */
  predicate Takes(s: State, computer: Computer, id: nat) {
    Entry(computer, id) in s.asked && id in s.made && s.made[id].answer.None?
  }

  /** `answered`. */
  function Report(s: State, computer: Computer, id: nat, response: Response): State {
    if Takes(s, computer, id) then
      s.(made := s.made[id := s.made[id].(answer := Some(response))],
         callbacks := s.callbacks + {id},
         reported := s.reported[id := response])
    else s
  }

  /** The done-callback of an answered request. */
  function Callback(s: State, id: nat): State
    requires id in s.made
  {
    Forget(s, id).(callbacks := s.callbacks - {id})
  }

  /** Whether `updates` answers at once. */
  predicate Ready(s: State, computer: Computer, after: nat) {
    Batch(s.IdsOf(computer), after) != [] || s.closing
  }

  /** `updates` up to its wait. */
  function BeginPoll(s: State, computer: Computer, after: nat, poll: nat): State {
    if Ready(s, computer, after) then s else s.(polls := s.polls[poll := Poll(computer, after, false)])
  }

  /** `updates` after its wait. */
  function EndPoll(s: State, poll: nat): State {
    s.(polls := s.polls - {poll})
  }

  function Close(s: State): State {
    s.(closing := true, polls := map p | p in s.polls :: s.polls[p].(notified := true))
  }

  datatype Step =
    | DoAsk(key: Key, clock: nat, asker: nat)
    | DoEndAsk(asker: nat)
    | DoReport(computer: Computer, id: nat, response: Response)
    | DoCallback(id: nat)
    | DoBeginPoll(computer: Computer, after: nat, poll: nat)
    | DoEndPoll(poll: nat, timedOut: bool)
    | DoClose

  /** Tasks start under names nobody uses, and only a task that waits runs on; a poll
      does when it was woken or its time is up. */
  predicate Enabled(s: State, step: Step) {
    match step
    case DoAsk(_, _, asker) => asker !in s.askers
    case DoEndAsk(asker) => asker in s.askers
    case DoCallback(id) => id in s.callbacks
    case DoBeginPoll(_, _, poll) => poll !in s.polls
    case DoEndPoll(poll, timedOut) => poll in s.polls && (timedOut || s.polls[poll].notified)
    case _ => true
  }

  function Next(s: State, step: Step): State
    requires s.Sound() && Enabled(s, step)
  {
    match step
    case DoAsk(key, clock, asker) => Ask(s, key, clock, asker)
    case DoEndAsk(asker) => HasWaiter(s, asker); EndAsk(s, asker)
    case DoReport(computer, id, response) => Report(s, computer, id, response)
    case DoCallback(id) => Callback(s, id)
    case DoBeginPoll(computer, after, poll) => BeginPoll(s, computer, after, poll)
    case DoEndPoll(poll, _) => EndPoll(s, poll)
    case DoClose => Close(s)
  }

  lemma HasWaiter(s: State, asker: nat)
    requires s.Waited() && asker in s.askers
    ensures s.askers[asker] in s.made && s.made[s.askers[asker]].waiters > 0
  {
    assert asker in s.WaitersOn(s.askers[asker]);
  }

  // ---- every step keeps the invariant ----

  /** How the waiters of every request change when a task joins or leaves. */
  lemma WaitersJoin(s: State, t: State, asker: nat, id: nat)
    requires asker !in s.askers && t.askers == s.askers[asker := id]
    ensures forall other :: |t.WaitersOn(other)| == |s.WaitersOn(other)| + if other == id then 1 else 0
  {
    forall other
      ensures |t.WaitersOn(other)| == |s.WaitersOn(other)| + if other == id then 1 else 0
    {
      assert t.WaitersOn(other) == s.WaitersOn(other) + if other == id then {asker} else {};
    }
  }

  lemma WaitersLeave(s: State, t: State, asker: nat)
    requires asker in s.askers && t.askers == s.askers - {asker}
    ensures forall other :: |t.WaitersOn(other)| == |s.WaitersOn(other)| - if other == s.askers[asker] then 1 else 0
  {
    forall other
      ensures |t.WaitersOn(other)| == |s.WaitersOn(other)| - if other == s.askers[asker] then 1 else 0
    {
      assert t.WaitersOn(other) == s.WaitersOn(other) - if other == s.askers[asker] then {asker} else {};
    }
  }

  lemma WaitersStay(s: State, t: State)
    requires t.askers == s.askers
    ensures forall other :: t.WaitersOn(other) == s.WaitersOn(other)
  {
    forall other
      ensures t.WaitersOn(other) == s.WaitersOn(other)
    {
    }
  }

  /** What is listed does not depend on who waits or what was answered. */
  lemma SameWhoever(s: State, t: State)
    requires s.SameRequests() && t.asked == s.asked && t.inFlight == s.inFlight
    requires forall id :: id in s.made ==> id in t.made && t.made[id].key == s.made[id].key
    ensures t.SameRequests()
  {
  }

  lemma JoinWaited(s: State, key: Key, clock: nat, asker: nat)
    requires s.Sound() && asker !in s.askers && key in s.inFlight
    ensures Ask(s, key, clock, asker).Waited()
  {
    WaitersJoin(s, Ask(s, key, clock, asker), asker, s.inFlight[key]);
  }

  lemma JoinKeeps(s: State, key: Key, clock: nat, asker: nat)
    requires s.Sound() && asker !in s.askers && key in s.inFlight
    ensures Ask(s, key, clock, asker).Sound()
  {
    hide State.Waited;
    JoinWaited(s, key, clock, asker);
    SameWhoever(s, Ask(s, key, clock, asker));
  }

  lemma NewWaited(s: State, key: Key, clock: nat, asker: nat)
    requires s.Sound() && asker !in s.askers && key !in s.inFlight
    ensures Ask(s, key, clock, asker).Waited()
  {
    var id := NewId(s, clock);
    assert id !in s.made;
    assert s.WaitersOn(id) == {};
    WaitersJoin(s, Ask(s, key, clock, asker), asker, id);
  }

  lemma NewSame(s: State, key: Key, clock: nat, asker: nat)
    requires s.Sound() && asker !in s.askers && key !in s.inFlight
    ensures Ask(s, key, clock, asker).SameRequests()
  {
    hide State.Waited, State.Told, State.NoLostWakeup;
    assert NewId(s, clock) !in s.made;
  }

  lemma NewRest(s: State, key: Key, clock: nat, asker: nat)
    requires s.Sound() && asker !in s.askers && key !in s.inFlight
    ensures var t := Ask(s, key, clock, asker);
            t.Told() && t.NoLostWakeup() && forall id :: id in t.made ==> id <= t.lastId
  {
    hide State.Waited, State.SameRequests;
    assert NewId(s, clock) !in s.made;
  }

  lemma AskKeeps(s: State, key: Key, clock: nat, asker: nat)
    requires s.Sound() && asker !in s.askers
    ensures Ask(s, key, clock, asker).Sound()
  {
    if key in s.inFlight {
      JoinKeeps(s, key, clock, asker);
    } else {
      NewWaited(s, key, clock, asker);
      NewSame(s, key, clock, asker);
      NewRest(s, key, clock, asker);
    }
  }

  lemma ForgetKeepsSame(s: State, id: nat)
    requires s.SameRequests() && id in s.made
    ensures Forget(s, id).SameRequests()
  {
  }

  /** The end of an `ask` takes a request off its list when nobody is left to answer. */
  lemma EndAskLists(s: State, asker: nat, id: nat)
    requires asker in s.askers && s.askers[asker] in s.made && s.made[s.askers[asker]].waiters > 0 && id in s.made
    ensures var t, own := EndAsk(s, asker), s.askers[asker];
            && id in t.made && t.made[id].key == s.made[id].key && t.made[id].answer == s.made[id].answer
            && t.made[id].waiters == s.made[id].waiters - (if id == own then 1 else 0)
            && (t.Listed(id) <==> s.Listed(id) && !(id == own && s.made[id].waiters == 1 && s.made[id].answer.None?))
  {
  }

  lemma EndAskKeepsRest(s: State, asker: nat)
    requires asker in s.askers && s.askers[asker] in s.made && s.made[s.askers[asker]].waiters > 0
    ensures var t := EndAsk(s, asker);
            && t.made.Keys == s.made.Keys && t.callbacks == s.callbacks && t.askers == s.askers - {asker}
            && forall id :: id in s.made ==> t.made[id].answer == s.made[id].answer
  {
  }

  lemma PartWaited(s: State, asker: nat)
    requires s.Waited() && asker in s.askers
    ensures s.askers[asker] in s.made && s.made[s.askers[asker]].waiters > 0
    ensures EndAsk(s, asker).Waited()
  {
    hide EndAsk, State.Listed, State.WaitersOn;
    HasWaiter(s, asker);
    EndAskKeepsRest(s, asker);
    var t := EndAsk(s, asker);
    WaitersLeave(s, t, asker);
    forall id | id in t.made
      ensures t.made[id].waiters == |t.WaitersOn(id)|
      ensures if t.made[id].answer.None? then t.Listed(id) <==> t.made[id].waiters > 0
              else t.Listed(id) ==> id in t.callbacks
    {
      EndAskLists(s, asker, id);
    }
  }

  lemma PartKeeps(s: State, asker: nat)
    requires s.Sound() && asker in s.askers
    ensures s.askers[asker] in s.made && s.made[s.askers[asker]].waiters > 0
    ensures EndAsk(s, asker).Sound()
  {
    PartWaited(s, asker);
    PartRest(s, asker);
    var t := Part(s, asker);
    SameWhoever(s, t);
    ForgetKeepsSame(t, s.askers[asker]);
  }

  lemma PartRest(s: State, asker: nat)
    requires s.Sound() && asker in s.askers && s.askers[asker] in s.made && s.made[s.askers[asker]].waiters > 0
    ensures var t := EndAsk(s, asker);
            t.Told() && t.NoLostWakeup() && forall id :: id in t.made ==> id <= t.lastId
  {
  }

  lemma ReportKeeps(s: State, computer: Computer, id: nat, response: Response)
    requires s.Sound()
    ensures Report(s, computer, id, response).Sound()
  {
    hide State.SameRequests, State.Waited, State.Told, State.NoLostWakeup;
    ReportWaited(s, computer, id, response);
    ReportTold(s, computer, id, response);
    SameWhoever(s, Report(s, computer, id, response));
  }

  lemma ReportTold(s: State, computer: Computer, id: nat, response: Response)
    requires s.Told() && s.NoLostWakeup()
    ensures Report(s, computer, id, response).Told() && Report(s, computer, id, response).NoLostWakeup()
  {
  }

  lemma ReportWaited(s: State, computer: Computer, id: nat, response: Response)
    requires s.Waited()
    ensures Report(s, computer, id, response).Waited()
  {
    WaitersStay(s, Report(s, computer, id, response));
  }

  lemma CallbackKeeps(s: State, id: nat)
    requires s.Sound() && id in s.callbacks
    ensures Callback(s, id).Sound()
  {
    CallbackWaited(s, id);
    assert id in s.made;
    hide State.Waited;
    ForgetKeepsSame(s, id);
    SameWhoever(Forget(s, id), Callback(s, id));
  }

  lemma CallbackWaited(s: State, id: nat)
    requires s.Waited() && id in s.callbacks
    ensures Callback(s, id).Waited()
  {
    WaitersStay(s, Callback(s, id));
  }

  lemma PollsKeep(s: State, t: State)
    requires s.Sound()
    requires t == s.(polls := t.polls, closing := t.closing) && t.NoLostWakeup()
    ensures t.Sound()
  {
    WaitersStay(s, t);
    SameWhoever(s, t);
  }

  lemma BeginPollKeeps(s: State, computer: Computer, after: nat, poll: nat)
    requires s.Sound()
    ensures BeginPoll(s, computer, after, poll).Sound()
  {
    hide State.SameRequests, State.Waited, State.Told;
    if !Ready(s, computer, after) {
      BatchIsPrefix(s.IdsOf(computer), after);
      assert forall e :: e in s.asked && e.computer == computer ==> e.id in s.IdsOf(computer);
      PollsKeep(s, BeginPoll(s, computer, after, poll));
    }
  }

  lemma NextKeeps(s: State, step: Step)
    requires s.Sound() && Enabled(s, step)
    ensures Next(s, step).Sound()
  {
    match step
    case DoAsk(key, clock, asker) => AskKeeps(s, key, clock, asker);
    case DoEndAsk(asker) => PartKeeps(s, asker);
    case DoReport(computer, id, response) => ReportKeeps(s, computer, id, response);
    case DoCallback(id) => CallbackKeeps(s, id);
    case DoBeginPoll(computer, after, poll) => BeginPollKeeps(s, computer, after, poll);
    case DoEndPoll(poll, _) => PollsKeep(s, EndPoll(s, poll));
    case DoClose => PollsKeep(s, Close(s));
  }

  // ---- runs ----

  /** Whether a run of steps can be taken, one after the other, from a state. */
  ghost predicate CanRun(s: State, steps: seq<Step>)
    requires s.Sound()
    decreases |steps|
  {
    steps != [] ==>
      && Enabled(s, steps[0])
      && (NextKeeps(s, steps[0]); CanRun(Next(s, steps[0]), steps[1..]))
  }

  ghost function Run(s: State, steps: seq<Step>): State
    requires s.Sound() && CanRun(s, steps)
    decreases |steps|
  {
    if steps == [] then s
    else
      NextKeeps(s, steps[0]);
      Run(Next(s, steps[0]), steps[1..])
  }

  /** What can only grow: ids, and the answers given. */
  ghost predicate Grows(s: State, t: State) {
    && s.lastId <= t.lastId
    && (forall id :: id in s.made ==> id in t.made && t.made[id].key == s.made[id].key)
    && (forall id :: id in t.made && id !in s.made ==> s.lastId < id)
    && (forall id :: id in s.reported ==> id in t.reported && t.reported[id] == s.reported[id])
    && (forall e :: e in t.asked && e !in s.asked ==> s.lastId < e.id)
  }

  lemma NextGrows(s: State, step: Step)
    requires s.Sound() && Enabled(s, step)
    ensures Grows(s, Next(s, step))
  {
    match step
    case DoAsk(key, clock, asker) => AskGrows(s, key, clock, asker);
    case DoEndAsk(asker) => PartGrows(s, asker);
    case DoReport(computer, id, response) => ReportGrows(s, computer, id, response);
    case _ =>
  }

  lemma AskGrows(s: State, key: Key, clock: nat, asker: nat)
    requires s.Sound() && asker !in s.askers
    ensures Grows(s, Ask(s, key, clock, asker))
  {
    hide State.Waited, State.Told, State.NoLostWakeup;
  }

  lemma PartGrows(s: State, asker: nat)
    requires s.Sound() && asker in s.askers
    ensures PartOf(s, asker) && Grows(s, EndAsk(s, asker))
  {
    hide State.SameRequests, State.Told, State.NoLostWakeup;
    HasWaiter(s, asker);
  }

  lemma ReportGrows(s: State, computer: Computer, id: nat, response: Response)
    requires s.Sound()
    ensures Grows(s, Report(s, computer, id, response))
  {
  }

  lemma GrowsOn(s: State, t: State, u: State)
    requires Grows(s, t) && Grows(t, u)
    ensures Grows(s, u)
  {
  }

  /** Over every interleaving the invariant holds, no request is made at or below an
      id already given out, an answer once given stands, and a request taken off
      its list never comes back. */
  lemma {:induction false} RunsAreSound(s: State, steps: seq<Step>)
    requires s.Sound() && CanRun(s, steps)
    ensures Run(s, steps).Sound() && Grows(s, Run(s, steps))
    decreases |steps|
  {
    if steps != [] {
      NextKeeps(s, steps[0]);
      NextGrows(s, steps[0]);
      RunsAreSound(Next(s, steps[0]), steps[1..]);
      GrowsOn(s, Next(s, steps[0]), Run(s, steps));
    }
  }

  lemma {:induction false} RunsOn(s: State, a: seq<Step>, b: seq<Step>)
    requires s.Sound() && CanRun(s, a + b)
    ensures CanRun(s, a) && Run(s, a).Sound() && CanRun(Run(s, a), b)
    ensures Run(s, a + b) == Run(Run(s, a), b)
    decreases |a|
  {
    if a == [] {
      assert a + b == b;
    } else {
      assert (a + b)[0] == a[0] && (a + b)[1..] == a[1..] + b;
      NextKeeps(s, a[0]);
      RunsOn(Next(s, a[0]), a[1..], b);
    }
  }

  // ---- who is answered, and with what ----

  /** What an asker is given when its wait is over. */
  function AnswerFor(s: State, asker: nat): Option<Response>
    requires asker in s.askers && s.askers[asker] in s.made
  {
    s.made[s.askers[asker]].answer
  }

  /** An asker waits on one request for as long as it waits. */
  lemma {:induction false} WaitsOn(s: State, steps: seq<Step>, asker: nat)
    requires s.Sound() && CanRun(s, steps) && asker in s.askers && DoEndAsk(asker) !in steps
    ensures var t := Run(s, steps);
            asker in t.askers && t.askers[asker] == s.askers[asker]
    decreases |steps|
  {
    if steps != [] {
      NextKeeps(s, steps[0]);
      AskerStays(s, steps[0], asker);
      WaitsOn(Next(s, steps[0]), steps[1..], asker);
    }
  }

  lemma AskerStays(s: State, step: Step, asker: nat)
    requires s.Sound() && Enabled(s, step) && asker in s.askers && step != DoEndAsk(asker)
    ensures asker in Next(s, step).askers && Next(s, step).askers[asker] == s.askers[asker]
  {
    hide State.SameRequests, State.Told, State.NoLostWakeup;
  }

  /** An answer comes from a report by the computer that was asked. */
  lemma ReportedBy(s: State, step: Step, id: nat)
    requires s.Sound() && Enabled(s, step) && id !in s.reported && id in Next(s, step).reported
    ensures id in s.made && step == DoReport(s.made[id].key.computer, id, Next(s, step).reported[id])
  {
    hide State.Waited, State.NoLostWakeup;
  }

  lemma {:induction false} AnswersAreReported(s: State, steps: seq<Step>, id: nat)
    requires s.Sound() && CanRun(s, steps) && id !in s.reported
    ensures var t := Run(s, steps);
            id in t.reported ==>
              && id in t.made
              && exists k :: 0 <= k < |steps| && steps[k] == DoReport(t.made[id].key.computer, id, t.reported[id])
    decreases |steps|
  {
    if steps != [] {
      var next, t := Next(s, steps[0]), Run(s, steps);
      NextKeeps(s, steps[0]);
      RunsAreSound(next, steps[1..]);
      if id in next.reported {
        ReportedBy(s, steps[0], id);
        NextGrows(s, steps[0]);
      } else {
        AnswersAreReported(next, steps[1..], id);
        if id in t.reported {
          var k :| 0 <= k < |steps[1..]| && steps[1..][k] == DoReport(t.made[id].key.computer, id, t.reported[id]);
          assert steps[k + 1] == steps[1..][k];
        }
      }
    }
  }

  /** Over every interleaving, an asker waits on a request of its own key, and the
      answer it is given, if any, is what that computer reported for the id of that
      request. */
  lemma OwnAnswerOnly(before: seq<Step>, key: Key, clock: nat, asker: nat, during: seq<Step>)
    requires CanRun(Start, before + ([DoAsk(key, clock, asker)] + during)) && DoEndAsk(asker) !in during
    ensures var steps := before + ([DoAsk(key, clock, asker)] + during);
            var s := Run(Start, steps);
            && asker in s.askers
            && var id := s.askers[asker];
            && id in s.made && s.made[id].key == key
            && (AnswerFor(s, asker).Some? ==>
                  exists k :: 0 <= k < |steps| && steps[k] == DoReport(key.computer, id, AnswerFor(s, asker).value))
  {
    assert Start.Sound();
    hide Run, CanRun, State.Sound;
    var ask := DoAsk(key, clock, asker);
    var steps := before + ([ask] + during);
    RunsOn(Start, before, [ask] + during);
    var s0 := Run(Start, before);
    RunsOn(s0, [ask], during);
    var s1 := Run(s0, [ask]);
    AskedOne(s0, key, clock, asker);
    WaitsOn(s1, during, asker);
    RunsAreSound(s1, during);
    var s := Run(s1, during);
    AnswerIsReport(s, s.askers[asker]);
    AnswersAreReported(Start, steps, s.askers[asker]);
  }

  /** Asking puts the asker on a request of its key. */
  lemma AskedOne(s: State, key: Key, clock: nat, asker: nat)
    requires s.Sound() && CanRun(s, [DoAsk(key, clock, asker)])
    ensures var t := Run(s, [DoAsk(key, clock, asker)]);
            t.Sound() && asker in t.askers && t.askers[asker] in t.made && t.made[t.askers[asker]].key == key
  {
    NextKeeps(s, DoAsk(key, clock, asker));
    assert Run(Next(s, DoAsk(key, clock, asker)), []) == Ask(s, key, clock, asker);
  }

  lemma AnswerIsReport(s: State, id: nat)
    requires s.Sound() && id in s.made
    ensures s.made[id].answer == if id in s.reported then Some(s.reported[id]) else None
  {
  }

  lemma RunOne(s: State, step: Step, steps: seq<Step>)
    requires s.Sound() && CanRun(s, [step] + steps)
    ensures Enabled(s, step) && Next(s, step).Sound() && CanRun(Next(s, step), steps)
    ensures Run(s, [step] + steps) == Run(Next(s, step), steps)
  {
    NextKeeps(s, step);
    assert ([step] + steps)[0] == step && ([step] + steps)[1..] == steps;
  }

  /** A report that is taken is what every asker of the request is given, whatever happens
      before its wait ends. */
  lemma AnswerReachesAskers(s: State, asker: nat, computer: Computer, id: nat, response: Response, steps: seq<Step>)
    requires s.Sound() && Takes(s, computer, id) && asker in s.askers && s.askers[asker] == id
    requires CanRun(s, [DoReport(computer, id, response)] + steps) && DoEndAsk(asker) !in steps
    ensures var t := Run(s, [DoReport(computer, id, response)] + steps);
            asker in t.askers && t.askers[asker] in t.made && AnswerFor(t, asker) == Some(response)
  {
    var next := Next(s, DoReport(computer, id, response));
    RunOne(s, DoReport(computer, id, response), steps);
    assert asker in next.askers && next.askers[asker] == id && id in next.reported && next.reported[id] == response;
    hide Run, CanRun, Next;
    WaitsOn(next, steps, asker);
    RunsAreSound(next, steps);
    AnswerIsReport(Run(next, steps), id);
  }

  lemma ListedIfWaited(s: State, id: nat)
    requires s.Waited() && id in s.made
    ensures s.made[id].answer.None? ==> (s.Listed(id) <==> exists a :: a in s.askers && s.askers[a] == id)
  {
    if a :| a in s.askers && s.askers[a] == id {
      HasWaiter(s, a);
    } else {
      assert s.WaitersOn(id) == {};
    }
  }

  /** An asker whose wait ends is gone, and the others stay; a request that was not
      answered stays out if and only if one of them waits on it. */
  lemma LastAskerForgets(s: State, asker: nat)
    requires s.Sound() && asker in s.askers
    ensures var t, id := Next(s, DoEndAsk(asker)), s.askers[asker];
            && t.askers == s.askers - {asker} && id in t.made
            && (t.made[id].answer.None? ==> (t.Listed(id) <==> exists a :: a in t.askers && t.askers[a] == id))
  {
    NextKeeps(s, DoEndAsk(asker));
    HasWaiter(s, asker);
    EndAskKeepsRest(s, asker);
    hide State.SameRequests, State.Told, State.NoLostWakeup, EndAsk;
    ListedIfWaited(Next(s, DoEndAsk(asker)), s.askers[asker]);
  }

  /** A request that is off its list and has no callback due. */
  ghost predicate Settled(s: State, id: nat) {
    id in s.made && !s.Listed(id) && id !in s.callbacks
  }

  lemma {:induction false} SettledStays(s: State, steps: seq<Step>, id: nat)
    requires s.Sound() && CanRun(s, steps) && Settled(s, id)
    ensures Settled(Run(s, steps), id)
    decreases |steps|
  {
    if steps != [] {
      var next := Next(s, steps[0]);
      NextKeeps(s, steps[0]);
      NextGrows(s, steps[0]);
      NoCallbackAgain(s, steps[0], id);
      hide Next;
      SettledStays(next, steps[1..], id);
    }
  }

  lemma NoCallbackAgain(s: State, step: Step, id: nat)
    requires s.Sound() && Enabled(s, step) && Settled(s, id)
    ensures id !in Next(s, step).callbacks
  {
    hide State.Waited, State.Told, State.NoLostWakeup;
  }

  lemma NotAskedAgain(s: State, id: nat, clock: nat)
    requires s.Sound() && Settled(s, id)
    ensures AskId(s, s.made[id].key, clock) != id
  {
    hide State.Waited, State.Told, State.NoLostWakeup;
  }

  /** Once its callback has run, an answered request is out of the way for good: who asks
      the same again is put on a new one. */
  lemma AskedAfresh(s: State, id: nat, steps: seq<Step>, clock: nat)
    requires s.Sound() && CanRun(s, [DoCallback(id)] + steps)
    ensures var t := Run(s, [DoCallback(id)] + steps);
            Settled(t, id) && AskId(t, t.made[id].key, clock) != id
  {
    RunOne(s, DoCallback(id), steps);
    var next := Next(s, DoCallback(id));
    assert Settled(next, id);
    hide Run, CanRun, Next, State.Sound;
    SettledStays(next, steps, id);
    RunsAreSound(next, steps);
    NotAskedAgain(Run(next, steps), id, clock);
  }

  /** While anybody waits for an answer that has not come, the request stays out and
      an answer to it would still be taken: another asker giving up changes
      nothing for it. */
  lemma OthersKeepTheRequest(s: State, asker: nat, other: nat)
    requires s.Sound() && asker in s.askers && other in s.askers && other != asker
    requires s.made[s.askers[asker]].answer.None?
    ensures var id := s.askers[asker];
            && PartOf(s, other)
            && Takes(s, s.made[id].key.computer, id)
            && Takes(EndAsk(s, other), s.made[id].key.computer, id)
  {
    hide State.SameRequests, State.Told, State.NoLostWakeup;
    PartKeeps(s, other);
    HasWaiter(s, asker);
    assert asker in EndAsk(s, other).WaitersOn(s.askers[asker]);
    HasWaiter(EndAsk(s, other), asker);
  }

  predicate PartOf(s: State, asker: nat) {
    asker in s.askers && s.askers[asker] in s.made && s.made[s.askers[asker]].waiters > 0
  }

  /** A request that is answered, or off its list, stays so whatever happens next: a
      report of it that comes at any later time changes nothing. */
  lemma LateAnswerIsNothing(s: State, steps: seq<Step>, computer: Computer, id: nat, response: Response)
    requires s.Sound() && CanRun(s, steps) && id in s.made && (s.made[id].answer.Some? || !s.Listed(id))
    ensures var t := Run(s, steps);
            Report(t, computer, id, response) == t
  {
    hide Run, CanRun, State.Waited, State.NoLostWakeup;
    RunsAreSound(s, steps);
    var t := Run(s, steps);
    if Entry(computer, id) in t.asked {
      assert t.made[id].key.computer == computer;
      assert Entry(computer, id) in s.asked;
    }
  }

  /** A poll that stays held has been shown everything: while nobody wakes it, there
      is nothing pending for it. */
  lemma HeldPollMissesNothing(steps: seq<Step>, poll: nat)
    requires CanRun(Start, steps)
    ensures var s := Run(Start, steps);
            poll in s.polls && !s.polls[poll].notified ==> !Ready(s, s.polls[poll].computer, s.polls[poll].after)
  {
    hide Run, CanRun;
    RunsAreSound(Start, steps);
  }

  /** A request nobody has out. */
  lemma ListsOneMore(s: State, key: Key, clock: nat, asker: nat)
    requires s.Sound() && asker !in s.askers && key !in s.inFlight
    ensures var t := Next(s, DoAsk(key, clock, asker));
            && t.lastId == NewId(s, clock) && t.closing == s.closing && t.polls == Woken(s.polls, key.computer)
            && t.IdsOf(key.computer) == s.IdsOf(key.computer) + {NewId(s, clock)}
  {
    hide State.Sound;
    var t := Ask(s, key, clock, asker);
    assert t.asked == s.asked + {Entry(key.computer, NewId(s, clock))};
    forall id ensures id in t.IdsOf(key.computer) <==> id in s.IdsOf(key.computer) || id == NewId(s, clock) {
      assert id in t.IdsOf(key.computer) <==> Entry(key.computer, id) in t.asked;
      assert id in s.IdsOf(key.computer) <==> Entry(key.computer, id) in s.asked;
    }
  }

  /** A poll that finds nothing is held, and a request made of its computer wakes it: until
      it ends it may run on, and right then it is handed that request, if its offset is
      below it. */
  lemma HeldPollIsWoken(s: State, computer: Computer, after: nat, poll: nat, request: string, clock: nat, asker: nat)
    requires s.Sound() && poll !in s.polls && !Ready(s, computer, after)
    requires asker !in s.askers && Key(computer, request) !in s.inFlight
    ensures var held := Next(s, DoBeginPoll(computer, after, poll));
            && held.Sound() && poll in held.polls && !held.polls[poll].notified
            && var t := Next(held, DoAsk(Key(computer, request), clock, asker));
            && Enabled(t, DoEndPoll(poll, false))
            && Gives(t, DoEndPoll(poll, false), computer) == (if after < t.lastId then [t.lastId] else [])
            && s.lastId < t.lastId && clock <= t.lastId
  {
    var ask := DoAsk(Key(computer, request), clock, asker);
    NextKeeps(s, DoBeginPoll(computer, after, poll));
    var held := Next(s, DoBeginPoll(computer, after, poll));
    assert held == s.(polls := s.polls[poll := Poll(computer, after, false)]);
    BatchIsPrefix(s.IdsOf(computer), after);
    hide State.Sound, Batch;
    ListsOneMore(held, Key(computer, request), clock, asker);
    OnlyOnePast(Next(held, ask).IdsOf(computer), after, NewId(s, clock));
  }

  lemma WokenOn(s: State, step: Step, poll: nat)
    requires s.Sound() && Enabled(s, step) && poll in s.polls && s.polls[poll].notified
    requires forall timedOut :: step != DoEndPoll(poll, timedOut)
    ensures poll in Next(s, step).polls && Next(s, step).polls[poll].notified
  {
    hide State.SameRequests, State.Waited, State.Told, State.NoLostWakeup;
  }

  /** Until it ends, that is. */
  lemma {:induction false} WokenStaysWoken(s: State, steps: seq<Step>, poll: nat)
    requires s.Sound() && CanRun(s, steps) && poll in s.polls && s.polls[poll].notified
    requires forall timedOut :: DoEndPoll(poll, timedOut) !in steps
    ensures poll in Run(s, steps).polls && Enabled(Run(s, steps), DoEndPoll(poll, false))
    decreases |steps|
  {
    if steps != [] {
      var next := Next(s, steps[0]);
      NextKeeps(s, steps[0]);
      assert steps[0] in steps;
      hide Next, State.Sound;
      WokenOn(s, steps[0], poll);
      forall timedOut ensures DoEndPoll(poll, timedOut) !in steps[1..] {
        assert DoEndPoll(poll, timedOut) !in steps;
      }
      WokenStaysWoken(next, steps[1..], poll);
    }
  }

  lemma ClosingStays(s: State, step: Step)
    requires s.Sound() && Enabled(s, step) && (s.closing || step == DoClose)
    ensures Next(s, step).closing
  {
    hide State.SameRequests, State.Waited, State.Told, State.NoLostWakeup;
  }

  /** Closing lets every poll go, and holds none after that; they are handed nothing more
      than a poll that need not wait. */
  lemma {:induction false} CloseLetsGo(s: State, steps: seq<Step>)
    requires s.Sound() && CanRun(s, steps) && (s.closing || (steps != [] && steps[0] == DoClose))
    ensures var t := Run(s, steps);
            && t.Sound() && t.closing
            && (forall poll :: poll in t.polls ==>
                  Enabled(t, DoEndPoll(poll, false)) &&
                    Gives(t, DoEndPoll(poll, false), t.polls[poll].computer) == [] &&
                    poll !in Next(t, DoEndPoll(poll, false)).polls)
            && forall computer, after :: Ready(t, computer, after)
    decreases |steps|
  {
    if steps != [] {
      NextKeeps(s, steps[0]);
      ClosingStays(s, steps[0]);
      hide Next;
      CloseLetsGo(Next(s, steps[0]), steps[1..]);
    } else {
      hide State.SameRequests, State.Waited, State.Told;
    }
  }

  /** With no task waiting and no callback due, nothing is kept. */
  lemma NothingKept(steps: seq<Step>)
    requires CanRun(Start, steps)
    ensures var s := Run(Start, steps);
            s.askers == map[] && s.callbacks == {} ==> s.asked == {} && s.inFlight == map[]
  {
    hide Run, CanRun;
    RunsAreSound(Start, steps);
    var s := Run(Start, steps);
    if s.askers == map[] && s.callbacks == {} {
      forall id
        ensures |s.WaitersOn(id)| == 0
      {
        assert s.WaitersOn(id) == {};
      }
      assert forall e :: e in s.asked ==> s.Listed(e.id);
    }
  }

  // ---- what polls hand over ----

  /** The ids a step hands to a computer. */
  function Gives(s: State, step: Step, computer: Computer): seq<nat>
    requires Enabled(s, step)
  {
    match step
    case DoBeginPoll(c, after, _) => if c == computer then Batch(s.IdsOf(c), after) else []
    case DoEndPoll(poll, timedOut) =>
      if s.polls[poll].computer == computer && !timedOut && !s.closing
          then Batch(s.IdsOf(computer), s.polls[poll].after)
      else []
    case _ => []
  }

  /** The offset of the poll a step is about. */
  function Offset(s: State, step: Step): nat
    requires Enabled(s, step)
  {
    match step
    case DoBeginPoll(_, after, _) => after
    case DoEndPoll(poll, _) => s.polls[poll].after
    case _ => 0
  }

  /** The last id received. */
  function LastOf(handed: seq<nat>, otherwise: nat): nat {
    if handed == [] then otherwise else handed[|handed| - 1]
  }

  /** A computer asks past the last id it received: every poll that hands it something
      was made from there. */
  ghost predicate Follows(s: State, steps: seq<Step>, computer: Computer, offset: nat)
    requires s.Sound() && CanRun(s, steps)
    decreases |steps|
  {
    steps != [] ==>
      var given := Gives(s, steps[0], computer);
      && (given != [] ==> Offset(s, steps[0]) == offset)
      && (NextKeeps(s, steps[0]); Follows(Next(s, steps[0]), steps[1..], computer, LastOf(given, offset)))
  }

  /** All that a run hands to a computer. */
  ghost function Handed(s: State, steps: seq<Step>, computer: Computer): seq<nat>
    requires s.Sound() && CanRun(s, steps)
    decreases |steps|
  {
    if steps == [] then []
    else
      NextKeeps(s, steps[0]);
      Gives(s, steps[0], computer) + Handed(Next(s, steps[0]), steps[1..], computer)
  }

  /** The clock that gives ids has passed an offset kept from before the server started. */
  predicate ClockPast(step: Step, from: nat) {
    from > 0 && step.DoAsk? ==> from < step.clock
  }

  /** How a computer stands that began from an offset: its list, and what it has
      received. */
  function DeskOf(s: State, computer: Computer, from: nat, offset: nat, handed: seq<nat>): Desk {
    Desk(s.IdsOf(computer), if s.lastId < from then from else s.lastId, offset, handed)
  }

  /** What a step puts on a list has an id past the clock it was given by. */
  lemma NewIdsPast(s: State, step: Step, from: nat)
    requires s.Sound() && Enabled(s, step) && ClockPast(step, from)
    ensures forall e :: e in Next(s, step).asked && e !in s.asked ==> from < e.id
  {
    hide State.Waited, State.Told, State.NoLostWakeup;
  }

  /** What was received were the computer's own requests. */
  ghost predicate OwnOnly(s: State, computer: Computer, handed: seq<nat>) {
    forall id :: id in handed ==> id in s.made && s.made[id].key.computer == computer
  }

  lemma ListedIsMade(s: State, computer: Computer)
    requires s.Sound()
    ensures forall id :: id in s.IdsOf(computer) ==>
        id in s.made && s.made[id].key.computer == computer && id <= s.lastId
  {
  }

  /** A step that hands nothing over only adds to a list what is new. */
  lemma StepKeepsDesk(s: State, step: Step, computer: Computer, from: nat, offset: nat, handed: seq<nat>)
    requires s.Sound() && Enabled(s, step) && ClockPast(step, from)
    requires Kept(DeskOf(s, computer, from, offset, handed))
    ensures Kept(DeskOf(Next(s, step), computer, from, offset, handed))
  {
    hide Next, State.SameRequests, State.Waited, State.Told, State.NoLostWakeup;
    NextKeeps(s, step);
    NextGrows(s, step);
    NewIdsPast(s, step, from);
    var t := Next(s, step);
    ListedIsMade(t, computer);
    forall id | id in t.IdsOf(computer)
      ensures id <= t.lastId && (id <= offset ==> id in s.IdsOf(computer))
    {
      assert Entry(computer, id) in t.asked;
    }
  }

  /** A step that hands something over is a poll from the offset. */
  lemma StepHandsOver(s: State, step: Step, computer: Computer, from: nat, offset: nat, handed: seq<nat>)
    requires s.Sound() && Enabled(s, step)
    requires Gives(s, step, computer) != [] && Offset(s, step) == offset
    ensures var given := Gives(s, step, computer);
            DeskOf(Next(s, step), computer, from, LastOf(given, offset), handed + given) ==
                HandOver(DeskOf(s, computer, from, offset, handed))
    ensures OwnOnly(s, computer, Gives(s, step, computer))
  {
    BatchIsPrefix(s.IdsOf(computer), offset);
    hide State.Waited, State.Told, State.NoLostWakeup, Batch;
    assert Next(s, step).asked == s.asked && Next(s, step).lastId == s.lastId;
    assert Next(s, step).IdsOf(computer) == s.IdsOf(computer);
  }

  lemma StepKeepsHanded(s: State, step: Step, computer: Computer, from: nat, offset: nat, handed: seq<nat>)
    requires s.Sound() && Enabled(s, step) && OwnOnly(s, computer, handed)
    requires Kept(DeskOf(s, computer, from, offset, handed)) && ClockPast(step, from)
    requires Gives(s, step, computer) != [] ==> Offset(s, step) == offset
    ensures var given := Gives(s, step, computer);
            && Kept(DeskOf(Next(s, step), computer, from, LastOf(given, offset), handed + given))
            && OwnOnly(Next(s, step), computer, handed + given)
  {
    hide Gives, Offset, Next, Kept, State.Sound, DeskOf, HandOver, ClockPast;
    NextGrows(s, step);
    if Gives(s, step, computer) == [] {
      StepKeepsDesk(s, step, computer, from, offset, handed);
      assert handed + [] == handed;
    } else {
      StepHandsOver(s, step, computer, from, offset, handed);
      HandOverKeeps(DeskOf(s, computer, from, offset, handed));
    }
  }

  lemma {:induction false} HandedKeeps(s: State, steps: seq<Step>, computer: Computer, from: nat, offset: nat,
        handed: seq<nat>)
    requires s.Sound() && CanRun(s, steps) && Follows(s, steps, computer, offset)
    requires forall k :: 0 <= k < |steps| ==> ClockPast(steps[k], from)
    requires Kept(DeskOf(s, computer, from, offset, handed)) && OwnOnly(s, computer, handed)
    ensures var given := Handed(s, steps, computer);
            && Kept(DeskOf(Run(s, steps), computer, from, LastOf(given, offset), handed + given))
            && OwnOnly(Run(s, steps), computer, handed + given)
    decreases |steps|
  {
    hide Gives, Offset, Next, Kept, OwnOnly, State.Sound, DeskOf, ClockPast;
    if steps == [] {
      assert handed + [] == handed;
    } else {
      var next, given := Next(s, steps[0]), Gives(s, steps[0], computer);
      NextKeeps(s, steps[0]);
      StepKeepsHanded(s, steps[0], computer, from, offset, handed);
      var rest := Handed(next, steps[1..], computer);
      HandedKeeps(next, steps[1..], computer, from, LastOf(given, offset), handed + given);
      assert handed + (given + rest) == handed + given + rest;
      assert LastOf(given + rest, offset) == LastOf(rest, LastOf(given, offset));
    }
  }

  /** Over every interleaving, a computer that polls from the last id it received, and
      began from an offset the clock is past, is handed its own requests only, in id
      order and none twice; none that is still out was passed over, and when its next
      poll would find nothing it has had them all. */
  lemma NothingSkipped(steps: seq<Step>, computer: Computer, from: nat)
    requires CanRun(Start, steps) && Follows(Start, steps, computer, from)
    requires forall k :: 0 <= k < |steps| ==> ClockPast(steps[k], from)
    ensures var s, handed := Run(Start, steps), Handed(Start, steps, computer);
            && Ascending(handed)
            && (forall id :: id in handed ==> id in s.made && s.made[id].key.computer == computer)
            && (forall id :: id in s.IdsOf(computer) && id <= LastOf(handed, from) ==> id in handed)
            && (Batch(s.IdsOf(computer), LastOf(handed, from)) == [] ==>
                  forall id :: id in s.IdsOf(computer) ==> id in handed)
  {
    HandedKeeps(Start, steps, computer, from, from, []);
    var s, handed := Run(Start, steps), Handed(Start, steps, computer);
    assert [] + handed == handed;
    BatchIsPrefix(s.IdsOf(computer), LastOf(handed, from));
  }
}
