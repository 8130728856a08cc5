/** What is unread in a conversation, checks that hand it out and move the cursor,
    and the freshness a reply is held against. */
module Draining {
  import opened Wrappers

  /** How many messages one listing returns unless it is told otherwise. */
  const LIMIT: nat := 100
  const SHOWN_NEWER: nat := 20

  /** A kept message.  One in `history` can be resolved as what another replies to. */
  datatype Message = Message(seqNo: nat, id: nat, inbound: bool, notifies: bool, history: bool, replyTo: Option<nat>)

  /** A conversation, and the number up to which it has been handed out. */
  datatype Thread = Thread(messages: seq<Message>, cursor: nat)

  type Threads = map<nat, Thread>

  /** Messages are kept in the order of their numbers, which start at 1. */
  ghost predicate Numbered(ms: seq<Message>) {
    && (forall i, j :: 0 <= i < j < |ms| ==> ms[i].seqNo < ms[j].seqNo)
    && (forall i :: 0 <= i < |ms| ==> ms[i].seqNo > 0)
  }

  predicate Notifies(m: Message) {
    m.inbound && m.notifies
  }

  /** The messages the runtime is to hear of, past a number. */
  function Notifying(ms: seq<Message>, after: int): (some: seq<Message>) {
    if ms == [] then []
    else if Notifies(ms[|ms| - 1]) && ms[|ms| - 1].seqNo > after
         then Notifying(ms[..|ms| - 1], after) + [ms[|ms| - 1]]
    else Notifying(ms[..|ms| - 1], after)
  }

  function Unread(t: Thread): seq<Message> {
    Notifying(t.messages, t.cursor)
  }

  /** `get_latest_message_seq` for inbound messages. */
  function LatestInbound(ms: seq<Message>): nat {
    if ms == [] then 0
    else var before := LatestInbound(ms[..|ms| - 1]);
         if ms[|ms| - 1].inbound && ms[|ms| - 1].seqNo > before then ms[|ms| - 1].seqNo else before
  }

  function Oldest(ms: seq<Message>, n: nat): seq<Message> {
    if |ms| <= n then ms else ms[..n]
  }

  function Newest(ms: seq<Message>, n: nat): seq<Message> {
    if |ms| <= n then ms else ms[|ms| - n..]
  }

  // ---- what messages reply to ----

  function Ids(ms: seq<Message>): set<nat> {
    set m | m in ms :: m.id
  }

  predicate Resolves(history: seq<Message>, id: nat) {
    exists m :: m in history && m.id == id && m.history
  }

  /** The ids some messages reply to that are not their own, as first mentioned. */
  function Mentioned(ms: seq<Message>, own: set<nat>): (refs: seq<nat>) {
    if ms == [] then []
    else
      var refs, last := Mentioned(ms[..|ms| - 1], own), ms[|ms| - 1].replyTo;
      if last.None? || last.value in own || last.value in refs then refs else refs + [last.value]
  }

  /** Nothing is listed twice, nothing that is among the messages already; and every
      reply leads to a message or to a reference. */
  lemma {:induction false} MentionedOnce(ms: seq<Message>, own: set<nat>)
    ensures var refs := Mentioned(ms, own);
            && (forall i, j :: 0 <= i < j < |refs| ==> refs[i] != refs[j])
            && (forall x :: x in refs ==> x !in own && exists m :: m in ms && m.replyTo == Some(x))
            && (forall m :: m in ms && m.replyTo.Some? ==> m.replyTo.value in own || m.replyTo.value in refs)
  {
    if ms != [] {
      MentionedOnce(ms[..|ms| - 1], own);
    }
  }

  /** `_referenced_messages`: nothing when a reply leads to no message. */
  method ReferencedMessages(history: seq<Message>, ms: seq<Message>) returns (refs: Option<seq<nat>>)
    ensures refs.Some? <==> forall x :: x in Mentioned(ms, Ids(ms)) ==> Resolves(history, x)
    ensures refs.Some? ==> refs.value == Mentioned(ms, Ids(ms))
  {
    var own := Ids(ms);
    var referenced: seq<nat> := [];
    for i := 0 to |ms|
      invariant referenced == Mentioned(ms[..i], own)
      invariant forall x :: x in referenced ==> Resolves(history, x)
    {
      assert ms[..i + 1][..i] == ms[..i];
      var reference := ms[i].replyTo;
      if reference.None? || reference.value in own || reference.value in referenced {
        continue;
      }
      if !Resolves(history, reference.value) {
        MentionedGrows(ms, own, i + 1);
        assert reference.value in Mentioned(ms[..i + 1], own);
        return None;
      }
      referenced := referenced + [reference.value];
    }
    assert ms[..|ms|] == ms;
    return Some(referenced);
  }

  lemma {:induction false} MentionedGrows(ms: seq<Message>, own: set<nat>, n: nat)
    requires n <= |ms|
    ensures forall x :: x in Mentioned(ms[..n], own) ==> x in Mentioned(ms, own)
  {
    if n == |ms| {
      assert ms[..n] == ms;
    } else {
      MentionedGrows(ms[..|ms| - 1], own, n);
      assert ms[..|ms| - 1][..n] == ms[..n];
    }
  }

  // ---- checks ----

  datatype Checked = Checked(thread: nat, messages: seq<Message>, snapshot: nat, refs: seq<nat>)

  datatype Outcome = Done(threads: Threads, checks: seq<Checked>) | UnknownThread(thread: nat) | LostReply(thread: nat)

  /** What a check hands out of one conversation. */
  function HandOut(t: Thread): seq<Message> {
    Oldest(Unread(t), LIMIT)
  }

  function CheckOne(threads: Threads, id: nat): Outcome {
    if id !in threads then UnknownThread(id)
    else
      var t := threads[id];
      var ms := HandOut(t);
      var refs, latest := Mentioned(ms, Ids(ms)), LatestInbound(t.messages);
      if exists x :: x in refs && !Resolves(t.messages, x) then LostReply(id)
      else Done(threads[id := t.(cursor := latest)], [Checked(id, ms, latest, refs)])
  }

  /** Conversations are checked one after the other, and together: all or nothing. */
  function CheckAll(threads: Threads, ids: seq<nat>): Outcome {
    if ids == [] then Done(threads, [])
    else
      var before := CheckAll(threads, ids[..|ids| - 1]);
      if !before.Done? then before
      else
        var last := CheckOne(before.threads, ids[|ids| - 1]);
        if !last.Done? then last else Done(last.threads, before.checks + last.checks)
  }

  class Storage {
    var threads: Threads

    /** `record_inbound` and `save_message`: the next message of a conversation. */
    method Keep(id: nat, m: Message)
      requires id in threads
      requires threads[id].messages != [] ==> threads[id].messages[|threads[id].messages| - 1].seqNo < m.seqNo
      modifies this
      ensures threads == old(threads)[id := old(threads)[id].(messages := old(threads)[id].messages + [m])]
    {
      threads := threads[id := threads[id].(messages := threads[id].messages + [m])];
    }

    /** `_check_one_thread`. */
    method CheckOneThread(id: nat) returns (o: Outcome)
      modifies this
      ensures o == CheckOne(old(threads), id)
      ensures threads == if o.Done? then o.threads else old(threads)
    {
      if id !in threads {
        return UnknownThread(id);
      }
      var cursor := threads[id].cursor;
      var latest := LatestInbound(threads[id].messages);
      var messages := Oldest(Notifying(threads[id].messages, cursor), LIMIT);
      var references := ReferencedMessages(threads[id].messages, messages);
      if references.None? {
        return LostReply(id);
      }
      threads := threads[id := threads[id].(cursor := latest)];
      o := Done(threads, [Checked(id, messages, latest, references.value)]);
    }

    /** `check_messages`, in the one transaction the storage runs it in. */
    method CheckMessages(ids: seq<nat>) returns (o: Outcome)
      modifies this
      ensures o == CheckAll(old(threads), ids)
      ensures threads == if o.Done? then o.threads else old(threads)
    {
      var before := threads;
      var checks := [];
      for i := 0 to |ids|
        invariant CheckAll(before, ids[..i]) == Done(threads, checks)
      {
        assert ids[..i + 1][..i] == ids[..i];
        o := CheckOneThread(ids[i]);
        if !o.Done? {
          CheckStops(before, ids, i + 1);
          threads := before;
          return;
        }
        checks := checks + o.checks;
      }
      assert ids[..|ids|] == ids;
      o := Done(threads, checks);
    }
  }

  lemma {:induction false} CheckStops(threads: Threads, ids: seq<nat>, n: nat)
    requires n <= |ids| && !CheckAll(threads, ids[..n]).Done?
    ensures CheckAll(threads, ids) == CheckAll(threads, ids[..n])
  {
    if n == |ids| {
      assert ids[..n] == ids;
    } else {
      assert ids[..|ids| - 1][..n] == ids[..n];
      CheckStops(threads, ids[..|ids| - 1], n);
    }
  }

  // ---- one conversation over a whole run ----

  /** What has been handed out of a conversation. */
  function Given(log: seq<Checked>, id: nat): seq<Message> {
    if log == [] then []
    else if log[|log| - 1].thread == id then Given(log[..|log| - 1], id) + log[|log| - 1].messages
    else Given(log[..|log| - 1], id)
  }

  lemma {:induction false} GivenOn(a: seq<Checked>, b: seq<Checked>, id: nat)
    ensures Given(a + b, id) == Given(a, id) + Given(b, id)
  {
    if b == [] {
      assert a + b == a;
    } else {
      assert (a + b)[..|a + b| - 1] == a + b[..|b| - 1];
      GivenOn(a, b[..|b| - 1], id);
    }
  }

  datatype State = State(threads: Threads, log: seq<Checked>)

  datatype Step = Arrive(thread: nat, message: Message) | Check(threads: seq<nat>)

  function Next(s: State, step: Step): State {
    match step
    case Arrive(id, m) =>
      if id !in s.threads then s
      else s.(threads := s.threads[id := s.threads[id].(messages := s.threads[id].messages + [m])])
    case Check(ids) =>
      var o := CheckAll(s.threads, ids);
      if o.Done? then State(o.threads, s.log + o.checks) else s
  }

  /** A message that arrives has a number above all before it. */
  ghost predicate Allowed(s: State, step: Step) {
    step.Arrive? && step.thread in s.threads ==>
      && step.message.seqNo > 0
      && forall m :: m in s.threads[step.thread].messages ==> m.seqNo < step.message.seqNo
  }

  /** Cursors are at or below the last inbound message. */
  ghost predicate Sound(s: State) {
    forall id :: id in s.threads ==>
      Numbered(s.threads[id].messages) && s.threads[id].cursor <= LatestInbound(s.threads[id].messages)
  }

  /** What was handed out and what is unread make up the conversation, in order:
      nothing is handed out twice, nothing is passed over. */
  ghost predicate Exact(s: State, id: nat)
    requires id in s.threads
  {
    Given(s.log, id) + Unread(s.threads[id]) == Notifying(s.threads[id].messages, 0)
  }

  // ---- listing ----

  lemma {:induction false} NotifyingAbove(ms: seq<Message>, after: int)
    ensures forall m :: m in Notifying(ms, after) <==> m in ms && Notifies(m) && m.seqNo > after
  {
    if ms != [] {
      NotifyingAbove(ms[..|ms| - 1], after);
      assert ms == ms[..|ms| - 1] + [ms[|ms| - 1]];
    }
  }

  lemma NotifyingOn(ms: seq<Message>, m: Message, after: int)
    ensures Notifying(ms + [m], after) == Notifying(ms, after) + if Notifies(m) && m.seqNo > after then [m] else []
    ensures LatestInbound(ms + [m]) == if m.inbound && m.seqNo > LatestInbound(ms) then m.seqNo else LatestInbound(ms)
  {
    assert (ms + [m])[..|ms|] == ms;
  }

  lemma {:induction false} LatestIsLatest(ms: seq<Message>)
    ensures forall m :: m in ms && m.inbound ==> m.seqNo <= LatestInbound(ms)
    ensures LatestInbound(ms) > 0 ==> exists m :: m in ms && m.inbound && m.seqNo == LatestInbound(ms)
  {
    if ms != [] {
      LatestIsLatest(ms[..|ms| - 1]);
      assert ms == ms[..|ms| - 1] + [ms[|ms| - 1]];
    }
  }

  /** Nothing is unread once the cursor is at the last inbound message. */
  lemma NothingPastLatest(ms: seq<Message>)
    ensures Notifying(ms, LatestInbound(ms)) == []
  {
    NotifyingAbove(ms, LatestInbound(ms));
    LatestIsLatest(ms);
    if Notifying(ms, LatestInbound(ms)) != [] {
      assert Notifying(ms, LatestInbound(ms))[0] in Notifying(ms, LatestInbound(ms));
    }
  }

  /** What a check does to one conversation, whichever others it drains too. */
  lemma {:induction false} CheckDrains(threads: Threads, ids: seq<nat>, id: nat)
    requires id in threads && CheckAll(threads, ids).Done?
    ensures var o, t := CheckAll(threads, ids), threads[id];
            && o.threads.Keys == threads.Keys
            && (id !in ids ==> o.threads[id] == t && Given(o.checks, id) == [])
            && (id in ids ==>
                o.threads[id] == t.(cursor := LatestInbound(t.messages)) && Given(o.checks, id) == HandOut(t))
  {
    if ids != [] {
      var others, last := ids[..|ids| - 1], ids[|ids| - 1];
      assert ids == others + [last];
      CheckDrains(threads, others, id);
      var before := CheckAll(threads, others);
      var now := CheckOne(before.threads, last);
      GivenOn(before.checks, now.checks, id);
      assert Given(now.checks, id) == if last == id then now.checks[0].messages else [] by {
        assert now.checks[..0] == [];
      }
      if last == id && id in others {
        NothingPastLatest(threads[id].messages);
      }
    }
  }

  /** What a check says of the k-th conversation it names: the oldest of what is unread,
      at most one listing, and nothing the second time; as snapshot the new cursor, which
      is the number of the last inbound message. */
  ghost predicate Tells(threads: Threads, ids: seq<nat>, o: Outcome, k: nat)
    requires k < |ids| && o.Done?
  {
    && k < |o.checks| && ids[k] in threads && ids[k] in o.threads
    && var c, t := o.checks[k], threads[ids[k]];
    && c.thread == ids[k] && c.snapshot == o.threads[ids[k]].cursor
    && (forall m :: m in t.messages && m.inbound ==> m.seqNo <= c.snapshot)
    && (c.snapshot > 0 ==> exists m :: m in t.messages && m.inbound && m.seqNo == c.snapshot)
    && (if ids[k] in ids[..k] then c.messages == []
        else c.messages <= Unread(t) && |c.messages| == (if |Unread(t)| <= LIMIT then |Unread(t)| else LIMIT))
  }

  lemma LastIsTold(threads: Threads, others: seq<nat>, last: nat)
    requires last in threads && CheckAll(threads, others + [last]).Done?
    ensures var ids := others + [last];
            var o, before := CheckAll(threads, ids), CheckAll(threads, others);
            && before.Done? && |o.checks| == |before.checks| + 1
            && (|before.checks| == |others| ==> Tells(threads, ids, o, |others|))
  {
    var ids := others + [last];
    assert ids[..|ids| - 1] == others && ids[..|others|] == others;
    CheckDrains(threads, others, last);
    CheckDrains(threads, ids, last);
    LatestIsLatest(threads[last].messages);
    NothingPastLatest(threads[last].messages);
  }

  lemma EarlierAreTold(threads: Threads, others: seq<nat>, last: nat, k: nat)
    requires CheckAll(threads, others + [last]).Done? && k < |others|
    ensures var o, before := CheckAll(threads, others + [last]), CheckAll(threads, others);
            && before.Done? && |o.checks| == |before.checks| + 1
            && (Tells(threads, others, before, k) ==> Tells(threads, others + [last], o, k))
  {
    var ids := others + [last];
    assert ids[..|ids| - 1] == others && ids[..k] == others[..k] && ids[k] == others[k];
    var o, before := CheckAll(threads, ids), CheckAll(threads, others);
    assert before.checks <= o.checks;
    if Tells(threads, others, before, k) {
      CheckDrains(threads, others, ids[k]);
      CheckDrains(threads, ids, ids[k]);
      hide CheckAll, Notifying, LatestInbound;
    }
  }

  lemma {:induction false} CheckTells(threads: Threads, ids: seq<nat>, k: nat)
    requires CheckAll(threads, ids).Done? && k < |ids|
    ensures |CheckAll(threads, ids).checks| == |ids| && Tells(threads, ids, CheckAll(threads, ids), k)
  {
    CheckKeepsKeys(threads, ids);
    var others, last := ids[..|ids| - 1], ids[|ids| - 1];
    assert ids == others + [last];
    assert CheckAll(threads, others).Done?;
    CheckKeepsKeys(threads, others);
    assert last in threads && |CheckAll(threads, []).checks| == 0;
    hide CheckAll, Tells;
    LastIsTold(threads, others, last);
    if others != [] { CheckTells(threads, others, if k < |others| then k else 0); }
    if k < |others| { EarlierAreTold(threads, others, last, k); }
  }

  lemma {:induction false} CheckKeepsKeys(threads: Threads, ids: seq<nat>)
    requires CheckAll(threads, ids).Done?
    ensures CheckAll(threads, ids).threads.Keys == threads.Keys
  {
    if ids != [] { CheckKeepsKeys(threads, ids[..|ids| - 1]); }
  }

  /** A reply to this id leads to a message that is handed out too, or is kept in the
      history. */
  ghost predicate Leads(t: Thread, id: nat) {
    exists m: Message :: m.id == id && (m in HandOut(t) || (m in t.messages && m.history))
  }

  ghost predicate RepliesFound(t: Thread) {
    forall m :: m in HandOut(t) && m.replyTo.Some? ==> Leads(t, m.replyTo.value)
  }

  lemma LeadsIff(t: Thread)
    ensures forall id :: Leads(t, id) <==> id in Ids(HandOut(t)) || Resolves(t.messages, id)
  {
    hide HandOut;
  }

  lemma FoundIff(threads: Threads, id: nat)
    requires id in threads
    ensures CheckOne(threads, id).Done? <==> RepliesFound(threads[id])
  {
    LeadsIff(threads[id]);
    hide Notifying, Mentioned, LatestInbound, Resolves, Oldest, Leads;
    var ms := HandOut(threads[id]);
    MentionedOnce(ms, Ids(ms));
    var refs := Mentioned(ms, Ids(ms));
    var found := forall x :: x in refs ==> Resolves(threads[id].messages, x);
    assert CheckOne(threads, id).Done? <==> found;
    if found {
      forall m | m in ms && m.replyTo.Some?
        ensures Leads(threads[id], m.replyTo.value)
      {
      }
    }
    if RepliesFound(threads[id]) {
      forall x | x in refs ensures Resolves(threads[id].messages, x) {
        var m :| m in ms && m.replyTo == Some(x);
      }
    }
  }

  lemma LastFoundIff(threads: Threads, others: seq<nat>, last: nat)
    requires CheckAll(threads, others).Done? && last in threads && (last in others ==> RepliesFound(threads[last]))
    ensures var before := CheckAll(threads, others);
            last in before.threads && (CheckOne(before.threads, last).Done? <==> RepliesFound(threads[last]))
  {
    hide CheckAll, Notifying, LatestInbound, Mentioned;
    CheckDrains(threads, others, last);
    FoundIff(CheckAll(threads, others).threads, last);
    NothingPastLatest(threads[last].messages);
  }

  /** A check fails if and only if a conversation it names is not known, or a message it
      would hand out replies to one that is neither among them nor kept in the history. */
  lemma {:induction false} CheckFailsIff(threads: Threads, ids: seq<nat>)
    ensures CheckAll(threads, ids).Done? <==>
            forall id :: id in ids ==> id in threads && RepliesFound(threads[id])
  {
    if ids != [] {
      var others, last := ids[..|ids| - 1], ids[|ids| - 1];
      assert ids == others + [last];
      CheckFailsIff(threads, others);
      if CheckAll(threads, others).Done? {
        CheckKeepsKeys(threads, others);
        if last in threads { LastFoundIff(threads, others, last); }
      }
    }
  }

  /** A check hands out every conversation it names and moves each cursor along, or
      does nothing at all. */
  lemma CheckIsAllOrNothing(s: State, ids: seq<nat>, id: nat)
    requires id in s.threads
    ensures var after, t := Next(s, Check(ids)), s.threads[id];
            if !CheckAll(s.threads, ids).Done? then after == s
            else (after.threads.Keys == s.threads.Keys
                && if id in ids
                   then after.threads[id] == t.(cursor := LatestInbound(t.messages)) &&
                       Given(after.log, id) == Given(s.log, id) + HandOut(t)
                   else after.threads[id] == t && Given(after.log, id) == Given(s.log, id))
  {
    var o := CheckAll(s.threads, ids);
    if o.Done? {
      CheckDrains(s.threads, ids, id);
      GivenOn(s.log, o.checks, id);
    }
  }

  // ---- runs ----

  function RunAll(s: State, steps: seq<Step>): State
    decreases |steps|
  {
    if steps == [] then s else RunAll(Next(s, steps[0]), steps[1..])
  }

  ghost predicate AllAllowed(s: State, steps: seq<Step>)
    decreases |steps|
  {
    steps != [] ==> Allowed(s, steps[0]) && AllAllowed(Next(s, steps[0]), steps[1..])
  }

  /** A check of a conversation with more unread than one listing returns. */
  ghost predicate Overruns(s: State, step: Step, id: nat) {
    && id in s.threads && step.Check? && id in step.threads
    && CheckAll(s.threads, step.threads).Done? && |Unread(s.threads[id])| > LIMIT
  }

  ghost predicate EverOverruns(s: State, steps: seq<Step>, id: nat)
    decreases |steps|
  {
    steps != [] && (Overruns(s, steps[0], id) || EverOverruns(Next(s, steps[0]), steps[1..], id))
  }

  /** How many messages were passed over. */
  function Missed(s: State, id: nat): int
    requires id in s.threads
  {
    |Notifying(s.threads[id].messages, 0)| - |Given(s.log, id)| - |Unread(s.threads[id])|
  }

  lemma NumberedOn(ms: seq<Message>, m: Message)
    requires Numbered(ms) && m.seqNo > 0 && forall x :: x in ms ==> x.seqNo < m.seqNo
    ensures Numbered(ms + [m]) && LatestInbound(ms) <= LatestInbound(ms + [m])
    ensures m.seqNo > LatestInbound(ms)
  {
    hide LatestInbound, Notifying;
    NotifyingOn(ms, m, 0);
    LatestIsLatest(ms);
    forall i | 0 <= i < |ms| ensures ms[i].seqNo < m.seqNo {
      assert ms[i] in ms;
    }
  }

  /** What one step may do to one conversation. */
  ghost predicate Kept(s: State, step: Step, after: State, id: nat)
    requires id in s.threads
  {
    && id in after.threads
    && s.threads[id].cursor <= after.threads[id].cursor <= LatestInbound(after.threads[id].messages)
    && Numbered(after.threads[id].messages)
    && (Exact(s, id) && !Overruns(s, step, id) ==> Exact(after, id))
    && Missed(after, id) >= Missed(s, id)
    && (Overruns(s, step, id) ==> Missed(after, id) > Missed(s, id))
  }

  lemma ArriveKeeps(s: State, id: nat, m: Message)
    requires Sound(s) && Allowed(s, Arrive(id, m)) && id in s.threads
    ensures Kept(s, Arrive(id, m), Next(s, Arrive(id, m)), id)
  {
    hide Notifying, LatestInbound, Given, Numbered;
    var t := s.threads[id];
    NumberedOn(t.messages, m);
    NotifyingOn(t.messages, m, t.cursor);
    NotifyingOn(t.messages, m, 0);
    var more := if Notifies(m) then [m] else [];
    assert Given(s.log, id) + (Unread(t) + more) == Given(s.log, id) + Unread(t) + more;
  }

  lemma CheckKeeps(s: State, ids: seq<nat>, id: nat)
    requires Sound(s) && id in s.threads
    ensures Kept(s, Check(ids), Next(s, Check(ids)), id)
  {
    hide Notifying, LatestInbound, Given, Numbered, CheckAll;
    var t := s.threads[id];
    CheckIsAllOrNothing(s, ids, id);
    NothingPastLatest(t.messages);
    assert Given(s.log, id) + HandOut(t) + [] == Given(s.log, id) + HandOut(t);
  }

  lemma StepKeeps(s: State, step: Step, id: nat)
    requires Sound(s) && Allowed(s, step) && id in s.threads
    ensures Kept(s, step, Next(s, step), id)
  {
    match step {
      case Arrive(to, m) => if to == id { ArriveKeeps(s, id, m); }
      case Check(ids) => CheckKeeps(s, ids, id);
    }
  }

  lemma NextKeepsSound(s: State, step: Step)
    requires Sound(s) && Allowed(s, step)
    ensures Sound(Next(s, step)) && Next(s, step).threads.Keys == s.threads.Keys
  {
    hide LatestInbound, Notifying, Numbered, Given, Missed, Exact, Overruns;
    if id :| id in s.threads {
      if step.Check? { CheckIsAllOrNothing(s, step.threads, id); }
    }
    if step.Check? && s.threads == map[] && CheckAll(s.threads, step.threads).Done? {
      NoneToCheck(s.threads, step.threads);
    }
    forall id | id in s.threads
      ensures id in Next(s, step).threads && Numbered(Next(s, step).threads[id].messages)
      ensures Next(s, step).threads[id].cursor <= LatestInbound(Next(s, step).threads[id].messages)
    {
      StepKeeps(s, step, id);
    }
  }

  lemma {:induction false} NoneToCheck(threads: Threads, ids: seq<nat>)
    requires threads == map[] && CheckAll(threads, ids).Done?
    ensures CheckAll(threads, ids).threads == map[]
  {
    if ids != [] { NoneToCheck(threads, ids[..|ids| - 1]); }
  }

  /** The cursor of a conversation never goes back, and once messages have been passed
      over they stay so. */
  lemma {:induction false} NothingComesBack(s: State, steps: seq<Step>, id: nat)
    requires Sound(s) && AllAllowed(s, steps) && id in s.threads
    ensures var after := RunAll(s, steps);
            && id in after.threads && s.threads[id].cursor <= after.threads[id].cursor
            && Missed(s, id) <= Missed(after, id)
            && (EverOverruns(s, steps, id) ==> Missed(s, id) < Missed(after, id))
    decreases |steps|
  {
    if steps != [] {
      StepKeeps(s, steps[0], id);
      NextKeepsSound(s, steps[0]);
      NothingComesBack(Next(s, steps[0]), steps[1..], id);
    }
  }

  /** Over every run of arrivals and checks, what was handed out of a conversation and
      what is unread make up its messages exactly, each once and in order, if and only
      if no check found more unread than one listing returns. */
  lemma {:induction false} ExactIffNeverOverrun(s: State, steps: seq<Step>, id: nat)
    requires Sound(s) && AllAllowed(s, steps) && id in s.threads && Exact(s, id)
    ensures id in RunAll(s, steps).threads
    ensures Exact(RunAll(s, steps), id) <==> !EverOverruns(s, steps, id)
    decreases |steps|
  {
    NothingComesBack(s, steps, id);
    if steps != [] && !EverOverruns(s, steps, id) {
      StepKeeps(s, steps[0], id);
      NextKeepsSound(s, steps[0]);
      ExactIffNeverOverrun(Next(s, steps[0]), steps[1..], id);
    }
  }

  /** Messages after number k, up to number n, arrive in conversation 1, which is then
      checked. */
  function Burst(k: nat, n: nat): seq<Step>
    decreases n - k
  {
    if k >= n then [Check([1])] else [Arrive(1, Note(k + 1))] + Burst(k + 1, n)
  }

  function Note(k: nat): Message {
    Message(k, k, true, true, true, None)
  }

  function Notes(n: nat): seq<Message> {
    seq(n, (i: nat) => Note(i + 1))
  }

  function Noted(n: nat): State {
    State(map[1 := Thread(Notes(n), 0)], [])
  }

  lemma {:induction false} NotesNotify(n: nat)
    ensures Notifying(Notes(n), 0) == Notes(n)
  {
    if n > 0 {
      assert Notes(n)[..n - 1] == Notes(n - 1);
      NotesNotify(n - 1);
    }
  }

  lemma CheckOverruns(n: nat)
    ensures Overruns(Noted(n), Check([1]), 1) <==> n > LIMIT
  {
    hide Mentioned, Notifying, LatestInbound;
    var threads := Noted(n).threads;
    var ms := HandOut(threads[1]);
    NotesNotify(n);
    assert Unread(threads[1]) == Notes(n);
    assert forall m :: m in ms ==> m.replyTo == None;
    MentionedOnce(ms, Ids(ms));
    assert forall x :: x !in Mentioned(ms, Ids(ms));
    assert CheckOne(threads, 1).Done?;
    assert [1][..0] == [];
    assert CheckAll(threads, [1][..0]) == Done(threads, []);
  }

  lemma {:induction false} BurstOverruns(k: nat, n: nat)
    requires k <= n
    ensures AllAllowed(Noted(k), Burst(k, n))
    ensures EverOverruns(Noted(k), Burst(k, n), 1) <==> n > LIMIT
    decreases n - k
  {
    hide CheckAll;
    if k < n {
      assert Notes(k) + [Note(k + 1)] == Notes(k + 1);
      assert Next(Noted(k), Arrive(1, Note(k + 1))) == Noted(k + 1);
      BurstOverruns(k + 1, n);
    } else {
      CheckOverruns(n);
    }
  }

  /** From an empty conversation: n messages arrive before the first check, and it is
      exact after that if and only if they fit into one listing. */
  lemma BurstIsExactIff(n: nat)
    ensures Sound(Noted(0)) && Exact(Noted(0), 1) && 1 in RunAll(Noted(0), Burst(0, n)).threads
    ensures Exact(RunAll(Noted(0), Burst(0, n)), 1) <==> n <= LIMIT
  {
    BurstOverruns(0, n);
    ExactIffNeverOverrun(Noted(0), Burst(0, n), 1);
  }

  // ---- replies held back for news ----

  datatype Freshness = Pass(current: nat) | Hold(messages: seq<Message>, total: nat, snapshot: Option<int>,
      current: nat)

  /** `_latest_notifying_inbound_seq`. */
  function LatestNotifying(ms: seq<Message>): nat {
    var last := Newest(Notifying(ms, 0), 1);
    if last == [] then 0 else last[|last| - 1].seqNo
  }

  /** `check_outbound_freshness`, of a conversation that is known. */
  function Freshen(ms: seq<Message>, snapshot: Option<int>): Freshness {
    var current := LatestNotifying(ms);
    if current == 0 || (snapshot.Some? && current <= snapshot.value) then Pass(current)
    else
      var newer := Notifying(ms, if snapshot.Some? then snapshot.value else 0);
      Hold(Newest(newer, SHOWN_NEWER), |newer|, snapshot, current)
  }

  /** Whether a reply is held, once its snapshot has been checked again; `None` is the
      recheck contradicting itself. */
  function Materialize(ms: seq<Message>, expected: int): Option<bool> {
    if LatestNotifying(ms) > expected
    then (if Freshen(ms, Some(expected)).Pass? then None else Some(true))
    else Some(false)
  }

  lemma LatestNotifyingOn(ms: seq<Message>, m: Message)
    requires m.seqNo > 0
    ensures LatestNotifying(ms + [m]) == if Notifies(m) then m.seqNo else LatestNotifying(ms)
    ensures Notifying(ms + [m], 0) == [] <==> !Notifies(m) && Notifying(ms, 0) == []
  {
    NotifyingOn(ms, m, 0);
  }

  lemma {:induction false} LatestNotifyingIsLatest(ms: seq<Message>)
    requires Numbered(ms)
    ensures forall m :: m in ms && Notifies(m) ==> m.seqNo <= LatestNotifying(ms)
    ensures LatestNotifying(ms) > 0 ==> exists m :: m in ms && Notifies(m) && m.seqNo == LatestNotifying(ms)
    ensures LatestNotifying(ms) == 0 <==> Notifying(ms, 0) == []
  {
    if ms != [] {
      hide LatestNotifying, Notifying;
      var others, last := ms[..|ms| - 1], ms[|ms| - 1];
      assert ms == others + [last];
      LatestNotifyingIsLatest(others);
      LatestNotifyingOn(others, last);
      forall m | m in others ensures m.seqNo < last.seqNo {
        var i :| 0 <= i < |others| && others[i] == m;
        assert ms[i] == m;
      }
    }
  }

  /** However far back a listing goes, it ends with the same message. */
  lemma {:induction false} SameNewest(ms: seq<Message>, after: int)
    requires Numbered(ms) && Notifying(ms, after) != []
    ensures var some, all := Notifying(ms, after), Notifying(ms, 0);
            all != [] && some[|some| - 1] == all[|all| - 1]
  {
    var last := ms[|ms| - 1];
    if !Notifies(last) || last.seqNo <= after {
      NotifyingAbove(ms[..|ms| - 1], after);
      assert Notifying(ms, after)[0] in Notifying(ms[..|ms| - 1], after);
      SameNewest(ms[..|ms| - 1], after);
    }
  }

  /** What the runtime is to hear of that came after a snapshot, if there is one. */
  function News(ms: seq<Message>, snapshot: Option<int>): set<Message> {
    set m | m in ms && m.inbound && m.notifies && (snapshot.Some? ==> m.seqNo > snapshot.value)
  }

  lemma NewsOn(ms: seq<Message>, m: Message, after: int)
    ensures News(ms + [m], Some(after)) ==
            News(ms, Some(after)) + if Notifies(m) && m.seqNo > after then {m} else {}
  {
    hide Notifying;
    assert forall x :: x in ms + [m] <==> x in ms || x == m;
  }

  lemma {:induction false} NewsAreCounted(ms: seq<Message>, after: int)
    requires Numbered(ms)
    ensures |Notifying(ms, after)| == |News(ms, Some(after))|
  {
    if ms != [] {
      var others, last := ms[..|ms| - 1], ms[|ms| - 1];
      assert last !in others;
      NewsAreCounted(others, after);
      assert ms == others + [last];
      NewsOn(others, last, after);
      assert last !in News(others, Some(after));
    }
  }

  /** A reply passes exactly when nothing the runtime is to hear of came after its
      snapshot; a reply that is held is shown the newest of exactly what did. */
  lemma HeldIffNewer(ms: seq<Message>, snapshot: Option<int>)
    requires Numbered(ms)
    ensures var f := Freshen(ms, snapshot);
            && (f.Pass? <==> News(ms, snapshot) == {})
            && (f.Hold? ==> f.total == |News(ms, snapshot)| && (snapshot.Some? ==> snapshot.value < f.current))
            && (f.Hold? ==> |f.messages| == (if f.total <= SHOWN_NEWER then f.total else SHOWN_NEWER))
            && (f.Hold? ==> f.messages != [] && f.messages[|f.messages| - 1].seqNo == f.current)
            && (f.Hold? ==> forall m :: m in f.messages ==> m in News(ms, snapshot))
  {
    assert forall m :: m in ms ==> m.seqNo > 0;
    LatestNotifyingIsLatest(ms);
    NotifyingAbove(ms, 0);
    var after := if snapshot.Some? then snapshot.value else 0;
    NotifyingAbove(ms, after);
    NewsAreCounted(ms, after);
    assert News(ms, snapshot) == News(ms, Some(after));
    hide Notifying, LatestNotifying;
    if Freshen(ms, snapshot).Hold? {
      SameNewest(ms, after);
    }
  }

  /** The recheck contradicts itself exactly for a negative snapshot of a conversation
      with no news at all. */
  lemma RecheckAgreesIff(ms: seq<Message>, expected: int)
    requires Numbered(ms)
    ensures Materialize(ms, expected) == None <==> expected < 0 && News(ms, None) == {}
    ensures Materialize(ms, expected) == Some(true) <==> News(ms, Some(expected)) != {}
  {
    HeldIffNewer(ms, Some(expected));
    LatestNotifyingIsLatest(ms);
    NotifyingAbove(ms, 0);
    hide Notifying, LatestNotifying, Freshen;
    if LatestNotifying(ms) > 0 {
      var m :| m in ms && Notifies(m) && m.seqNo == LatestNotifying(ms);
      assert m in News(ms, None);
      assert LatestNotifying(ms) > expected ==> m in News(ms, Some(expected));
    } else {
      forall m | m in ms ensures !Notifies(m) {
        assert m in ms && Notifies(m) && m.seqNo > 0 ==> m in Notifying(ms, 0);
      }
    }
  }

  /** A reply that passes with a check's snapshot was written knowing everything: all
      the runtime is to hear of has been handed out. */
  lemma PassedIsInformed(s: State, id: nat, snapshot: int)
    requires Sound(s) && id in s.threads && Exact(s, id)
    requires snapshot <= s.threads[id].cursor && Freshen(s.threads[id].messages, Some(snapshot)).Pass?
    ensures Given(s.log, id) == Notifying(s.threads[id].messages, 0)
  {
    var t := s.threads[id];
    assert Unread(t) != [] ==> Unread(t)[0] in Unread(t);
    HeldIffNewer(t.messages, Some(snapshot));
    NotifyingAbove(t.messages, t.cursor);
  }
}
