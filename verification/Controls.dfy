/** The server's `Controls`, each method one stretch of a task between two
    suspension points, tied to the step it is. */
module Controls {
  import opened Wrappers
  import opened PollBatches
  import opened ControlSteps

  datatype Update = Update(id: nat, request: string)

  /** What ended the wait of an `ask`. */
  datatype Ending = Done | TimedOut | Cancelled

  class Controls {
    /** Every request made, by update id: the objects the source's dictionaries and
        suspended tasks hold on to. */
    var made: map<nat, Asked>
    var asked: set<Entry>
    var inFlight: map<Key, nat>
    var lastId: nat
    var closing: bool

    ghost var askers: map<nat, nat>
    ghost var polls: map<nat, Poll>
    ghost var callbacks: set<nat>
    ghost var reported: map<nat, Response>

    ghost function View(): State
      reads this
    {
      State(made, asked, inFlight, lastId, closing, askers, polls, callbacks, reported)
    }

    ghost predicate Valid()
      reads this
    {
      View().Sound()
    }

    constructor ()
      ensures Valid() && View() == Start
    {
      made, asked, inFlight, lastId, closing := map[], {}, map[], 0, false;
      askers, polls, callbacks, reported := map[], map[], {}, map[];
    }

    /** `ask` up to its wait. */
    method Ask(computer: Computer, request: string, clock: nat, ghost asker: nat) returns (id: nat)
      requires Valid() && asker !in askers
      modifies this
      ensures Valid() && View() == ControlSteps.Ask(old(View()), Key(computer, request), clock, asker)
      ensures id == AskId(old(View()), Key(computer, request), clock)
      ensures id in made && made[id].key == Key(computer, request)
    {
      var key := Key(computer, request);
      assert key in inFlight ==> inFlight[key] in made && made[inFlight[key]].key == key;
      hide State.Sound;
      AskKeeps(View(), key, clock, asker);
      if key in inFlight {
        id := inFlight[key];
      } else {
        id := List(key, clock);
      }
      made := made[id := made[id].(waiters := made[id].waiters + 1)];
      askers := askers[asker := id];
    }

    /** The part of `ask` that lists a request nobody has out. */
    method List(key: Key, clock: nat) returns (id: nat)
      modifies this`lastId, this`made, this`inFlight, this`asked, this`polls
      ensures View() == NewRequest(old(View()), key, clock) && id == lastId
    {
      id := if lastId + 1 < clock then clock else lastId + 1;
      lastId := id;
      made := made[id := Asked(key, 0, None)];
      inFlight := inFlight[key := id];
      asked := asked + {Entry(key.computer, id)};
      polls := Woken(polls, key.computer);
    }

    /** `_forget`. */
    method Forget(id: nat)
      requires id in made
      modifies this`inFlight, this`asked
      ensures View() == ControlSteps.Forget(old(View()), id)
    {
      var key := made[id].key;
      if key in inFlight && inFlight[key] == id {
        inFlight := inFlight - {key};
      }
      asked := asked - {Entry(key.computer, id)};
    }

    /** One waiter fewer. */
    method Leave(id: nat, ghost asker: nat)
      requires PartOf(View(), asker) && askers[asker] == id
      modifies this`made, this`askers
      ensures View() == Part(old(View()), asker)
    {
      made := made[id := made[id].(waiters := made[id].waiters - 1)];
      askers := askers - {asker};
    }

    /** `ask` after its wait. */
    method EndAsk(id: nat, ending: Ending, ghost asker: nat) returns (answer: Option<Response>)
      requires Valid() && asker in askers && askers[asker] == id
      requires ending == Done ==> id in made && made[id].answer.Some?
      modifies this`made, this`askers, this`asked, this`inFlight
      ensures PartOf(old(View()), asker)
      ensures Valid() && View() == ControlSteps.EndAsk(old(View()), asker)
      ensures answer == if ending == Done then AnswerFor(old(View()), asker) else None
      ensures ending == Done ==> id in reported && answer == Some(reported[id])
    {
      PartKeeps(View(), asker);
      assert ending == Done ==> id in reported && made[id].answer == Some(reported[id]);
      hide State.Sound, Part, ControlSteps.Forget;
      answer := if ending == Done then made[id].answer else None;
      Leave(id, asker);
      if made[id].waiters == 0 && made[id].answer.None? {
        Forget(id);
      }
    }

    /** `answered`. */
    method Report(computer: Computer, id: nat, response: Response)
      requires Valid()
      modifies this`made, this`callbacks, this`reported
      ensures Valid() && View() == ControlSteps.Report(old(View()), computer, id, response)
    {
      assert Entry(computer, id) in asked ==> id in made;
      hide State.Sound;
      ReportKeeps(View(), computer, id, response);
      if Entry(computer, id) in asked && made[id].answer.None? {
        made := made[id := made[id].(answer := Some(response))];
        callbacks := callbacks + {id};
        reported := reported[id := response];
      }
    }

    /** The done-callback of an answered request. */
    method Callback(id: nat)
      requires Valid() && id in callbacks
      modifies this`asked, this`inFlight, this`callbacks
      ensures id in made && Valid() && View() == ControlSteps.Callback(old(View()), id)
    {
      CallbackKeeps(View(), id);
      Forget(id);
      callbacks := callbacks - {id};
    }

    /** `_pending`. */
    method Pending(computer: Computer, after: nat) returns (updates: seq<Update>)
      requires Valid()
      ensures Lists(View(), computer, after, updates)
    {
      var ids := set e | e in asked && e.computer == computer :: e.id;
      var batch := Batch(ids, after);
      BatchIsPrefix(ids, after);
      updates := [];
      for i := 0 to |batch|
        invariant |updates| == i
        invariant forall j :: 0 <= j < i ==>
                    batch[j] in made && updates[j] == Update(batch[j], made[batch[j]].key.request)
      {
        assert batch[i] in ids;
        updates := updates + [Update(batch[i], made[batch[i]].key.request)];
      }
    }

    /** `updates` up to its wait: nothing is returned when the poll is held. */
    method BeginPoll(computer: Computer, after: nat, ghost poll: nat) returns (updates: Option<seq<Update>>)
      requires Valid() && poll !in polls
      modifies this`polls
      ensures Valid() && View() == ControlSteps.BeginPoll(old(View()), computer, after, poll)
      ensures updates.Some? <==> Ready(View(), computer, after)
      ensures updates.Some? ==> Lists(View(), computer, after, updates.value)
    {
      BeginPollKeeps(View(), computer, after, poll);
      var pending := Pending(computer, after);
      if pending == [] && !closing {
        polls := polls[poll := Poll(computer, after, false)];
        return None;
      }
      return Some(pending);
    }

    /** `updates` after its wait; only a poll that was woken looks again. */
    method EndPoll(computer: Computer, after: nat, timedOut: bool, ghost poll: nat) returns (updates: seq<Update>)
      requires Valid() && poll in polls
      requires polls[poll].computer == computer && polls[poll].after == after
      requires !timedOut ==> polls[poll].notified
      modifies this`polls
      ensures Valid() && View() == ControlSteps.EndPoll(old(View()), poll)
      ensures if timedOut || closing then updates == [] else Lists(View(), computer, after, updates)
    {
      PollsKeep(View(), ControlSteps.EndPoll(View(), poll));
      polls := polls - {poll};
      if timedOut || closing {
        return [];
      }
      updates := Pending(computer, after);
    }

    /** `close`: every held poll is let go. */
    method Close()
      requires Valid()
      modifies this`closing, this`polls
      ensures Valid() && View() == ControlSteps.Close(old(View()))
    {
      PollsKeep(View(), ControlSteps.Close(View()));
      closing := true;
      polls := map p | p in polls :: polls[p].(notified := true);
    }
  }

  /** A list of updates says what the batch of a computer holds. */
  ghost predicate Lists(s: State, computer: Computer, after: nat, updates: seq<Update>) {
    var batch := Batch(s.IdsOf(computer), after);
    && |updates| == |batch|
    && forall i :: 0 <= i < |batch| ==>
         batch[i] in s.made && updates[i] == Update(batch[i], s.made[batch[i]].key.request)
  }
}
