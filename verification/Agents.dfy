/** The part of the source's `NodeApplication` that changes agents, each method one
    stretch between two places where its task may be parked, tied to the step it is. */
module Agents {
  import opened Wrappers
  import opened AgentSteps

  class NodeApplication {
    var configuration: map<nat, Cfg>
    var agents: map<nat, nat>
    /** Every `AgentApplication` made, by a number of its own. */
    var instances: map<nat, Instance>
    var starting: map<nat, nat>
    var results: map<nat, bool>

    ghost var starts: map<nat, Start>
    ghost var stops: map<nat, Stop>

    ghost function View(): State
      reads this
    {
      State(configuration, agents, instances, starting, starts, stops, results)
    }

    ghost predicate Valid()
      reads this
    {
      View().Sound()
    }

    /** A node whose agents have been started, of which some came up. */
    constructor (configuration: map<nat, Cfg>, came: set<nat>)
      requires Bootable(configuration, came)
      ensures Valid() && View() == Boot(configuration, came)
    {
      this.configuration, agents := configuration, map a | a in came :: a;
      instances := map a | a in came :: Instance(a, configuration[a], Up, false);
      starting, results := map[], map a | a in configuration :: a in came;
      starts, stops := map[], map[];
      new;
      BootIsSound(configuration, came);
    }

    /** `write_agent`: an agent without an id is new and is given one; another must be
        configured. */
    method WriteAgent(a: Option<nat>, newId: nat, cfg: Cfg, ease: Ease, task: nat) returns (outcome: Outcome)
      requires Valid() && newId !in agents && task !in starts && task !in stops
      modifies this
      ensures Valid() && View() == if a.Some? then Update(old(View()), a.value, cfg, ease, task)
                                   else Add(old(View()), newId, cfg, ease, task)
      ensures outcome == if a.Some? then UpdateOutcome(old(View()), a.value, cfg, ease)
                         else AddOutcome(old(View()), newId, cfg, ease)
      ensures outcome != Done ==> View() == old(View())
    {
      if a.Some? && a.value !in configuration {
        UpdateKeeps(View(), a.value, cfg, ease, task);
        return NotConfigured;
      }
      if a.Some? {
        outcome := UpdateAgent(a.value, cfg, ease, task);
      } else {
        outcome := AddAgent(newId, cfg, ease, task);
      }
    }

    /** `add_agent`, up to its answer. */
    method AddAgent(a: nat, cfg: Cfg, ease: Ease, task: nat) returns (outcome: Outcome)
      requires Valid() && a !in agents && task !in starts
      modifies this
      ensures Valid() && View() == Add(old(View()), a, cfg, ease, task)
      ensures outcome == AddOutcome(old(View()), a, cfg, ease)
    {
      hide State.Sound;
      AddKeeps(View(), a, cfg, ease, task);
      if a in configuration {
        return Invalid;
      }
      var free := CheckName(a, cfg);
      if !free || !ease.valid {
        return Invalid;
      }
      if !ease.written {
        return NotWritten;
      }
      configuration := configuration[a := cfg];
      BringUp(a, cfg, task);
      outcome := Done;
    }

    /** `_check_agents`. */
    method CheckName(a: nat, cfg: Cfg) returns (free: bool)
      ensures free <==> NameFree(View(), a, cfg)
    {
      free := forall b | b in configuration :: b != a ==> configuration[b].name != cfg.name;
    }

    /** `_bring_up` without waiting. */
    method BringUp(a: nat, cfg: Cfg, task: nat)
      modifies this`starting, this`starts
      ensures View() == AgentSteps.BringUp(old(View()), a, cfg, task)
    {
      starting := starting[a := task];
      starts := starts[task := Start(a, cfg, Loading)];
    }

    /** `update_agent`, up to its answer or the stop it waits for. */
    method UpdateAgent(a: nat, cfg: Cfg, ease: Ease, task: nat) returns (outcome: Outcome)
      requires Valid() && task !in starts && task !in stops
      modifies this
      ensures Valid() && View() == Update(old(View()), a, cfg, ease, task)
      ensures outcome == UpdateOutcome(old(View()), a, cfg, ease)
    {
      assert a in agents ==> agents[a] in instances;
      hide State.Sound;
      UpdateKeeps(View(), a, cfg, ease, task);
      if a !in configuration {
        return NotConfigured;
      }
      if a in starting || (a in agents && instances[agents[a]].life != Up) {
        return Refused;
      }
      var free := CheckName(a, cfg);
      if !free || !ease.valid {
        return Invalid;
      }
      if !ease.written {
        return NotWritten;
      }
      configuration := configuration[a := cfg];
      if a in agents {
        BeginStop(a, Some(cfg), task);
      } else {
        results := results - {a};
        BringUp(a, cfg, task);
      }
      outcome := Done;
    }

    /** `_stop_agent` up to its wait: the turn to terminated is taken first. */
    method BeginStop(a: nat, next: Option<Cfg>, op: nat)
      requires a in agents && agents[a] in instances
      modifies this`instances, this`results, this`stops
      ensures View() == AgentSteps.BeginStop(old(View()), a, next, op)
    {
      var i := agents[a];
      results := results - {a};
      instances := instances[i := instances[i].(life := Terminated)];
      stops := stops[op := Stop(a, i, next)];
    }

    /** `remove_agent`, up to the stop it waits for. */
    method RemoveAgent(a: nat, ease: Ease, op: nat) returns (outcome: Outcome)
      requires Valid() && op !in stops
      modifies this
      ensures Valid() && View() == Remove(old(View()), a, ease, op)
      ensures outcome == RemoveOutcome(old(View()), a, ease)
    {
      assert a in agents ==> agents[a] in instances;
      hide State.Sound;
      RemoveKeeps(View(), a, ease, op);
      if a !in configuration {
        return NotConfigured;
      }
      if a in starting || (a in agents && instances[agents[a]].life != Up) {
        return Refused;
      }
      if !ease.written {
        return NotWritten;
      }
      configuration := configuration - {a};
      if a in agents {
        BeginStop(a, None, op);
      } else {
        results := results - {a};
      }
      outcome := Done;
    }

    /** `_stop_agent` after its wait, and what the change does next. */
    method EndStop(a: nat, i: nat, next: Option<Cfg>, op: nat, cancelled: bool, task: nat)
      requires Valid() && op in stops && stops[op] == Stop(a, i, next) && task !in starts
      modifies this
      ensures i in old(instances)
      ensures Valid() && View() == Stopped(old(View()), op, cancelled, task)
      ensures a !in agents && instances[i].over
      ensures next.Some? && !cancelled ==>
                a in starting && starting[a] == task && task in starts && starts[task] == Start(a, next.value, Loading)
    {
      hide State.Sound;
      StoppedKeeps(View(), op, cancelled, task);
      agents := agents - {a};
      instances := instances[i := instances[i].(over := true)];
      stops := stops - {op};
      if next.Some? && !cancelled {
        BringUp(a, next.value, task);
      }
    }

    /** `_start_agent` once its adapters are loaded: the instance is made, and listed. */
    method OnLoaded(a: nat, cfg: Cfg, task: nat, i: nat)
      requires Valid() && task in starts && starts[task] == Start(a, cfg, Loading) && i !in instances
      modifies this
      ensures Valid() && View() == Loaded(old(View()), task, i)
    {
      hide State.Sound;
      LoadedKeeps(View(), task, i);
      instances := instances[i := Instance(a, cfg, Init, false)];
      agents := agents[a := i];
      starts := starts[task := Start(a, cfg, ComingUp(i))];
    }

    /** The instance has come up. */
    method OnUp(a: nat, cfg: Cfg, task: nat, i: nat)
      requires Valid() && task in starts && starts[task] == Start(a, cfg, ComingUp(i))
      modifies this
      ensures i in old(instances)
      ensures Valid() && View() == CameUp(old(View()), task, i)
      ensures instances[i].life == Up && a in agents && agents[a] == i && a in configuration && configuration[a] == cfg
    {
      CameUpKeeps(View(), task, i);
      StartFacts(View(), task);
      instances := instances[i := instances[i].(life := Up)];
      results := results[a := true];
      starts := starts[task := Start(a, cfg, Announcing)];
      SoundIsListed(View());
    }

    /** The adapters could not be loaded, or the start was cancelled before they were. */
    method OnNotLoaded(a: nat, cfg: Cfg, task: nat, cancelled: bool)
      requires Valid() && task in starts && starts[task] == Start(a, cfg, Loading)
      modifies this`results, this`starting, this`starts
      ensures Valid() && View() == Failed(old(View()), task, cancelled)
    {
      hide State.Sound;
      NotLoadedKeeps(View(), task, cancelled);
      EndFailed(a, task, cancelled);
    }

    /** What the end of a failed start changes. */
    method EndFailed(a: nat, task: nat, cancelled: bool)
      requires task in starts && starts[task].agent == a
      modifies this`results, this`starting, this`starts
      ensures View() == Failed(old(View()), task, cancelled)
    {
      if cancelled {
        starting, starts := starting - {a}, starts - {task};
      } else {
        results := results[a := false];
        starts := starts[task := starts[task].(phase := Announcing)];
      }
    }

    /** The instance takes down what it had set up, still on the list. */
    method OnUnwind(a: nat, cfg: Cfg, task: nat, i: nat)
      requires Valid() && task in starts && starts[task] == Start(a, cfg, ComingUp(i))
      modifies this`instances, this`starts
      ensures i in old(instances)
      ensures Valid() && View() == Unwind(old(View()), task, i)
    {
      hide State.Sound;
      UnwindKeeps(View(), task, i);
      instances := instances[i := instances[i].(life := Terminated)];
      starts := starts[task := Start(a, cfg, Unwinding(i))];
    }

    /** The clean-up of a failed start is over. */
    method OnCleaned(a: nat, cfg: Cfg, task: nat, i: nat, cancelled: bool)
      requires Valid() && task in starts && starts[task] == Start(a, cfg, Cleaning(i, cancelled))
      modifies this`instances, this`results, this`starting, this`starts
      ensures i in old(instances)
      ensures Valid() && View() == Cleaned(old(View()), task, i, cancelled)
    {
      hide State.Sound;
      CleanedKeeps(View(), task, i, cancelled);
      instances := instances[i := instances[i].(over := true)];
      EndFailed(a, task, cancelled);
    }

    /** The start has failed: the instance goes off the list, and is stopped. */
    method OnFailure(a: nat, cfg: Cfg, task: nat, i: nat, cancelled: bool)
      requires Valid() && task in starts &&
          (starts[task] == Start(a, cfg, ComingUp(i)) || starts[task] == Start(a, cfg, Unwinding(i)))
      modifies this
      ensures i in old(instances)
      ensures Valid() && View() == Delist(old(View()), task, i, cancelled)
    {
      hide State.Sound;
      DelistKeeps(View(), task, i, cancelled);
      agents := agents - {a};
      instances := instances[i := instances[i].(life := Terminated)];
      starts := starts[task := Start(a, cfg, Cleaning(i, cancelled))];
    }

    /** The end of a start that was left for later. */
    method EndBringUp(a: nat, task: nat)
      requires Valid() && task in starts && starts[task].agent == a && starts[task].phase == Announcing
      modifies this
      ensures Valid() && View() == EndStart(old(View()), task)
      ensures a !in starting
    {
      hide State.Sound;
      EndStartKeeps(View(), task);
      starting := starting - {a};
      starts := starts - {task};
    }
  }
}
