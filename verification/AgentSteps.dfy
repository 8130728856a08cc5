/** Agents added, changed and let go while a node runs, as steps on a value.

    A change is checked, written down and begun in one stretch; the stop it waits
    for and the start it leaves for later come in between other changes, in any
    order. */
module AgentSteps {
  import opened Wrappers

  /** What is written down for an agent. */
  datatype Cfg = Cfg(name: string, text: string)

  /** The lifecycle of one instance, of which an agent may have several in turn. */
  datatype Life = Init | Up | Terminated

  /** `over`: its stop, or the clean-up of its start, has run to the end. */
  datatype Instance = Instance(agent: nat, cfg: Cfg, life: Life, over: bool)

  /** How far the start of an agent has come. */
  datatype Phase =
    | Loading
    | ComingUp(instance: nat)
    | Unwinding(instance: nat)
    | Cleaning(instance: nat, cancelled: bool)
    | Announcing

  datatype Start = Start(agent: nat, cfg: Cfg, phase: Phase)

  /** A change waiting for an instance to stop, and what is to come up after it. */
  datatype Stop = Stop(agent: nat, instance: nat, next: Option<Cfg>)

  /** `results`: how the last start of an agent ended, true for started. */
  datatype State = State(
    config: map<nat, Cfg>,
    agents: map<nat, nat>,
    instances: map<nat, Instance>,
    starting: map<nat, nat>,
    starts: map<nat, Start>,
    stops: map<nat, Stop>,
    results: map<nat, bool>)
  {
    /** Names are not shared. */
    ghost predicate Written() {
      forall a, b :: a in config && b in config && a != b ==> config[a].name != config[b].name
    }

    /** Each start under way is on record under its agent, and starts what is written. */
    ghost predicate StartsAgree() {
      && (forall a :: a in starting ==> starting[a] in starts && starts[starting[a]].agent == a)
      && (forall t :: t in starts ==>
            && starts[t].agent in starting && starting[starts[t].agent] == t
            && starts[t].agent in config && config[starts[t].agent] == starts[t].cfg)
    }

    /** Whether an instance is the one a start is about. */
    ghost predicate Fits(t: Start) {
      match t.phase
      case Loading => t.agent !in agents
      case ComingUp(i) =>
        i in instances && instances[i] == Instance(t.agent, t.cfg, Init, false) && t.agent in agents &&
            agents[t.agent] == i
      case Unwinding(i) =>
        i in instances && instances[i] == Instance(t.agent, t.cfg, Terminated, false) && t.agent in agents &&
            agents[t.agent] == i
      case Cleaning(i, _) =>
        i in instances && instances[i] == Instance(t.agent, t.cfg, Terminated, false) && t.agent !in agents
      case Announcing =>
        t.agent in agents ==> agents[t.agent] in instances && instances[agents[t.agent]].life == Up
    }

    ghost predicate PhasesAgree() {
      forall t :: t in starts ==> Fits(starts[t])
    }

    /** A change that waits holds the listed instance, and is the only one of its
        agent; what it left written is still written. */
    ghost predicate StopsAgree() {
      && (forall o :: o in stops ==>
            && stops[o].agent in agents && agents[stops[o].agent] == stops[o].instance
            && stops[o].instance in instances && instances[stops[o].instance].life == Terminated
            && stops[o].agent !in starting
            && (if stops[o].next.Some? then stops[o].agent in config && config[stops[o].agent] == stops[o].next.value
                else stops[o].agent !in config))
      && (forall o, p :: o in stops && p in stops && stops[o].agent == stops[p].agent ==> o == p)
    }

    /** An instance that is not over is the listed one of its agent, or is being cleaned
        up by its start. */
    ghost predicate Held(i: nat)
      requires i in instances
    {
      var a := instances[i].agent;
      if a in agents then agents[a] == i
      else
        a in starting && starting[a] in starts
        && starts[starting[a]].phase.Cleaning? && starts[starting[a]].phase.instance == i
    }

    ghost predicate InstancesAgree() {
      && (forall a :: a in agents ==>
          agents[a] in instances && instances[agents[a]].agent == a && !instances[agents[a]].over)
      && (forall i :: i in instances && !instances[i].over ==> Held(i))
      && (forall i :: i in instances && !instances[i].over && instances[i].life != Terminated ==>
            instances[i].agent in config && config[instances[i].agent] == instances[i].cfg)
    }

    /** An agent that is listed, not starting and not up has a change waiting for it. */
    ghost predicate Waited() {
      forall a :: a in agents && a !in starting && agents[a] in instances && instances[agents[a]].life != Up ==>
        exists o :: o in stops && stops[o].agent == a
    }

    ghost predicate Sound() {
      Written() && StartsAgree() && PhasesAgree() && StopsAgree() && InstancesAgree() && Waited()
    }
  }

  // ---- changes ----

  datatype Outcome = Done | NotConfigured | Refused | Invalid | NotWritten

  /** `_settled`: neither starting nor on its way out. */
  predicate Settled(s: State, a: nat) {
    && a !in s.starting
    && (a in s.agents && s.agents[a] in s.instances ==> s.instances[s.agents[a]].life == Up)
  }

  /** `_check_agents`: no two agents share a name. */
  predicate NameFree(s: State, a: nat, cfg: Cfg) {
    forall b :: b in s.config && b != a ==> s.config[b].name != cfg.name
  }

  /** `_bring_up`, left for after the answer. */
  function BringUp(s: State, a: nat, cfg: Cfg, task: nat): State {
    s.(starting := s.starting[a := task], starts := s.starts[task := Start(a, cfg, Loading)])
  }

  /** `_stop_agent` up to its wait, when there is an instance to stop. */
  function BeginStop(s: State, a: nat, next: Option<Cfg>, op: nat): State
    requires a in s.agents && s.agents[a] in s.instances
  {
    var i := s.agents[a];
    s.(instances := s.instances[i := s.instances[i].(life := Terminated)],
       stops := s.stops[op := Stop(a, i, next)],
       results := s.results - {a})
  }

  /** What became of a request: `valid`, whether its credentials can be kept;
      `written`, whether the file took the change. */
  datatype Ease = Ease(valid: bool, written: bool)

  function AddOutcome(s: State, a: nat, cfg: Cfg, ease: Ease): Outcome {
    if a in s.config || !NameFree(s, a, cfg) || !ease.valid then Invalid
    else if !ease.written then NotWritten else Done
  }

  /** `add_agent` up to its answer. */
  function Add(s: State, a: nat, cfg: Cfg, ease: Ease, task: nat): State {
    if AddOutcome(s, a, cfg, ease) != Done then s
    else BringUp(s.(config := s.config[a := cfg]), a, cfg, task)
  }

  function UpdateOutcome(s: State, a: nat, cfg: Cfg, ease: Ease): Outcome {
    if a !in s.config then NotConfigured
    else if !Settled(s, a) then Refused
    else if !NameFree(s, a, cfg) || !ease.valid then Invalid
    else if !ease.written then NotWritten else Done
  }

  /** `update_agent` up to its answer, or to the stop it waits for. */
  function Update(s: State, a: nat, cfg: Cfg, ease: Ease, task: nat): State {
    if UpdateOutcome(s, a, cfg, ease) != Done then s
    else
      var written := s.(config := s.config[a := cfg]);
      if a in s.agents && s.agents[a] in s.instances then BeginStop(written, a, Some(cfg), task)
      else BringUp(written.(results := s.results - {a}), a, cfg, task)
  }

  function RemoveOutcome(s: State, a: nat, ease: Ease): Outcome {
    if a !in s.config then NotConfigured
    else if !Settled(s, a) then Refused
    else if !ease.written then NotWritten else Done
  }

  /** `remove_agent` up to the stop it waits for. */
  function Remove(s: State, a: nat, ease: Ease, op: nat): State {
    if RemoveOutcome(s, a, ease) != Done then s
    else
      var written := s.(config := s.config - {a});
      if a in s.agents && s.agents[a] in s.instances then BeginStop(written, a, None, op)
      else written.(results := s.results - {a})
  }

  // ---- what goes on between changes ----

  /** The state once a stop is over. */
  function Rested(s: State, op: nat): State
    requires op in s.stops && s.stops[op].instance in s.instances
  {
    var stop := s.stops[op];
    s.(agents := s.agents - {stop.agent},
       instances := s.instances[stop.instance := s.instances[stop.instance].(over := true)],
       stops := s.stops - {op})
  }

  /** A stop is over; an update that was not cancelled brings up what it wrote. */
  function Stopped(s: State, op: nat, cancelled: bool, task: nat): State
    requires op in s.stops && s.stops[op].instance in s.instances
  {
    var stop := s.stops[op];
    if stop.next.Some? && !cancelled then BringUp(Rested(s, op), stop.agent, stop.next.value, task) else Rested(s, op)
  }

  function Move(s: State, task: nat, phase: Phase): State
    requires task in s.starts
  {
    s.(starts := s.starts[task := s.starts[task].(phase := phase)])
  }

  /** The start is off the record. */
  function EndStart(s: State, task: nat): State
    requires task in s.starts
  {
    s.(starting := s.starting - {s.starts[task].agent}, starts := s.starts - {task})
  }

  /** The adapters are loaded: the instance exists, and is listed. */
  function Loaded(s: State, task: nat, i: nat): State
    requires task in s.starts
  {
    var t := s.starts[task];
    Move(s.(instances := s.instances[i := Instance(t.agent, t.cfg, Init, false)], agents := s.agents[t.agent := i]),
         task, ComingUp(i))
  }

  function CameUp(s: State, task: nat, i: nat): State
    requires task in s.starts && i in s.instances
  {
    Move(s.(instances := s.instances[i := s.instances[i].(life := Up)],
        results := s.results[s.starts[task].agent := true]),
         task, Announcing)
  }

  function Unwind(s: State, task: nat, i: nat): State
    requires task in s.starts && i in s.instances
  {
    Move(s.(instances := s.instances[i := s.instances[i].(life := Terminated)]), task, Unwinding(i))
  }

  /** A start that failed takes its instance off the list before it cleans up. */
  function Delist(s: State, task: nat, i: nat, cancelled: bool): State
    requires task in s.starts && i in s.instances
  {
    Move(s.(instances := s.instances[i := s.instances[i].(life := Terminated)],
            agents := s.agents - {s.starts[task].agent}),
         task, Cleaning(i, cancelled))
  }

  /** The failure is recorded, unless the start was cancelled. */
  function Failed(s: State, task: nat, cancelled: bool): State
    requires task in s.starts
  {
    if cancelled then EndStart(s, task)
    else Move(s.(results := s.results[s.starts[task].agent := false]), task, Announcing)
  }

  function Cleaned(s: State, task: nat, i: nat, cancelled: bool): State
    requires task in s.starts && i in s.instances
  {
    Failed(s.(instances := s.instances[i := s.instances[i].(over := true)]), task, cancelled)
  }

  datatype Step =
    | DoAdd(agent: nat, cfg: Cfg, ease: Ease, task: nat)
    | DoUpdate(agent: nat, cfg: Cfg, ease: Ease, task: nat)
    | DoRemove(agent: nat, ease: Ease, op: nat)
    | DoStopped(op: nat, cancelled: bool, task: nat)
    | DoLoaded(task: nat, instance: nat)
    | DoNotLoaded(task: nat, cancelled: bool)
    | DoCameUp(task: nat)
    | DoUnwind(task: nat)
    | DoDelist(task: nat, cancelled: bool)
    | DoCleaned(task: nat)
    | DoAnnounced(task: nat)

  /** The instance a start is about exists. */
  predicate Exists(s: State, task: nat)
    requires task in s.starts && !s.starts[task].phase.Loading? && !s.starts[task].phase.Announcing?
  {
    s.starts[task].phase.instance in s.instances
  }

  /** What may come next.  Tasks and instances are new objects, and an agent is taken in
      under an id that is not listed, as every new one is. */
  predicate Enabled(s: State, step: Step) {
    match step
    case DoAdd(a, _, _, task) => a !in s.agents && task !in s.starts
    case DoUpdate(_, _, _, task) => task !in s.starts && task !in s.stops
    case DoRemove(_, _, op) => op !in s.stops
    case DoStopped(op, _, task) => op in s.stops && s.stops[op].instance in s.instances && task !in s.starts
    case DoLoaded(task, i) => task in s.starts && s.starts[task].phase.Loading? && i !in s.instances
    case DoNotLoaded(task, _) => task in s.starts && s.starts[task].phase.Loading?
    case DoCameUp(task) => task in s.starts && s.starts[task].phase.ComingUp? && Exists(s, task)
    case DoUnwind(task) => task in s.starts && s.starts[task].phase.ComingUp? && Exists(s, task)
    case DoDelist(task, _) =>
      task in s.starts && (s.starts[task].phase.ComingUp? || s.starts[task].phase.Unwinding?) && Exists(s, task)
    case DoCleaned(task) => task in s.starts && s.starts[task].phase.Cleaning? && Exists(s, task)
    case DoAnnounced(task) => task in s.starts && s.starts[task].phase.Announcing?
  }

  function Next(s: State, step: Step): State {
    if !Enabled(s, step) then s
    else match step
      case DoAdd(a, cfg, ease, task) => Add(s, a, cfg, ease, task)
      case DoUpdate(a, cfg, ease, task) => Update(s, a, cfg, ease, task)
      case DoRemove(a, ease, op) => Remove(s, a, ease, op)
      case DoStopped(op, cancelled, task) => Stopped(s, op, cancelled, task)
      case DoLoaded(task, i) => Loaded(s, task, i)
      case DoNotLoaded(task, cancelled) => Failed(s, task, cancelled)
      case DoCameUp(task) => CameUp(s, task, s.starts[task].phase.instance)
      case DoUnwind(task) => Unwind(s, task, s.starts[task].phase.instance)
      case DoDelist(task, cancelled) => Delist(s, task, s.starts[task].phase.instance, cancelled)
      case DoCleaned(task) => Cleaned(s, task, s.starts[task].phase.instance, s.starts[task].phase.cancelled)
      case DoAnnounced(task) => EndStart(s, task)
  }

  function Run(s: State, steps: seq<Step>): State
    decreases |steps|
  {
    if steps == [] then s else Run(Next(s, steps[0]), steps[1..])
  }

  // ---- what every step keeps ----

  lemma BringUpStarts(s: State, a: nat, cfg: Cfg, task: nat)
    requires s.Written() && s.StartsAgree() && s.PhasesAgree() && a in s.config && s.config[a] == cfg
    requires a !in s.starting && a !in s.agents && task !in s.starts
    ensures var after := BringUp(s, a, cfg, task); after.Written() && after.StartsAgree() && after.PhasesAgree()
  {
    var after := BringUp(s, a, cfg, task);
    forall t | t in after.starts ensures after.Fits(after.starts[t]) {
      if t != task { assert s.Fits(s.starts[t]); }
    }
  }

  lemma BringUpInstances(s: State, a: nat, cfg: Cfg, task: nat)
    requires s.StartsAgree() && s.StopsAgree() && s.InstancesAgree() && s.Waited()
    requires a !in s.starting && a !in s.agents && task !in s.starts
    ensures var after := BringUp(s, a, cfg, task); after.StopsAgree() && after.InstancesAgree() && after.Waited()
  {
    var after := BringUp(s, a, cfg, task);
    forall i | i in after.instances && !after.instances[i].over ensures after.Held(i) {
      assert s.Held(i);
    }
  }

  lemma BringUpKeeps(s: State, a: nat, cfg: Cfg, task: nat)
    requires s.Sound() && a in s.config && s.config[a] == cfg
    requires a !in s.starting && a !in s.agents && task !in s.starts
    ensures BringUp(s, a, cfg, task).Sound()
  {
    hide State.Written, State.StartsAgree, State.PhasesAgree, State.StopsAgree, State.InstancesAgree, State.Waited;
    BringUpStarts(s, a, cfg, task);
    BringUpInstances(s, a, cfg, task);
  }

  lemma AddWrites(s: State, a: nat, cfg: Cfg)
    requires s.Written() && s.StartsAgree() && s.PhasesAgree() && a !in s.config && NameFree(s, a, cfg)
    ensures var after := s.(config := s.config[a := cfg]); after.Written() && after.StartsAgree() && after.PhasesAgree()
  {
    var after := s.(config := s.config[a := cfg]);
    forall t | t in s.starts ensures after.Fits(s.starts[t]) {
      assert s.Fits(s.starts[t]);
    }
  }

  lemma AddInstances(s: State, a: nat, cfg: Cfg)
    requires s.StopsAgree() && s.InstancesAgree() && s.Waited() && a !in s.agents && a !in s.starting && a !in s.config
    ensures var after := s.(config := s.config[a := cfg]);
            after.StopsAgree() && after.InstancesAgree() && after.Waited()
  {
    var after := s.(config := s.config[a := cfg]);
    forall i | i in s.instances && !s.instances[i].over ensures after.Held(i) {
      assert s.Held(i);
    }
  }

  lemma AddWritten(s: State, a: nat, cfg: Cfg)
    requires s.Sound() && a !in s.agents && a !in s.config && NameFree(s, a, cfg)
    ensures a !in s.starting && s.(config := s.config[a := cfg]).Sound()
  {
    assert a !in s.starting;
    hide State.Written, State.StartsAgree, State.PhasesAgree, State.StopsAgree, State.InstancesAgree, State.Waited;
    AddWrites(s, a, cfg);
    AddInstances(s, a, cfg);
  }

  /** Taking an agent in keeps the invariant if and only if no instance is listed under
      its id. */
  lemma AddKeepsIff(s: State, a: nat, cfg: Cfg, ease: Ease, task: nat)
    requires s.Sound() && task !in s.starts && AddOutcome(s, a, cfg, ease) == Done
    ensures Add(s, a, cfg, ease, task).Sound() <==> a !in s.agents
  {
    var after := Add(s, a, cfg, ease, task);
    if a in s.agents {
      assert after.starts[task].phase == Loading && !after.Fits(after.starts[task]);
    } else {
      hide State.Written, State.StartsAgree, State.PhasesAgree, State.StopsAgree, State.InstancesAgree, State.Waited;
      AddWritten(s, a, cfg);
      BringUpKeeps(s.(config := s.config[a := cfg]), a, cfg, task);
    }
  }

  lemma AddKeeps(s: State, a: nat, cfg: Cfg, ease: Ease, task: nat)
    requires s.Sound() && a !in s.agents && task !in s.starts
    ensures Add(s, a, cfg, ease, task).Sound()
  {
    hide State.Sound;
    if AddOutcome(s, a, cfg, ease) == Done {
      AddKeepsIff(s, a, cfg, ease, task);
    }
  }

  /** What is written for agent a, and nothing else, is rewritten; no two names are
      shared after it. */
  ghost predicate Rewritten(s: State, a: nat, config: map<nat, Cfg>) {
    && a in s.config && Settled(s, a)
    && (forall b :: b != a ==> (b in config <==> b in s.config) && (b in config ==> config[b] == s.config[b]))
    && (a in config ==> NameFree(s, a, config[a]))
  }

  lemma WriteStarts(s: State, a: nat, config: map<nat, Cfg>)
    requires s.Written() && s.StartsAgree() && s.PhasesAgree() && Rewritten(s, a, config)
    ensures var after := s.(config := config); after.Written() && after.StartsAgree() && after.PhasesAgree()
  {
    var after := s.(config := config);
    forall t | t in s.starts ensures after.Fits(s.starts[t]) {
      assert s.Fits(s.starts[t]);
    }
  }

  lemma WriteInstances(s: State, a: nat, config: map<nat, Cfg>)
    requires s.StartsAgree() && s.StopsAgree() && s.InstancesAgree() && s.Waited() && Rewritten(s, a, config)
    requires a !in s.agents
    ensures var after := s.(config := config); after.StopsAgree() && after.InstancesAgree() && after.Waited()
  {
    var after := s.(config := config);
    forall i | i in s.instances && !s.instances[i].over ensures after.Held(i) {
      assert s.Held(i);
    }
  }

  lemma WriteKeeps(s: State, a: nat, config: map<nat, Cfg>, results: map<nat, bool>)
    requires s.Sound() && Rewritten(s, a, config) && a !in s.agents
    ensures s.(config := config, results := results).Sound()
  {
    hide State.Written, State.StartsAgree, State.PhasesAgree, State.StopsAgree, State.InstancesAgree, State.Waited;
    WriteStarts(s, a, config);
    WriteInstances(s, a, config);
    ResultsDoNotMatter(s.(config := config), results);
  }

  lemma BeginStopStarts(s: State, a: nat, next: Option<Cfg>, config: map<nat, Cfg>, op: nat)
    requires s.Written() && s.StartsAgree() && s.PhasesAgree() && s.InstancesAgree()
    requires Rewritten(s, a, config) && a in s.agents
    ensures var after := BeginStop(s.(config := config), a, next, op);
            after.Written() && after.StartsAgree() && after.PhasesAgree()
  {
    var after := BeginStop(s.(config := config), a, next, op);
    forall t | t in s.starts ensures after.Fits(s.starts[t]) {
      assert s.Fits(s.starts[t]);
    }
  }

  lemma BeginStopStops(s: State, a: nat, next: Option<Cfg>, config: map<nat, Cfg>, op: nat)
    requires s.StopsAgree() && s.InstancesAgree()
    requires Rewritten(s, a, config) && a in s.agents && op !in s.stops
    requires (a in config <==> next.Some?) && (next.Some? ==> config[a] == next.value)
    ensures BeginStop(s.(config := config), a, next, op).StopsAgree()
  {
  }

  lemma BeginStopWaited(s: State, a: nat, next: Option<Cfg>, config: map<nat, Cfg>, op: nat)
    requires s.InstancesAgree() && s.Waited() && Rewritten(s, a, config) && a in s.agents && op !in s.stops
    ensures BeginStop(s.(config := config), a, next, op).Waited()
  {
    var after := BeginStop(s.(config := config), a, next, op);
    assert op in after.stops && after.stops[op].agent == a;
    forall b | b in s.agents && b != a && b !in s.starting && s.instances[s.agents[b]].life != Up
      ensures exists o :: o in after.stops && after.stops[o].agent == b
    {
      var o :| o in s.stops && s.stops[o].agent == b;
      assert o in after.stops && after.stops[o].agent == b;
    }
  }

  lemma BeginStopInstances(s: State, a: nat, next: Option<Cfg>, config: map<nat, Cfg>, op: nat)
    requires s.InstancesAgree() && Rewritten(s, a, config) && a in s.agents
    ensures BeginStop(s.(config := config), a, next, op).InstancesAgree()
  {
    var after := BeginStop(s.(config := config), a, next, op);
    forall i | i in after.instances && !after.instances[i].over ensures after.Held(i) {
      assert s.Held(i);
    }
  }

  lemma BeginStopKeeps(s: State, a: nat, next: Option<Cfg>, config: map<nat, Cfg>, op: nat)
    requires s.Sound() && Rewritten(s, a, config) && a in s.agents && op !in s.stops
    requires (a in config <==> next.Some?) && (next.Some? ==> config[a] == next.value)
    ensures s.agents[a] in s.instances && BeginStop(s.(config := config), a, next, op).Sound()
  {
    assert s.agents[a] in s.instances;
    hide State.Written, State.StartsAgree, State.PhasesAgree, State.StopsAgree, State.InstancesAgree, State.Waited;
    BeginStopStarts(s, a, next, config, op);
    BeginStopStops(s, a, next, config, op);
    BeginStopWaited(s, a, next, config, op);
    BeginStopInstances(s, a, next, config, op);
  }

  lemma UpdateKeeps(s: State, a: nat, cfg: Cfg, ease: Ease, task: nat)
    requires s.Sound() && task !in s.starts && task !in s.stops
    ensures Update(s, a, cfg, ease, task).Sound()
  {
    if UpdateOutcome(s, a, cfg, ease) == Done {
      if a in s.agents {
        BeginStopKeeps(s, a, Some(cfg), s.config[a := cfg], task);
      } else {
        WriteKeeps(s, a, s.config[a := cfg], s.results - {a});
        BringUpKeeps(s.(config := s.config[a := cfg], results := s.results - {a}), a, cfg, task);
      }
    }
  }

  lemma RemoveKeeps(s: State, a: nat, ease: Ease, op: nat)
    requires s.Sound() && op !in s.stops
    ensures Remove(s, a, ease, op).Sound()
  {
    if RemoveOutcome(s, a, ease) == Done {
      if a in s.agents {
        BeginStopKeeps(s, a, None, s.config - {a}, op);
      } else {
        WriteKeeps(s, a, s.config - {a}, s.results - {a});
      }
    }
  }

  lemma RestedStarts(s: State, op: nat)
    requires s.Written() && s.StartsAgree() && s.PhasesAgree() && s.StopsAgree() && s.InstancesAgree() && op in s.stops
    ensures var after := Rested(s, op); after.Written() && after.StartsAgree() && after.PhasesAgree()
  {
    var after := Rested(s, op);
    forall t | t in s.starts ensures after.Fits(s.starts[t]) {
      assert s.Fits(s.starts[t]);
    }
  }

  lemma RestedStops(s: State, op: nat)
    requires s.StopsAgree() && s.InstancesAgree() && op in s.stops
    ensures Rested(s, op).StopsAgree()
  {
  }

  lemma RestedWaited(s: State, op: nat)
    requires s.StopsAgree() && s.InstancesAgree() && s.Waited() && op in s.stops
    ensures Rested(s, op).Waited()
  {
    var after := Rested(s, op);
    forall b | b in after.agents && b !in s.starting && s.instances[s.agents[b]].life != Up
      ensures exists o :: o in after.stops && after.stops[o].agent == b
    {
      var o :| o in s.stops && s.stops[o].agent == b;
      assert o in after.stops && after.stops[o].agent == b;
    }
  }

  lemma RestedInstances(s: State, op: nat)
    requires s.StopsAgree() && s.InstancesAgree() && op in s.stops
    ensures Rested(s, op).InstancesAgree()
  {
    var after := Rested(s, op);
    forall i | i in after.instances && !after.instances[i].over ensures after.Held(i) {
      assert s.Held(i);
    }
  }

  lemma StoppedKeeps(s: State, op: nat, cancelled: bool, task: nat)
    requires s.Sound() && op in s.stops && task !in s.starts
    ensures s.stops[op].instance in s.instances && Stopped(s, op, cancelled, task).Sound()
  {
    var stop := s.stops[op];
    assert stop.instance in s.instances && stop.agent in s.agents && stop.agent !in s.starting;
    assert stop.next.Some? ==> stop.agent in s.config && s.config[stop.agent] == stop.next.value;
    hide State.Written, State.StartsAgree, State.PhasesAgree, State.StopsAgree, State.InstancesAgree, State.Waited;
    RestedStarts(s, op);
    RestedStops(s, op);
    RestedWaited(s, op);
    RestedInstances(s, op);
    if stop.next.Some? && !cancelled {
      BringUpKeeps(Rested(s, op), stop.agent, stop.next.value, task);
    }
  }

  /** A step of a start: it touches its own phase, its agent's place on the list, and
      its instance i. */
  ghost predicate Touched(s: State, after: State, task: nat, i: nat) {
    && task in s.starts && task in after.starts && i in after.instances
    && var a := s.starts[task].agent;
    && after == s.(agents := after.agents, instances := after.instances, starts := after.starts,
        results := after.results)
    && after.starts == s.starts[task := s.starts[task].(phase := after.starts[task].phase)]
    && (forall b :: b != a ==>
        (b in after.agents <==> b in s.agents) && (b in s.agents ==> after.agents[b] == s.agents[b]))
    && (forall j :: j != i ==>
        (j in after.instances <==> j in s.instances) && (j in s.instances ==> after.instances[j] == s.instances[j]))
    && (forall j :: j in s.instances && j != i && s.instances[j].agent == a ==> s.instances[j].over)
    && after.instances[i].agent == a && (i in s.instances ==> s.instances[i].agent == a)
    && after.Fits(after.starts[task])
    && (a in after.agents ==> after.agents[a] == i && !after.instances[i].over)
    && (!after.instances[i].over && a !in after.agents ==>
        after.starts[task].phase.Cleaning? && after.starts[task].phase.instance == i)
    && (!after.instances[i].over && after.instances[i].life != Terminated ==>
        after.instances[i].cfg == s.starts[task].cfg)
  }

  lemma TouchedWritten(s: State, after: State, task: nat, i: nat)
    requires s.Written() && s.StartsAgree() && Touched(s, after, task, i)
    ensures after.Written() && after.StartsAgree()
  {
  }

  lemma TouchedPhases(s: State, after: State, task: nat, i: nat)
    requires s.StartsAgree() && s.PhasesAgree() && s.InstancesAgree() && Touched(s, after, task, i)
    ensures after.PhasesAgree()
  {
    forall t | t in after.starts ensures after.Fits(after.starts[t]) {
      if t != task {
        assert after.starts[t] == s.starts[t] && s.starts[t].agent != s.starts[task].agent;
        assert s.Fits(s.starts[t]);
      }
    }
  }

  lemma TouchedStops(s: State, after: State, task: nat, i: nat)
    requires s.StartsAgree() && s.StopsAgree() && s.InstancesAgree() && Touched(s, after, task, i)
    ensures after.StopsAgree()
  {
  }

  lemma TouchedInstances(s: State, after: State, task: nat, i: nat)
    requires s.StartsAgree() && s.InstancesAgree() && Touched(s, after, task, i)
    ensures after.InstancesAgree()
  {
    forall j | j in after.instances && !after.instances[j].over ensures after.Held(j) {
      if j != i {
        assert s.Held(j) && s.instances[j].agent != s.starts[task].agent;
      }
    }
  }

  lemma TouchedWaited(s: State, after: State, task: nat, i: nat)
    requires s.StartsAgree() && s.InstancesAgree() && s.Waited() && Touched(s, after, task, i)
    ensures after.Waited()
  {
  }

  lemma TouchedKeeps(s: State, after: State, task: nat, i: nat)
    requires s.Sound() && Touched(s, after, task, i)
    ensures after.Sound()
  {
    hide State.Written, State.StartsAgree, State.PhasesAgree, State.StopsAgree, State.InstancesAgree,
        State.Waited, Touched;
    TouchedWritten(s, after, task, i);
    TouchedPhases(s, after, task, i);
    TouchedStops(s, after, task, i);
    TouchedInstances(s, after, task, i);
    TouchedWaited(s, after, task, i);
  }

  /** What a start may rely on. */
  lemma StartFacts(s: State, task: nat)
    requires s.Sound() && task in s.starts
    ensures s.Fits(s.starts[task])
    ensures var a := s.starts[task].agent; a in s.starting && s.starting[a] == task
  {
  }

  lemma OthersAreOver(s: State, a: nat, i: nat)
    requires s.Sound() && (i in s.instances ==> s.instances[i].agent == a && !s.instances[i].over)
    requires i in s.instances || (a !in s.agents && a in s.starting && !s.starts[s.starting[a]].phase.Cleaning?)
    ensures forall j :: j in s.instances && j != i && s.instances[j].agent == a ==> s.instances[j].over
  {
  }

  lemma LoadedKeeps(s: State, task: nat, i: nat)
    requires s.Sound() && task in s.starts && s.starts[task].phase.Loading? && i !in s.instances
    ensures Loaded(s, task, i).Sound()
  {
    hide State.Written, State.StartsAgree, State.PhasesAgree, State.StopsAgree, State.InstancesAgree, State.Waited;
    StartFacts(s, task);
    OthersAreOver(s, s.starts[task].agent, i);
    assert Touched(s, Loaded(s, task, i), task, i);
    TouchedKeeps(s, Loaded(s, task, i), task, i);
  }

  lemma CameUpKeeps(s: State, task: nat, i: nat)
    requires s.Sound() && task in s.starts && s.starts[task].phase == ComingUp(i)
    ensures i in s.instances && CameUp(s, task, i).Sound()
  {
    hide State.Written, State.StartsAgree, State.PhasesAgree, State.StopsAgree, State.InstancesAgree, State.Waited;
    StartFacts(s, task);
    OthersAreOver(s, s.starts[task].agent, i);
    assert Touched(s, CameUp(s, task, i), task, i);
    TouchedKeeps(s, CameUp(s, task, i), task, i);
  }

  lemma UnwindKeeps(s: State, task: nat, i: nat)
    requires s.Sound() && task in s.starts && s.starts[task].phase == ComingUp(i)
    ensures i in s.instances && Unwind(s, task, i).Sound()
  {
    hide State.Written, State.StartsAgree, State.PhasesAgree, State.StopsAgree, State.InstancesAgree, State.Waited;
    StartFacts(s, task);
    OthersAreOver(s, s.starts[task].agent, i);
    assert Touched(s, Unwind(s, task, i), task, i);
    TouchedKeeps(s, Unwind(s, task, i), task, i);
  }

  lemma DelistKeeps(s: State, task: nat, i: nat, cancelled: bool)
    requires s.Sound() && task in s.starts &&
        (s.starts[task].phase == ComingUp(i) || s.starts[task].phase == Unwinding(i))
    ensures i in s.instances && Delist(s, task, i, cancelled).Sound()
  {
    hide State.Written, State.StartsAgree, State.PhasesAgree, State.StopsAgree, State.InstancesAgree, State.Waited;
    StartFacts(s, task);
    OthersAreOver(s, s.starts[task].agent, i);
    assert Touched(s, Delist(s, task, i, cancelled), task, i);
    TouchedKeeps(s, Delist(s, task, i, cancelled), task, i);
  }

  lemma CleanedKeeps(s: State, task: nat, i: nat, cancelled: bool)
    requires s.Sound() && task in s.starts && s.starts[task].phase == Cleaning(i, cancelled)
    ensures i in s.instances && Cleaned(s, task, i, cancelled).Sound()
  {
    hide State.Written, State.StartsAgree, State.PhasesAgree, State.StopsAgree, State.InstancesAgree, State.Waited;
    StartFacts(s, task);
    OthersAreOver(s, s.starts[task].agent, i);
    var over := Move(s.(instances := s.instances[i := s.instances[i].(over := true)],
                        results := if cancelled then s.results else s.results[s.starts[task].agent := false]),
                     task, Announcing);
    assert Touched(s, over, task, i);
    TouchedKeeps(s, over, task, i);
    if cancelled {
      EndStartKeeps(over, task);
      assert over.starts - {task} == s.starts - {task};
    }
  }

  lemma EndStartStarts(s: State, task: nat)
    requires s.Written() && s.StartsAgree() && s.PhasesAgree() && task in s.starts
    ensures var after := EndStart(s, task); after.Written() && after.StartsAgree() && after.PhasesAgree()
  {
    var after := EndStart(s, task);
    forall t | t in after.starts ensures after.Fits(after.starts[t]) {
      assert s.Fits(s.starts[t]);
    }
  }

  lemma EndStartInstances(s: State, task: nat)
    requires s.StartsAgree() && s.StopsAgree() && s.InstancesAgree() && s.Waited() && task in s.starts
    requires s.starts[task].phase in {Loading, Announcing} && s.Fits(s.starts[task])
    ensures var after := EndStart(s, task); after.StopsAgree() && after.InstancesAgree() && after.Waited()
  {
    var after := EndStart(s, task);
    forall i | i in after.instances && !after.instances[i].over ensures after.Held(i) {
      assert s.Held(i);
    }
  }

  lemma EndStartKeeps(s: State, task: nat)
    requires s.Sound() && task in s.starts && s.starts[task].phase in {Loading, Announcing}
    ensures EndStart(s, task).Sound()
  {
    hide State.Written, State.StartsAgree, State.PhasesAgree, State.StopsAgree, State.InstancesAgree, State.Waited;
    StartFacts(s, task);
    EndStartStarts(s, task);
    EndStartInstances(s, task);
  }

  lemma AnnounceStarts(s: State, task: nat)
    requires s.Written() && s.StartsAgree() && s.PhasesAgree() && task in s.starts && s.starts[task].agent !in s.agents
    ensures var after := Move(s, task, Announcing); after.Written() && after.StartsAgree() && after.PhasesAgree()
  {
    var after := Move(s, task, Announcing);
    forall t | t in after.starts ensures after.Fits(after.starts[t]) {
      assert s.Fits(s.starts[t]);
    }
  }

  lemma AnnounceInstances(s: State, task: nat)
    requires s.StartsAgree() && s.StopsAgree() && s.InstancesAgree() && s.Waited() && task in s.starts
    requires s.starts[task].phase.Loading?
    ensures var after := Move(s, task, Announcing); after.StopsAgree() && after.InstancesAgree() && after.Waited()
  {
    var after := Move(s, task, Announcing);
    forall i | i in after.instances && !after.instances[i].over ensures after.Held(i) {
      assert s.Held(i);
    }
  }

  lemma NotLoadedKeeps(s: State, task: nat, cancelled: bool)
    requires s.Sound() && task in s.starts && s.starts[task].phase.Loading?
    ensures Failed(s, task, cancelled).Sound()
  {
    hide State.Written, State.StartsAgree, State.PhasesAgree, State.StopsAgree, State.InstancesAgree, State.Waited;
    if cancelled {
      EndStartKeeps(s, task);
    } else {
      var recorded := s.(results := s.results[s.starts[task].agent := false]);
      ResultsDoNotMatter(s, recorded.results);
      StartFacts(s, task);
      AnnounceStarts(recorded, task);
      AnnounceInstances(recorded, task);
    }
  }

  lemma ResultsDoNotMatter(s: State, results: map<nat, bool>)
    requires s.Sound()
    ensures s.(results := results).Sound()
  {
    forall t | t in s.starts ensures s.(results := results).Fits(s.starts[t]) {
      assert s.Fits(s.starts[t]);
    }
    forall i | i in s.instances && !s.instances[i].over ensures s.(results := results).Held(i) {
      assert s.Held(i);
    }
  }

  /** Every step keeps the invariant. */
  lemma NextKeeps(s: State, step: Step)
    requires s.Sound()
    ensures Next(s, step).Sound()
  {
    hide State.Sound, Add, Update, Remove, Stopped, Loaded, Failed, CameUp, Unwind, Delist, Cleaned, EndStart;
    if Enabled(s, step) {
      match step {
        case DoAdd(a, cfg, ease, task) => AddKeeps(s, a, cfg, ease, task);
        case DoUpdate(a, cfg, ease, task) => UpdateKeeps(s, a, cfg, ease, task);
        case DoRemove(a, ease, op) => RemoveKeeps(s, a, ease, op);
        case DoStopped(op, cancelled, task) => StoppedKeeps(s, op, cancelled, task);
        case DoLoaded(task, i) => LoadedKeeps(s, task, i);
        case DoNotLoaded(task, cancelled) => NotLoadedKeeps(s, task, cancelled);
        case DoCameUp(task) => CameUpKeeps(s, task, s.starts[task].phase.instance);
        case DoUnwind(task) => UnwindKeeps(s, task, s.starts[task].phase.instance);
        case DoDelist(task, cancelled) => DelistKeeps(s, task, s.starts[task].phase.instance, cancelled);
        case DoCleaned(task) => CleanedKeeps(s, task, s.starts[task].phase.instance, s.starts[task].phase.cancelled);
        case DoAnnounced(task) => EndStartKeeps(s, task);
      }
    }
  }

  lemma {:induction false} RunsAreSound(s: State, steps: seq<Step>)
    requires s.Sound()
    ensures Run(s, steps).Sound()
    decreases |steps|
  {
    hide State.Sound, Next;
    if steps != [] {
      NextKeeps(s, steps[0]);
      RunsAreSound(Next(s, steps[0]), steps[1..]);
    }
  }

  /** No two agents share a name, and only configured ones came up. */
  ghost predicate Bootable(config: map<nat, Cfg>, came: set<nat>) {
    && (forall a :: a in came ==> a in config)
    && (forall a, b :: a in config && b in config && a != b ==> config[a].name != config[b].name)
  }

  /** A node whose agents have been started, of which some came up. */
  function Boot(config: map<nat, Cfg>, came: set<nat>): State
    requires forall a :: a in came ==> a in config
  {
    State(config, map a | a in came :: a, map a | a in came :: Instance(a, config[a], Up, false), map[], map[], map[],
          map a | a in config :: a in came)
  }

  lemma BootIsSound(config: map<nat, Cfg>, came: set<nat>)
    requires Bootable(config, came)
    ensures Boot(config, came).Sound()
  {
  }

  // ---- what that means for every run, one promise at a time ----

  /** An agent has one instance at a time that is not over. */
  lemma OneInstance(config: map<nat, Cfg>, came: set<nat>, steps: seq<Step>, i: nat, j: nat)
    requires Bootable(config, came)
    ensures var s := Run(Boot(config, came), steps);
            i in s.instances && j in s.instances && s.instances[i].agent == s.instances[j].agent ==>
              s.instances[i].over || s.instances[j].over || i == j
  {
    hide Run, Boot;
    BootIsSound(config, came);
    RunsAreSound(Boot(config, came), steps);
  }

  /** An instance that is coming up or up is the one listed for its agent, and its
      configuration is the one written. */
  ghost predicate UpListed(s: State) {
    forall i :: i in s.instances && !s.instances[i].over && s.instances[i].life != Terminated ==>
      var a := s.instances[i].agent;
      a in s.agents && s.agents[a] == i && a in s.config && s.config[a] == s.instances[i].cfg
  }

  lemma SoundIsListed(s: State)
    requires s.Sound()
    ensures UpListed(s)
  {
    forall i | i in s.instances && !s.instances[i].over && s.instances[i].life != Terminated
      ensures s.instances[i].agent in s.agents && s.agents[s.instances[i].agent] == i
    {
      assert s.Held(i);
      if s.instances[i].agent in s.starting {
        assert s.Fits(s.starts[s.starting[s.instances[i].agent]]);
      }
    }
  }

  lemma UpRunsWhatIsWritten(config: map<nat, Cfg>, came: set<nat>, steps: seq<Step>)
    requires Bootable(config, came)
    ensures UpListed(Run(Boot(config, came), steps))
  {
    hide Run, Boot, UpListed;
    BootIsSound(config, came);
    RunsAreSound(Boot(config, came), steps);
    SoundIsListed(Run(Boot(config, came), steps));
  }

  /** A change is refused exactly while a start or another change of the agent is under
      way; then, as after every change that is not taken, nothing has changed. */
  lemma RefusedIffUnderWay(config: map<nat, Cfg>, came: set<nat>, steps: seq<Step>, a: nat, cfg: Cfg,
      ease: Ease, task: nat)
    requires Bootable(config, came)
    ensures var s := Run(Boot(config, came), steps);
            a in s.config ==>
              && (UpdateOutcome(s, a, cfg, ease) == Refused <==>
                    (a in s.starting || exists o :: o in s.stops && s.stops[o].agent == a))
              && (RemoveOutcome(s, a, ease) == Refused <==> UpdateOutcome(s, a, cfg, ease) == Refused)
              && (UpdateOutcome(s, a, cfg, ease) != Done ==> Update(s, a, cfg, ease, task) == s)
              && (RemoveOutcome(s, a, ease) != Done ==> Remove(s, a, ease, task) == s)
  {
    hide Run, Boot;
    BootIsSound(config, came);
    RunsAreSound(Boot(config, came), steps);
  }

  /** An agent that starts is never started twice, nor while another instance of it is
      left. */
  lemma StartsAlone(config: map<nat, Cfg>, came: set<nat>, steps: seq<Step>, task: nat, i: nat)
    requires Bootable(config, came)
    ensures var s := Run(Boot(config, came), steps);
            task in s.starts ==>
              && (forall t :: t in s.starts && s.starts[t].agent == s.starts[task].agent ==> t == task)
              && (i in s.instances && !s.instances[i].over && s.instances[i].agent == s.starts[task].agent ==>
                    s.starts[task].phase.Announcing? ||
                        (!s.starts[task].phase.Loading? && s.starts[task].phase.instance == i))
  {
    hide Run, Boot;
    BootIsSound(config, came);
    RunsAreSound(Boot(config, came), steps);
    var s := Run(Boot(config, came), steps);
    if task in s.starts && i in s.instances && !s.instances[i].over {
      assert s.Held(i) && s.Fits(s.starts[task]);
    }
  }

  // ---- changes and starts carried through, whatever comes between ----

  /** The start a step moves along, and the stop it ends. */
  predicate Moves(step: Step, task: nat) {
    match step
    case DoLoaded(t, _) => t == task
    case DoNotLoaded(t, _) => t == task
    case DoCameUp(t) => t == task
    case DoUnwind(t) => t == task
    case DoDelist(t, _) => t == task
    case DoCleaned(t) => t == task
    case DoAnnounced(t) => t == task
    case _ => false
  }

  predicate Ends(step: Step, op: nat) {
    step.DoStopped? && step.op == op
  }

  predicate IsChange(step: Step) {
    step.DoAdd? || step.DoUpdate? || step.DoRemove? || step.DoStopped?
  }

  lemma ChangesKeepStarts(s: State, step: Step, task: nat)
    requires task in s.starts && IsChange(step)
    ensures task in Next(s, step).starts && Next(s, step).starts[task] == s.starts[task]
  {
    hide NameFree, AddOutcome, UpdateOutcome, RemoveOutcome;
  }

  lemma MovesKeepOthers(s: State, step: Step, task: nat)
    requires task in s.starts && !IsChange(step) && !Moves(step, task)
    ensures task in Next(s, step).starts && Next(s, step).starts[task] == s.starts[task]
  {
    hide Add, Update, Remove, Stopped;
  }

  lemma {:induction false} StartStays(s: State, steps: seq<Step>, task: nat)
    requires s.Sound() && task in s.starts && forall k :: 0 <= k < |steps| ==> !Moves(steps[k], task)
    ensures var t := Run(s, steps); t.Sound() && task in t.starts && t.starts[task] == s.starts[task]
    decreases |steps|
  {
    hide Next, State.Sound, Moves;
    if steps != [] {
      NextKeeps(s, steps[0]);
      if IsChange(steps[0]) {
        ChangesKeepStarts(s, steps[0], task);
      } else {
        MovesKeepOthers(s, steps[0], task);
      }
      StartStays(Next(s, steps[0]), steps[1..], task);
    }
  }

  lemma StopStaysOne(s: State, step: Step, op: nat)
    requires op in s.stops && !Ends(step, op)
    ensures op in Next(s, step).stops && Next(s, step).stops[op] == s.stops[op]
  {
    hide NameFree, AddOutcome, UpdateOutcome, RemoveOutcome;
  }

  lemma {:induction false} StopStays(s: State, steps: seq<Step>, op: nat)
    requires s.Sound() && op in s.stops && forall k :: 0 <= k < |steps| ==> !Ends(steps[k], op)
    ensures var t := Run(s, steps); t.Sound() && op in t.stops && t.stops[op] == s.stops[op]
    decreases |steps|
  {
    hide Next, State.Sound, Ends;
    if steps != [] {
      NextKeeps(s, steps[0]);
      StopStaysOne(s, steps[0], op);
      StopStays(Next(s, steps[0]), steps[1..], op);
    }
  }

  /** Agent a is being started, from what is written, and has no instance yet. */
  ghost predicate StartsAfresh(s: State, task: nat, a: nat, cfg: Cfg) {
    && s.Sound() && task in s.starts && s.starts[task] == Start(a, cfg, Loading)
    && a in s.starting && s.starting[a] == task && a !in s.agents
    && a in s.config && s.config[a] == cfg
  }

  lemma LoadingStartsAfresh(s: State, task: nat)
    requires s.Sound() && task in s.starts && s.starts[task].phase.Loading?
    ensures StartsAfresh(s, task, s.starts[task].agent, s.starts[task].cfg)
  {
    assert s.Fits(s.starts[task]);
  }

  /** Agent a is up: one instance of it runs what is written, every other is over, and it
      may be changed again. */
  ghost predicate IsUp(s: State, a: nat, i: nat, cfg: Cfg) {
    && a in s.agents && s.agents[a] == i && i in s.instances && s.instances[i] == Instance(a, cfg, Up, false)
    && a in s.config && s.config[a] == cfg && a in s.results && s.results[a]
    && (forall j :: j in s.instances && j != i && s.instances[j].agent == a ==> s.instances[j].over)
  }

  /** A start whose adapters load and whose instance comes up brings the agent up,
      whatever happens in between and after it until it is done. */
  lemma StartComesUp(s: State, task: nat, during: seq<Step>, i: nat, coming: seq<Step>)
    requires s.Sound() && task in s.starts && s.starts[task].phase.Loading?
    requires forall k :: 0 <= k < |during| ==> !Moves(during[k], task)
    requires forall k :: 0 <= k < |coming| ==> !Moves(coming[k], task)
    requires i !in Run(s, during).instances
    ensures var a, cfg := s.starts[task].agent, s.starts[task].cfg;
            var loaded := Next(Run(s, during), DoLoaded(task, i));
            var up := Next(Run(loaded, coming), DoCameUp(task));
            IsUp(up, a, i, cfg) && Settled(Next(up, DoAnnounced(task)), a)
  {
    hide Next, Run, Moves, State.Sound, IsUp, Settled;
    StartStays(s, during, task);
    var loading := Run(s, during);
    var loaded := Next(loading, DoLoaded(task, i));
    NextKeeps(loading, DoLoaded(task, i));
    LoadedIs(loading, task, i);
    StartStays(loaded, coming, task);
    ComesUp(Run(loaded, coming), task, i);
  }

  lemma LoadedIs(s: State, task: nat, i: nat)
    requires task in s.starts && s.starts[task].phase.Loading? && i !in s.instances
    ensures var t := Next(s, DoLoaded(task, i));
            task in t.starts && t.starts[task] == s.starts[task].(phase := ComingUp(i))
  {
  }

  lemma ComesUp(s: State, task: nat, i: nat)
    requires s.Sound() && task in s.starts && s.starts[task].phase == ComingUp(i)
    ensures var up, a := Next(s, DoCameUp(task)), s.starts[task].agent;
            && up.Sound() && IsUp(up, a, i, s.starts[task].cfg)
            && Settled(Next(up, DoAnnounced(task)), a)
  {
    hide State.Sound;
    NextKeeps(s, DoCameUp(task));
    StartFacts(s, task);
    OthersAreOver(s, s.starts[task].agent, i);
    WhatIsStarted(s, task);
  }

  lemma WhatIsStarted(s: State, task: nat)
    requires s.Sound() && task in s.starts
    ensures s.starts[task].agent in s.config && s.config[s.starts[task].agent] == s.starts[task].cfg
  {
  }

  /** An agent that is not listed nor starting, and of which every instance is over. */
  ghost predicate IsDown(s: State, a: nat) {
    && a !in s.agents && a !in s.starting
    && (forall j :: j in s.instances && s.instances[j].agent == a ==> s.instances[j].over)
  }

  lemma NobodyLeft(s: State, a: nat)
    requires s.Sound() && a !in s.agents && a !in s.starting
    ensures IsDown(s, a)
  {
    forall j | j in s.instances && s.instances[j].agent == a ensures s.instances[j].over {
      assert !s.instances[j].over ==> s.Held(j);
    }
  }

  /** A start that fails before its adapters are loaded leaves the agent down, its failure
      on record unless it was cancelled. */
  lemma NotLoadedIsDown(s: State, task: nat, cancelled: bool)
    requires s.Sound() && task in s.starts && s.starts[task].phase.Loading?
    ensures var a, t := s.starts[task].agent, Next(s, DoNotLoaded(task, cancelled));
            var last := if cancelled then t else Next(t, DoAnnounced(task));
            && last.Sound() && IsDown(last, a) && last.config == s.config && Settled(last, a)
            && last.results == if cancelled then s.results else s.results[a := false]
  {
    hide State.Sound;
    var a, t := s.starts[task].agent, Next(s, DoNotLoaded(task, cancelled));
    LoadingStartsAfresh(s, task);
    NextKeeps(s, DoNotLoaded(task, cancelled));
    NextKeeps(t, DoAnnounced(task));
    var last := if cancelled then t else Next(t, DoAnnounced(task));
    NobodyLeft(last, a);
  }

  /** A start that fails once there is an instance takes it off the list; when it has
      cleaned up the instance is over, and the agent down as above. */
  lemma FailedIsDown(s: State, task: nat, cancelled: bool, during: seq<Step>)
    requires s.Sound() && task in s.starts && (s.starts[task].phase.ComingUp? || s.starts[task].phase.Unwinding?)
    requires forall k :: 0 <= k < |during| ==> !Moves(during[k], task)
    ensures var a, i, t := s.starts[task].agent, s.starts[task].phase.instance, Next(s, DoDelist(task, cancelled));
            var cleaned := Next(Run(t, during), DoCleaned(task));
            var last := if cancelled then cleaned else Next(cleaned, DoAnnounced(task));
            && a !in t.agents && last.Sound() && IsDown(last, a) && Settled(last, a)
            && i in last.instances && last.instances[i].over && last.instances[i].life == Terminated
            && (!cancelled ==> a in last.results && !last.results[a])
            && (cancelled ==> last.results == Run(t, during).results)
  {
    var a, i := s.starts[task].agent, s.starts[task].phase.instance;
    StartFacts(s, task);
    var t := Next(s, DoDelist(task, cancelled));
    hide Next, Run, Moves, State.Sound, IsDown, Settled;
    NextKeeps(s, DoDelist(task, cancelled));
    DelistedIs(s, task, i, cancelled);
    StartStays(t, during, task);
    CleanedIsDown(Run(t, during), task, i, cancelled);
  }

  lemma DelistedIs(s: State, task: nat, i: nat, cancelled: bool)
    requires task in s.starts && (s.starts[task].phase == ComingUp(i) || s.starts[task].phase == Unwinding(i))
    requires i in s.instances
    ensures var t := Next(s, DoDelist(task, cancelled));
            && task in t.starts && t.starts[task] == s.starts[task].(phase := Cleaning(i, cancelled))
            && s.starts[task].agent !in t.agents
  {
  }

  lemma CleanedIsDown(s: State, task: nat, i: nat, cancelled: bool)
    requires s.Sound() && task in s.starts && s.starts[task].phase == Cleaning(i, cancelled)
    ensures var a, t := s.starts[task].agent, Next(s, DoCleaned(task));
            var last := if cancelled then t else Next(t, DoAnnounced(task));
            && last.Sound() && IsDown(last, a) && Settled(last, a)
            && i in last.instances && last.instances[i].over && last.instances[i].life == Terminated
            && (!cancelled ==> a in last.results && !last.results[a])
            && (cancelled ==> last.results == s.results)
  {
    hide State.Sound;
    var a, t := s.starts[task].agent, Next(s, DoCleaned(task));
    StartFacts(s, task);
    NextKeeps(s, DoCleaned(task));
    NextKeeps(t, DoAnnounced(task));
    var last := if cancelled then t else Next(t, DoAnnounced(task));
    NobodyLeft(last, a);
  }

  /** An instance taken down while it comes up stays the listed one, and its start goes on
      to fail. */
  lemma UnwindGoesOn(s: State, task: nat)
    requires s.Sound() && task in s.starts && s.starts[task].phase.ComingUp?
    ensures var t, i := Next(s, DoUnwind(task)), s.starts[task].phase.instance;
            && t.Sound() && task in t.starts && t.starts[task] == s.starts[task].(phase := Unwinding(i))
            && t.agents == s.agents && i in t.instances && t.instances[i].life == Terminated
  {
    NextKeeps(s, DoUnwind(task));
    StartFacts(s, task);
    hide State.Sound;
  }

  /** When the stop is over its instance is, and the agent is started again with what was
      written, unless the change was a removal or was cancelled: then it is down. */
  lemma StopEnds(s: State, op: nat, cancelled: bool, task: nat)
    requires s.Sound() && op in s.stops && task !in s.starts
    ensures var stop, t := s.stops[op], Next(s, DoStopped(op, cancelled, task));
            && t.Sound() && op !in t.stops && stop.agent !in t.agents
            && stop.instance in t.instances && t.instances[stop.instance].over && t.config == s.config
            && if stop.next.Some? && !cancelled then StartsAfresh(t, task, stop.agent, stop.next.value)
               else IsDown(t, stop.agent)
  {
    var stop, t := s.stops[op], Next(s, DoStopped(op, cancelled, task));
    NextKeeps(s, DoStopped(op, cancelled, task));
    StopFacts(s, op);
    hide State.Sound;
    if !(stop.next.Some? && !cancelled) {
      NobodyLeft(t, stop.agent);
    }
  }

  lemma StopFacts(s: State, op: nat)
    requires s.Sound() && op in s.stops
    ensures var stop := s.stops[op];
            && stop.instance in s.instances && stop.agent !in s.starting
            && (stop.next.Some? ==> stop.agent in s.config && s.config[stop.agent] == stop.next.value)
  {
  }

  lemma UpdateWaits(s: State, a: nat, cfg: Cfg, ease: Ease, op: nat, stopping: seq<Step>)
    requires s.Sound() && op !in s.starts && op !in s.stops && a in s.agents
    requires UpdateOutcome(s, a, cfg, ease) == Done
    requires forall k :: 0 <= k < |stopping| ==> !Ends(stopping[k], op)
    ensures var t := Run(Next(s, DoUpdate(a, cfg, ease, op)), stopping);
            t.Sound() && op in t.stops && t.stops[op] == Stop(a, s.agents[a], Some(cfg))
  {
    assert s.agents[a] in s.instances;
    var updated := Next(s, DoUpdate(a, cfg, ease, op));
    NextKeeps(s, DoUpdate(a, cfg, ease, op));
    hide State.Sound, Run, Ends;
    assert op in updated.stops && updated.stops[op] == Stop(a, s.agents[a], Some(cfg));
    StopStays(updated, stopping, op);
  }

  lemma RemoveWaits(s: State, a: nat, ease: Ease, op: nat, stopping: seq<Step>)
    requires s.Sound() && op !in s.stops && a in s.agents && RemoveOutcome(s, a, ease) == Done
    requires forall k :: 0 <= k < |stopping| ==> !Ends(stopping[k], op)
    ensures var t := Run(Next(s, DoRemove(a, ease, op)), stopping);
            t.Sound() && op in t.stops && t.stops[op] == Stop(a, s.agents[a], None)
  {
    assert s.agents[a] in s.instances;
    var removed := Next(s, DoRemove(a, ease, op));
    NextKeeps(s, DoRemove(a, ease, op));
    hide State.Sound, Run, Ends;
    assert op in removed.stops && removed.stops[op] == Stop(a, s.agents[a], None);
    StopStays(removed, stopping, op);
  }

  /** While a change waits for a stop, the instance is terminated and stays the listed one
      of its agent, with what the change has written. */
  lemma WaitingIsListed(s: State, op: nat)
    requires s.Sound() && op in s.stops
    ensures var stop := s.stops[op];
            && stop.agent in s.agents && s.agents[stop.agent] == stop.instance && stop.agent !in s.starting
            && stop.instance in s.instances && s.instances[stop.instance].life == Terminated
            && if stop.next.Some? then stop.agent in s.config && s.config[stop.agent] == stop.next.value
               else stop.agent !in s.config
  {
  }

  /** An update of an agent that is up: whatever goes on meanwhile, its instance stops, and
      when that is over it is started with the new configuration, and comes up with it. */
  lemma UpdateComesUp(s: State, a: nat, cfg: Cfg, ease: Ease, op: nat, stopping: seq<Step>, task: nat,
      loading: seq<Step>, i: nat, coming: seq<Step>)
    requires s.Sound() && op !in s.starts && op !in s.stops && a in s.agents
    requires UpdateOutcome(s, a, cfg, ease) == Done
    requires forall k :: 0 <= k < |stopping| ==> !Ends(stopping[k], op)
    requires forall k :: 0 <= k < |loading| ==> !Moves(loading[k], task)
    requires forall k :: 0 <= k < |coming| ==> !Moves(coming[k], task)
    requires task !in Run(Next(s, DoUpdate(a, cfg, ease, op)), stopping).starts
    requires i !in
      Run(Next(Run(Next(s, DoUpdate(a, cfg, ease, op)), stopping), DoStopped(op, false, task)), loading).instances
    ensures var stopped := Next(Run(Next(s, DoUpdate(a, cfg, ease, op)), stopping), DoStopped(op, false, task));
            && StartsAfresh(stopped, task, a, cfg)
            && var loaded := Next(Run(stopped, loading), DoLoaded(task, i));
            && var up := Next(Run(loaded, coming), DoCameUp(task));
            && IsUp(up, a, i, cfg) && Settled(Next(up, DoAnnounced(task)), a)
  {
    hide Run, Next, State.Sound, IsUp, UpdateOutcome, StartsAfresh, Moves, Ends, Settled;
    UpdateWaits(s, a, cfg, ease, op, stopping);
    var waiting := Run(Next(s, DoUpdate(a, cfg, ease, op)), stopping);
    StopEnds(waiting, op, false, task);
    var stopped := Next(waiting, DoStopped(op, false, task));
    AfreshIsLoading(stopped, task, a, cfg);
    StartComesUp(stopped, task, loading, i, coming);
  }

  lemma AfreshIsLoading(s: State, task: nat, a: nat, cfg: Cfg)
    requires StartsAfresh(s, task, a, cfg)
    ensures s.Sound() && task in s.starts && s.starts[task] == Start(a, cfg, Loading)
  {
  }

  /** An update of an agent that is down starts it at once. */
  lemma UpdateStarts(s: State, a: nat, cfg: Cfg, ease: Ease, task: nat)
    requires s.Sound() && task !in s.starts && task !in s.stops && a !in s.agents
    requires UpdateOutcome(s, a, cfg, ease) == Done
    ensures StartsAfresh(Next(s, DoUpdate(a, cfg, ease, task)), task, a, cfg)
  {
    NextKeeps(s, DoUpdate(a, cfg, ease, task));
    hide State.Sound;
  }

  /** An agent that is taken in is started at once. */
  lemma AddStarts(s: State, a: nat, cfg: Cfg, ease: Ease, task: nat)
    requires s.Sound() && task !in s.starts && a !in s.agents && AddOutcome(s, a, cfg, ease) == Done
    ensures StartsAfresh(Next(s, DoAdd(a, cfg, ease, task)), task, a, cfg)
  {
    NextKeeps(s, DoAdd(a, cfg, ease, task));
    hide State.Sound;
  }

  /** An agent that is removed is down and not written once its instance has stopped. */
  lemma RemoveIsGone(s: State, a: nat, ease: Ease, op: nat, stopping: seq<Step>, cancelled: bool, task: nat)
    requires s.Sound() && op !in s.stops && a in s.agents && RemoveOutcome(s, a, ease) == Done
    requires forall k :: 0 <= k < |stopping| ==> !Ends(stopping[k], op)
    requires task !in Run(Next(s, DoRemove(a, ease, op)), stopping).starts
    ensures var t := Next(Run(Next(s, DoRemove(a, ease, op)), stopping), DoStopped(op, cancelled, task));
            t.Sound() && a !in t.config && IsDown(t, a)
  {
    hide Run, Next, State.Sound, IsDown, RemoveOutcome, Ends;
    RemoveWaits(s, a, ease, op, stopping);
    var waiting := Run(Next(s, DoRemove(a, ease, op)), stopping);
    WaitingIsListed(waiting, op);
    StopEnds(waiting, op, cancelled, task);
  }

  /** One that is down already, at once. */
  lemma RemoveIsGoneAtOnce(s: State, a: nat, ease: Ease, op: nat)
    requires s.Sound() && op !in s.stops && a !in s.agents && RemoveOutcome(s, a, ease) == Done
    ensures var t := Next(s, DoRemove(a, ease, op)); t.Sound() && a !in t.config && IsDown(t, a)
  {
    hide State.Sound;
    NextKeeps(s, DoRemove(a, ease, op));
    NobodyLeft(Next(s, DoRemove(a, ease, op)), a);
  }

  /** A change that is taken clears what is on record of the last start of its agent, and
      touches no other. */
  lemma ChangeForgets(s: State, a: nat, cfg: Cfg, ease: Ease, task: nat)
    requires s.Sound()
    ensures UpdateOutcome(s, a, cfg, ease) == Done ==> Update(s, a, cfg, ease, task).results == s.results - {a}
    ensures RemoveOutcome(s, a, ease) == Done ==> Remove(s, a, ease, task).results == s.results - {a}
    ensures AddOutcome(s, a, cfg, ease) == Done ==> Add(s, a, cfg, ease, task).results == s.results
  {
    hide State.Sound;
  }

  /** Which changes are taken. */
  lemma DoneIff(s: State, a: nat, cfg: Cfg, ease: Ease)
    requires s.Sound()
    ensures var free := forall b :: b in s.config && b != a ==> s.config[b].name != cfg.name;
            var idle := a !in s.starting && forall o :: o in s.stops ==> s.stops[o].agent != a;
            && (AddOutcome(s, a, cfg, ease) == Done <==> a !in s.config && free && ease.valid && ease.written)
            && (UpdateOutcome(s, a, cfg, ease) == Done <==>
                  a in s.config && idle && free && ease.valid && ease.written)
            && (RemoveOutcome(s, a, ease) == Done <==> a in s.config && idle && ease.written)
            && (AddOutcome(s, a, cfg, ease) == NotWritten <==> a !in s.config && free && ease.valid && !ease.written)
            && (UpdateOutcome(s, a, cfg, ease) == NotWritten <==>
                  a in s.config && idle && free && ease.valid && !ease.written)
            && (UpdateOutcome(s, a, cfg, ease) == NotConfigured <==> a !in s.config)
            && (RemoveOutcome(s, a, ease) == NotWritten <==> a in s.config && idle && !ease.written)
            && (RemoveOutcome(s, a, ease) == NotConfigured <==> a !in s.config)
  {
  }

  // ---- what ids of the caller's own would do ----

  /** An agent that is listed but not written is on its way out: its removal waits for
      the listed instance. */
  lemma LeavingIsStopping(s: State, a: nat) returns (op: nat)
    requires s.Sound() && a in s.agents && a !in s.config
    ensures a !in s.starting && op in s.stops && s.stops[op] == Stop(a, s.agents[a], None)
    ensures s.agents[a] in s.instances
  {
    assert s.instances[s.agents[a]].agent == a;
    op :| op in s.stops && s.stops[op].agent == a;
  }

  lemma {:induction false} SomeNewId(ids: set<nat>) returns (i: nat)
    ensures i !in ids && forall j :: j in ids ==> j < i
  {
    i := 0;
    if j :| j in ids {
      var others := SomeNewId(ids - {j});
      assert forall k :: k in ids ==> k == j || k in ids - {j};
      i := if j < others then others else j + 1;
    }
  }

  /** An agent taken in while its removal waits comes up, and then the removal ends. */
  function Crossing(task: nat, i: nat, op: nat): seq<Step> {
    [DoLoaded(task, i), DoCameUp(task), DoAnnounced(task), DoStopped(op, false, task)]
  }

  lemma CrossingStrikesOff(s: State, a: nat, cfg: Cfg, task: nat, i: nat, op: nat)
    requires task in s.starts && s.starts[task] == Start(a, cfg, Loading) && i !in s.instances
    requires op in s.stops && s.stops[op].agent == a && s.stops[op].next == None
    requires s.stops[op].instance in s.instances
    ensures !UpListed(Run(s, Crossing(task, i, op)))
  {
    var loaded := Loaded(s, task, i);
    var up := CameUp(loaded, task, i);
    var started := EndStart(up, task);
    var after := Rested(started, op);
    assert Next(s, DoLoaded(task, i)) == loaded;
    assert Next(loaded, DoCameUp(task)) == up;
    assert Next(up, DoAnnounced(task)) == started;
    assert Next(started, DoStopped(op, false, task)) == after;
    assert Run(s, Crossing(task, i, op)) == after by {
      hide Next;
      assert Run(started, [DoStopped(op, false, task)]) == after;
      assert Run(up, [DoAnnounced(task), DoStopped(op, false, task)]) == after;
      assert Run(loaded, [DoCameUp(task), DoAnnounced(task), DoStopped(op, false, task)]) == after;
    }
    assert after.instances[i] == Instance(a, cfg, Up, false) && a !in after.agents;
  }

  /** Taking an agent in leaves every instance that comes up listed, whatever may follow,
      if and only if no instance is listed under its id. */
  lemma UpListedSurvivesIff(s: State, a: nat, cfg: Cfg, ease: Ease, task: nat)
    requires s.Sound() && task !in s.starts && AddOutcome(s, a, cfg, ease) == Done
    ensures (forall steps :: UpListed(Run(Add(s, a, cfg, ease, task), steps))) <==> a !in s.agents
  {
    hide State.Sound, UpListed, Run;
    var after := Add(s, a, cfg, ease, task);
    if a in s.agents {
      var op := LeavingIsStopping(s, a);
      var i := SomeNewId(s.instances.Keys);
      CrossingStrikesOff(after, a, cfg, task, i, op);
    } else {
      AddKeepsIff(s, a, cfg, ease, task);
      forall steps ensures UpListed(Run(after, steps)) {
        RunsAreSound(after, steps);
        SoundIsListed(Run(after, steps));
      }
    }
  }

  /** Taking an agent in under the id of one that is just being let go, as only a direct
      `add_agent` can: the removal strikes the new instance off the list, and it runs
      on unlisted while a change of the agent would start another. */
  lemma AddingUnderAnOldIdCrosses(first: Cfg, second: Cfg)
    ensures var ease := Ease(true, true);
            var removing := Remove(Boot(map[1 := first], {1}), 1, ease, 0);
            var added := Loaded(Add(removing, 1, second, ease, 0), 0, 2);
            var up := EndStart(CameUp(added, 0, 2), 0);
            var after := Rested(up, 0);
            && 2 in after.instances && after.instances[2] == Instance(1, second, Up, false)
            && 1 in after.config && 1 !in after.agents
            && Settled(after, 1) && UpdateOutcome(after, 1, second, ease) == Done
  {
  }
}
