/**
  Automatic restarts of one process name: tokens, pending names, the process lock and
  guard generations, with every restart task interleaved step by step with
  cancellations, user operations and guard actions.
 */
module RestartFencing {
  import opened Options

  const TOKENS := 0x1_0000_0000_0000_0000

  /** Where a restart task is between its timer and its end. */
  datatype Pc = Sleeping | Woken | Waiting | Holding | Checked | Advanced | Spawned | Kept | Stopped | Escaped | GaveUp

  /** `born` counts the token's increments when the restart was scheduled; the token itself wraps. */
  datatype Task = Task(instance: nat, born: nat, generation: nat, pc: Pc)

  /** One running child: its durable generation and its native handle, never used twice. */
  datatype Entry = Entry(generation: nat, handle: nat)

  datatype Key = Key(instance: nat, generation: nat, handle: nat)

  datatype State = State(
    bumps: map<nat, nat>,
    pending: set<nat>,
    pendingNames: set<nat>,
    runtime: map<nat, Entry>,
    generations: map<nat, nat>,
    handles: nat,
    owners: map<nat, Key>,
    tasks: map<nat, Task>,
    lock: Option<nat>,
    shuttingDown: bool)

  datatype Event =
    | Schedule(task: nat, instance: nat)
    | Wake(task: nat)
    | PreCheck(task: nat)
    | TakeLock(task: nat)
    | CheckUnderLock(task: nat)
    | Advance(task: nat)
    | Spawn(task: nat, succeeds: bool)
    | Verify(task: nat, stops: bool)
    | CancelPending
    | CancelInstance(instance: nat)
    | UserStart(instance: nat, advances: bool)
    | Stop(instance: nat)
    | GuardStop(key: Key)
    | ShutDown

  function Bumps(s: State, instance: nat): nat {
    if instance in s.bumps then s.bumps[instance] else 0
  }

  function Token(bumps: nat): nat {
    bumps % TOKENS
  }

  function Generation(s: State, instance: nat): nat {
    if instance in s.generations then s.generations[instance] else 1
  }

  /** The three conditions checked before and again under the lock. */
  predicate MayRestart(s: State, task: Task) {
    !s.shuttingDown && task.instance !in s.runtime && Token(Bumps(s, task.instance)) == Token(task.born)
  }

  function Bump(s: State, instance: nat): State {
    s.(bumps := s.bumps[instance := Bumps(s, instance) + 1], pending := s.pending - {instance})
  }

  function BumpAll(s: State, instances: set<nat>): State {
    s.(bumps := s.bumps + (map i | i in instances :: Bumps(s, i) + 1), pending := s.pending - instances)
  }

  /** Only the instances still listed under the name, or running, are reached. */
  function Reached(s: State): set<nat> {
    s.pendingNames + s.runtime.Keys
  }

  function Run(s: State, instance: nat, generation: nat): State {
    var entry := Entry(generation, s.handles);
    s.(runtime := s.runtime[instance := entry], handles := s.handles + 1,
      owners := s.owners[instance := Key(instance, generation, s.handles)])
  }

  function Halt(s: State, instance: nat): State {
    s.(runtime := s.runtime - {instance}, owners := s.owners - {instance})
  }

  /** A guard acts only as the current owner of the very child it was raised for. */
  predicate OwnsCurrent(s: State, key: Key) {
    && key.instance in s.runtime && s.runtime[key.instance] == Entry(key.generation, key.handle)
    && key.instance in s.owners && s.owners[key.instance] == key
  }

  predicate HoldsLock(pc: Pc) {
    pc.Holding? || pc.Checked? || pc.Advanced? || pc.Spawned?
  }

  /**
    Where one step takes a task; an event that is not its next step leaves it where it is.  The force-stop of a child
    whose token has moved on is attempted only: without a readable definition, or when it fails, the child escapes.
   */
  function NextPc(s: State, event: Event, task: Task): Pc {
    match event
    case Wake(_) => if task.pc.Sleeping? then Woken else task.pc
    case PreCheck(_) => if task.pc.Woken? then (if MayRestart(s, task) then Waiting else GaveUp) else task.pc
    case TakeLock(_) => if task.pc.Waiting? && s.lock.None? then Holding else task.pc
    case CheckUnderLock(_) => if task.pc.Holding? then (if MayRestart(s, task) then Checked else GaveUp) else task.pc
    case Advance(_) =>
      if task.pc.Checked? then (if Generation(s, task.instance) == task.generation then Advanced else GaveUp) else task.pc
    case Spawn(_, succeeds) => if task.pc.Advanced? then (if succeeds then Spawned else GaveUp) else task.pc
    case Verify(_, stops) =>
      if !task.pc.Spawned? then task.pc
      else if Token(Bumps(s, task.instance)) == Token(task.born) then Kept
      else if stops then Stopped
      else Escaped
    case _ => task.pc
  }

  /** What else the transition does: leave the pending lists, advance the generation, start the child or force-stop it. */
  function Effect(s: State, task: Task, next: Pc): State {
    if task.pc.Sleeping? && next.Woken? && Token(Bumps(s, task.instance)) == Token(task.born) then
      s.(pending := s.pending - {task.instance}, pendingNames := s.pendingNames - {task.instance})
    else if task.pc.Checked? && next.Advanced? then s.(generations := s.generations[task.instance := task.generation + 1])
    else if task.pc.Advanced? && next.Spawned? then Run(s, task.instance, task.generation + 1)
    else if task.pc.Spawned? && next.Stopped? then Halt(s, task.instance)
    else s
  }

  /** The lock is taken when it is entered and given back when the restart is over. */
  function NextLock(s: State, id: nat, from: Pc, to: Pc): Option<nat> {
    if HoldsLock(to) && !HoldsLock(from) then Some(id) else if HoldsLock(from) && !HoldsLock(to) then None else s.lock
  }

  function TaskStep(s: State, event: Event, id: nat, task: Task): State {
    var next := NextPc(s, event, task);
    Effect(s, task, next).(tasks := s.tasks[id := task.(pc := next)], lock := NextLock(s, id, task.pc, next))
  }

  function TaskOf(event: Event): Option<nat> {
    match event
    case Wake(t) => Some(t)
    case PreCheck(t) => Some(t)
    case TakeLock(t) => Some(t)
    case CheckUnderLock(t) => Some(t)
    case Advance(t) => Some(t)
    case Spawn(t, _) => Some(t)
    case Verify(t, _) => Some(t)
    case _ => None
  }

  /** User operations and guard actions hold the process lock for their whole step; cancellations do not take it. */
  function Step(s: State, event: Event): State {
    match event
    case Schedule(id, instance) =>
      if id in s.tasks then s
      else
        s.(tasks := s.tasks[id := Task(instance, Bumps(s, instance), Generation(s, instance), Sleeping)],
        pending := s.pending + {instance}, pendingNames := s.pendingNames + {instance})
    case CancelPending => BumpAll(s, Reached(s)).(pendingNames := {})
    case CancelInstance(instance) => Bump(s, instance)
    case UserStart(instance, advances) =>
      if s.lock.Some? || instance in s.runtime then s
      else
        var generation := Generation(s, instance) + (if advances then 1 else 0);
        Run(s.(generations := s.generations[instance := generation]), instance, generation)
    case Stop(instance) => if s.lock.Some? then s else Halt(s, instance)
    case GuardStop(key) => if s.lock.Some? || !OwnsCurrent(s, key) then s else Halt(s, key.instance)
    case ShutDown => s.(shuttingDown := true)
    case _ =>
      var id := TaskOf(event).value;
      if id in s.tasks then TaskStep(s, event, id, s.tasks[id]) else s
  }

  function Life(s: State, events: seq<Event>): State
    decreases |events|
  {
    if events == [] then s else Life(Step(s, events[0]), events[1..])
  }

  // ------------------------------------------------------------------- the invariant

  /** Before its check under the lock has let it through. */
  predicate IsEarly(pc: Pc) {
    pc.Sleeping? || pc.Woken? || pc.Waiting? || pc.Holding?
  }

  predicate IsOver(pc: Pc) {
    pc.Kept? || pc.Stopped? || pc.Escaped? || pc.GaveUp?
  }

  /** One task holds the lock. */
  ghost predicate LockIsHeld(s: State) {
    && (forall t :: t in s.tasks ==> (HoldsLock(s.tasks[t].pc) <==> s.lock == Some(t)))
    && (s.lock.Some? ==> s.lock.value in s.tasks)
  }

  /** The instance of a task past its check does not run. */
  ghost predicate CheckedIsIdle(s: State) {
    forall t :: t in s.tasks && (s.tasks[t].pc.Checked? || s.tasks[t].pc.Advanced?) ==> s.tasks[t].instance !in s.runtime
  }

  /** The child of a task that has just spawned runs. */
  ghost predicate SpawnedRuns(s: State) {
    forall t :: t in s.tasks && s.tasks[t].pc.Spawned? ==> s.tasks[t].instance in s.runtime
  }

  ghost predicate TokensGrow(s: State) {
    forall t :: t in s.tasks ==> s.tasks[t].born <= Bumps(s, s.tasks[t].instance)
  }

  /** Handles are never used twice. */
  ghost predicate HandlesGrow(s: State) {
    && (forall i :: i in s.runtime ==> s.runtime[i].handle < s.handles)
    && (forall i :: i in s.owners ==> s.owners[i].handle < s.handles)
  }

  ghost predicate Inv(s: State) {
    LockIsHeld(s) && CheckedIsIdle(s) && SpawnedRuns(s) && TokensGrow(s) && HandlesGrow(s)
  }

  predicate SameChildren(s: State, r: State) {
    r.runtime == s.runtime && r.owners == s.owners && r.handles == s.handles
  }

  /** A step touches one child: it starts one, halts one, or none. */
  ghost predicate TouchesOneChild(s: State, r: State) {
    || SameChildren(s, r)
    || (exists i, g :: SameChildren(Run(s, i, g), r))
    || (exists i :: SameChildren(Halt(s, i), r))
  }

  lemma TaskStepChildren(s: State, event: Event, id: nat, task: Task)
    ensures TouchesOneChild(s, TaskStep(s, event, id, task))
  {
    hide MayRestart, Token, Generation, Bumps, Run, Halt;
    hide NextPc;
    var r := TaskStep(s, event, id, task);
    assert SameChildren(s, r) || SameChildren(Run(s, task.instance, task.generation + 1), r) || SameChildren(Halt(s, task.instance), r);
  }

  lemma StepChildren(s: State, event: Event)
    ensures TouchesOneChild(s, Step(s, event))
  {
    var r := Step(s, event);
    if TaskOf(event).Some? {
      if TaskOf(event).value in s.tasks {
        TaskStepChildren(s, event, TaskOf(event).value, s.tasks[TaskOf(event).value]);
      }
      hide TaskStep, TouchesOneChild;
      assert SameChildren(s, s);
      assert TouchesOneChild(s, s) by { TouchesNone(s); }
    } else {
      hide TaskStep, OwnsCurrent, Token, MayRestart;
      match event
      case UserStart(instance, advances) =>
        assert SameChildren(s, r) || SameChildren(Run(s, instance, Generation(s, instance) + (if advances then 1 else 0)), r);
      case Stop(instance) => assert SameChildren(s, r) || SameChildren(Halt(s, instance), r);
      case GuardStop(key) => assert SameChildren(s, r) || SameChildren(Halt(s, key.instance), r);
      case _ =>
    }
  }

  lemma TouchesNone(s: State)
    ensures TouchesOneChild(s, s)
  {
  }

  lemma TaskStepTask(s: State, event: Event, id: nat, task: Task)
    requires id in s.tasks && s.tasks[id] == task
    ensures var r := TaskStep(s, event, id, task);
            r.tasks == s.tasks[id := task.(pc := NextPc(s, event, task))] && r.bumps == s.bumps
  {
    hide NextPc, Token, Bumps;
  }

  lemma StepTasks(s: State, event: Event)
    ensures var r := Step(s, event);
            && (forall t :: t in s.tasks ==> t in r.tasks && r.tasks[t] == s.tasks[t].(pc := r.tasks[t].pc)
                                             && (TaskOf(event) != Some(t) ==> r.tasks[t] == s.tasks[t]))
            && (forall t :: t in r.tasks && t !in s.tasks ==>
                  event == Schedule(t, r.tasks[t].instance) && r.tasks[t].born == Bumps(s, r.tasks[t].instance))
  {
    if TaskOf(event).Some? && TaskOf(event).value in s.tasks {
      TaskStepTask(s, event, TaskOf(event).value, s.tasks[TaskOf(event).value]);
    }
    hide TaskStep, OwnsCurrent, MayRestart, Generation, Bumps;
  }

  lemma TaskStepKeepsLock(s: State, event: Event, id: nat, task: Task)
    requires LockIsHeld(s) && id in s.tasks && s.tasks[id] == task
    ensures LockIsHeld(TaskStep(s, event, id, task))
  {
    hide MayRestart, Token, Generation, Bumps, Effect;
  }

  lemma StepKeepsLock(s: State, event: Event)
    requires LockIsHeld(s)
    ensures LockIsHeld(Step(s, event))
  {
    if TaskOf(event).Some? && TaskOf(event).value in s.tasks {
      TaskStepKeepsLock(s, event, TaskOf(event).value, s.tasks[TaskOf(event).value]);
    }
    hide TaskStep, OwnsCurrent, Token, Generation, Bumps;
  }

  /** A running child stays as it is or goes; only a task past its generation check starts one. */
  lemma TaskStepRuntime(s: State, event: Event, id: nat, task: Task, instance: nat)
    requires task.pc.Advanced? ==> task.instance !in s.runtime
    ensures var r := TaskStep(s, event, id, task);
            && (instance in s.runtime && instance in r.runtime ==> r.runtime[instance] == s.runtime[instance])
            && (instance !in s.runtime && instance in r.runtime ==>
                  instance == task.instance && task.pc.Advanced? && NextPc(s, event, task).Spawned?)
            && (instance in s.runtime && instance !in r.runtime ==>
                  instance == task.instance && task.pc.Spawned? && NextPc(s, event, task).Stopped?)
            && (task.pc.Advanced? && NextPc(s, event, task).Spawned? ==> task.instance in r.runtime)
  {
    hide MayRestart, Token, Generation, Bumps, NextPc;
  }

  /** Operations that hold the process lock throughout find it free. */
  lemma OtherRuntime(s: State, event: Event, instance: nat)
    requires TaskOf(event).None?
    ensures var r := Step(s, event);
            && (instance in s.runtime && instance in r.runtime ==> r.runtime[instance] == s.runtime[instance])
            && ((instance in s.runtime) != (instance in r.runtime) ==> s.lock.None?)
  {
    hide MayRestart, Token, Generation, Bumps, OwnsCurrent, TaskStep;
  }

  lemma TaskStepIs(s: State, event: Event, id: nat)
    requires TaskOf(event) == Some(id)
    ensures Step(s, event) == if id in s.tasks then TaskStep(s, event, id, s.tasks[id]) else s
  {
    hide TaskStep;
  }

  lemma NextIsIdle(s: State, event: Event, task: Task)
    requires task.pc.Checked? || task.pc.Advanced? ==> task.instance !in s.runtime
    ensures var next := NextPc(s, event, task); next.Checked? || next.Advanced? ==> task.instance !in s.runtime
  {
    hide Token, Generation, Bumps;
  }

  lemma TaskStepKeepsIdle(s: State, event: Event, id: nat)
    requires LockIsHeld(s) && CheckedIsIdle(s) && id in s.tasks
    ensures CheckedIsIdle(TaskStep(s, event, id, s.tasks[id]))
  {
    var task := s.tasks[id];
    var r := TaskStep(s, event, id, task);
    TaskStepTask(s, event, id, task);
    NextIsIdle(s, event, task);
    forall t | t in r.tasks && (r.tasks[t].pc.Checked? || r.tasks[t].pc.Advanced?) ensures r.tasks[t].instance !in r.runtime {
      TaskStepRuntime(s, event, id, task, r.tasks[t].instance);
      hide TaskStep, NextPc;
      assert task.pc.Advanced? && t != id ==> s.lock == Some(id);
    }
  }

  lemma StepKeepsIdle(s: State, event: Event)
    requires LockIsHeld(s) && CheckedIsIdle(s)
    ensures CheckedIsIdle(Step(s, event))
  {
    hide Step, TaskStep;
    if TaskOf(event).Some? {
      TaskStepIs(s, event, TaskOf(event).value);
      if TaskOf(event).value in s.tasks {
        TaskStepKeepsIdle(s, event, TaskOf(event).value);
      }
    } else {
      var r := Step(s, event);
      StepTasks(s, event);
      StepKeepsFreshAsleep(s, event);
      forall t | t in r.tasks && (r.tasks[t].pc.Checked? || r.tasks[t].pc.Advanced?) ensures r.tasks[t].instance !in r.runtime {
        OtherRuntime(s, event, r.tasks[t].instance);
      }
    }
  }

  lemma NextIsSpawned(s: State, event: Event, task: Task)
    ensures NextPc(s, event, task).Spawned? ==> task.pc.Spawned? || task.pc.Advanced?
  {
    hide Token, Generation, Bumps, MayRestart;
  }

  lemma TaskStepKeepsSpawned(s: State, event: Event, id: nat)
    requires LockIsHeld(s) && CheckedIsIdle(s) && SpawnedRuns(s) && id in s.tasks
    ensures SpawnedRuns(TaskStep(s, event, id, s.tasks[id]))
  {
    var task := s.tasks[id];
    var r := TaskStep(s, event, id, task);
    TaskStepTask(s, event, id, task);
    NextIsSpawned(s, event, task);
    forall t | t in r.tasks && r.tasks[t].pc.Spawned? ensures r.tasks[t].instance in r.runtime {
      TaskStepRuntime(s, event, id, task, r.tasks[t].instance);
      hide TaskStep, NextPc;
      assert task.pc.Spawned? && t != id ==> s.lock == Some(id);
    }
  }

  lemma StepKeepsSpawned(s: State, event: Event)
    requires LockIsHeld(s) && CheckedIsIdle(s) && SpawnedRuns(s)
    ensures SpawnedRuns(Step(s, event))
  {
    hide Step, TaskStep;
    if TaskOf(event).Some? {
      TaskStepIs(s, event, TaskOf(event).value);
      if TaskOf(event).value in s.tasks {
        TaskStepKeepsSpawned(s, event, TaskOf(event).value);
      }
    } else {
      var r := Step(s, event);
      StepTasks(s, event);
      StepKeepsFreshAsleep(s, event);
      forall t | t in r.tasks && r.tasks[t].pc.Spawned? ensures r.tasks[t].instance in r.runtime {
        OtherRuntime(s, event, r.tasks[t].instance);
      }
    }
  }

  lemma StepKeepsFreshAsleep(s: State, event: Event)
    ensures var r := Step(s, event); forall t :: t in r.tasks && t !in s.tasks ==> r.tasks[t].pc.Sleeping?
  {
    hide MayRestart, Token, Generation, Bumps, OwnsCurrent, NextPc, Effect, NextLock, HoldsLock;
    if TaskOf(event).Some? && TaskOf(event).value in s.tasks {
      TaskStepTask(s, event, TaskOf(event).value, s.tasks[TaskOf(event).value]);
      hide TaskStep;
    }
  }

  lemma StepKeepsTokens(s: State, event: Event)
    requires TokensGrow(s)
    ensures TokensGrow(Step(s, event))
  {
    forall i ensures Bumps(s, i) <= Bumps(Step(s, event), i) {
      StepOnlyBumps(s, event, i);
    }
    StepTasks(s, event);
    hide Step, Bumps;
  }

  lemma StepKeepsHandles(s: State, event: Event)
    requires HandlesGrow(s)
    ensures HandlesGrow(Step(s, event)) && s.handles <= Step(s, event).handles
  {
    StepChildren(s, event);
    hide Step;
  }

  lemma StepKeepsInv(s: State, event: Event)
    requires Inv(s)
    ensures Inv(Step(s, event))
  {
    StepKeepsLock(s, event);
    StepKeepsIdle(s, event);
    StepKeepsSpawned(s, event);
    StepKeepsTokens(s, event);
    StepKeepsHandles(s, event);
    hide Step, LockIsHeld, CheckedIsIdle, SpawnedRuns, TokensGrow, HandlesGrow;
  }

  lemma {:induction false} LifeKeepsInv(s: State, events: seq<Event>)
    requires Inv(s)
    ensures Inv(Life(s, events))
    decreases |events|
  {
    hide Inv, Step;
    if events != [] {
      StepKeepsInv(s, events[0]);
      LifeKeepsInv(Step(s, events[0]), events[1..]);
    }
  }

  /** A task only spawns where nothing runs: an instance never has two children. */
  lemma SpawnsAreExclusive(s: State, event: Event, instance: nat)
    requires Inv(s) && instance in s.runtime
    ensures var r := Step(s, event); instance in r.runtime ==> r.runtime[instance] == s.runtime[instance]
  {
    hide Step, TaskStep;
    if TaskOf(event).Some? {
      TaskStepIs(s, event, TaskOf(event).value);
      if TaskOf(event).value in s.tasks {
        TaskStepRuntime(s, event, TaskOf(event).value, s.tasks[TaskOf(event).value], instance);
      }
    } else {
      OtherRuntime(s, event, instance);
    }
  }

  // ------------------------------------------------------------------- fencing by token

  /** The wrapped token of a task differs from the current one exactly when the bumps since are no multiple of the token space. */
  lemma TokensDifferIff(born: nat, bumps: nat)
    requires born <= bumps
    ensures Token(born) == Token(bumps) <==> (bumps - born) % TOKENS == 0
    ensures 0 < bumps - born < TOKENS ==> Token(born) != Token(bumps)
  {
    var q, r := born / TOKENS, born % TOKENS;
    var d := bumps - born;
    assert bumps == TOKENS * q + (r + d);
    assert (r + d) % TOKENS == bumps % TOKENS by { ModShift(q, r + d); }
    var qd, rd := d / TOKENS, d % TOKENS;
    assert r + d == TOKENS * qd + (r + rd);
    ModShift(qd, r + rd);
  }

  lemma ModShift(q: int, x: nat)
    requires TOKENS * q + x >= 0
    ensures (TOKENS * q + x) % TOKENS == x % TOKENS
  {
  }

  predicate Bumped(s: State, id: nat)
    requires id in s.tasks
  {
    Bumps(s, s.tasks[id].instance) > s.tasks[id].born
  }

  lemma StepKeepsTask(s: State, event: Event, id: nat)
    requires id in s.tasks
    ensures var r := Step(s, event);
            && id in r.tasks && r.tasks[id] == s.tasks[id].(pc := r.tasks[id].pc)
            && (TaskOf(event) != Some(id) ==> r.tasks[id] == s.tasks[id])
  {
    StepTasks(s, event);
    hide Step;
  }

  /** A task whose token was bumped before its check under the lock only ever gives up. */
  lemma BumpedStepGivesUp(s: State, event: Event, id: nat)
    requires id in s.tasks && Bumped(s, id)
    requires Bumps(s, s.tasks[id].instance) - s.tasks[id].born < TOKENS
    requires IsEarly(s.tasks[id].pc) || s.tasks[id].pc == GaveUp
    ensures var r := Step(s, event); id in r.tasks && (IsEarly(r.tasks[id].pc) || r.tasks[id].pc == GaveUp)
  {
    TokensDifferIff(s.tasks[id].born, Bumps(s, s.tasks[id].instance));
    assert !MayRestart(s, s.tasks[id]);
    StepKeepsTask(s, event, id);
    hide MayRestart, OwnsCurrent, Token, Generation, Bumps;
    if TaskOf(event) != Some(id) {
      hide Step;
    }
  }

  /**
    In every interleaving a pending restart whose token was bumped before its check under the lock never spawns,
    as long as the token has not been bumped all the way around.
   */
  lemma {:induction false} BumpedNeverSpawns(s: State, events: seq<Event>, id: nat)
    requires Inv(s) && id in s.tasks && Bumped(s, id)
    requires IsEarly(s.tasks[id].pc) || s.tasks[id].pc == GaveUp
    requires Bumps(Life(s, events), s.tasks[id].instance) - s.tasks[id].born < TOKENS
    ensures var r := Life(s, events); id in r.tasks && (IsEarly(r.tasks[id].pc) || r.tasks[id].pc == GaveUp)
    decreases |events|
  {
    if events != [] {
      var next := Step(s, events[0]);
      StepKeepsInv(s, events[0]);
      StepKeepsTask(s, events[0], id);
      StepOnlyBumps(s, events[0], s.tasks[id].instance);
      LifeOnlyBumps(s, events, s.tasks[id].instance);
      BumpedStepGivesUp(s, events[0], id);
      hide Inv, Step;
      BumpedNeverSpawns(next, events[1..], id);
    }
  }

  lemma StepOnlyBumps(s: State, event: Event, instance: nat)
    ensures Bumps(s, instance) <= Bumps(Step(s, event), instance)
  {
    if TaskOf(event).Some? {
      TaskStepIs(s, event, TaskOf(event).value);
      if TaskOf(event).value in s.tasks {
        TaskStepTask(s, event, TaskOf(event).value, s.tasks[TaskOf(event).value]);
      }
      hide Step, TaskStep;
    }
    hide MayRestart, OwnsCurrent, TaskStep;
  }

  lemma {:induction false} LifeOnlyBumps(s: State, events: seq<Event>, instance: nat)
    ensures Bumps(s, instance) <= Bumps(Life(s, events), instance)
    decreases |events|
  {
    if events != [] {
      StepOnlyBumps(s, events[0], instance);
      hide Step;
      LifeOnlyBumps(Step(s, events[0]), events[1..], instance);
    }
  }

  /** From its check under the lock on, a bumped task is never kept. */
  predicate IsNeverKept(pc: Pc) {
    pc.Checked? || pc.Advanced? || pc.Spawned? || pc.Stopped? || pc.Escaped? || pc.GaveUp?
  }

  lemma BumpedStepIsNotKept(s: State, event: Event, id: nat)
    requires id in s.tasks && Bumped(s, id)
    requires Bumps(s, s.tasks[id].instance) - s.tasks[id].born < TOKENS
    requires IsNeverKept(s.tasks[id].pc)
    ensures var r := Step(s, event); id in r.tasks && IsNeverKept(r.tasks[id].pc)
  {
    TokensDifferIff(s.tasks[id].born, Bumps(s, s.tasks[id].instance));
    StepKeepsTask(s, event, id);
    hide OwnsCurrent, MayRestart, Token, Generation, Bumps;
    if TaskOf(event) != Some(id) {
      hide Step;
    }
  }

  /** A restart bumped after its check under the lock is never kept. */
  lemma {:induction false} BumpedDuringSpawnIsNotKept(s: State, events: seq<Event>, id: nat)
    requires Inv(s) && id in s.tasks && Bumped(s, id) && IsNeverKept(s.tasks[id].pc)
    requires Bumps(Life(s, events), s.tasks[id].instance) - s.tasks[id].born < TOKENS
    ensures var r := Life(s, events); id in r.tasks && IsNeverKept(r.tasks[id].pc)
    decreases |events|
  {
    if events != [] {
      StepKeepsInv(s, events[0]);
      StepKeepsTask(s, events[0], id);
      StepOnlyBumps(s, events[0], s.tasks[id].instance);
      LifeOnlyBumps(s, events, s.tasks[id].instance);
      BumpedStepIsNotKept(s, events[0], id);
      hide Inv, Step;
      BumpedDuringSpawnIsNotKept(Step(s, events[0]), events[1..], id);
    }
  }

  /** While its task holds the lock and has not verified it, nothing stops or replaces a spawned child. */
  lemma SpawnedChildStays(s: State, event: Event, id: nat)
    requires Inv(s) && id in s.tasks && s.tasks[id].pc == Spawned && !(event.Verify? && event.task == id)
    ensures var r, instance := Step(s, event), s.tasks[id].instance;
            && id in r.tasks && r.tasks[id] == s.tasks[id]
            && instance in s.runtime && instance in r.runtime && r.runtime[instance] == s.runtime[instance]
  {
    var instance := s.tasks[id].instance;
    assert s.lock == Some(id) && instance in s.runtime;
    if TaskOf(event).Some? {
      TaskStepIs(s, event, TaskOf(event).value);
      if TaskOf(event).value in s.tasks {
        var task := s.tasks[TaskOf(event).value];
        assert TaskOf(event).value != id ==> !HoldsLock(task.pc);
        TaskStepTask(s, event, TaskOf(event).value, task);
        TaskStepRuntime(s, event, TaskOf(event).value, task, instance);
        assert TaskOf(event).value == id ==> NextPc(s, event, task) == Spawned;
      }
      hide Step, TaskStep, Inv, NextPc;
    } else {
      StepTasks(s, event);
      OtherRuntime(s, event, instance);
      hide Step, Inv;
    }
  }

  /** Verification of a bumped child: it survives exactly when its stop does not happen, and then as the same child. */
  lemma BumpedChildSurvivesIff(s: State, id: nat, stops: bool)
    requires Inv(s) && id in s.tasks && s.tasks[id].pc == Spawned && Bumped(s, id)
    requires Bumps(s, s.tasks[id].instance) - s.tasks[id].born < TOKENS
    ensures var r, instance := Step(s, Verify(id, stops)), s.tasks[id].instance;
            && instance in s.runtime
            && (instance in r.runtime <==> !stops) && (!stops ==> r.runtime[instance] == s.runtime[instance])
            && id in r.tasks && r.tasks[id] == s.tasks[id].(pc := if stops then Stopped else Escaped)
            && r.handles == s.handles
  {
    TokensDifferIff(s.tasks[id].born, Bumps(s, s.tasks[id].instance));
    hide Token, Bumps, MayRestart, Generation;
  }

  /** The outcome of the first verification of a task among these events. */
  function Verdict(events: seq<Event>, id: nat): Option<bool>
    decreases |events|
  {
    if events == [] then None
    else if events[0].Verify? && events[0].task == id then Some(events[0].stops)
    else Verdict(events[1..], id)
  }

  /** A child whose native handle is not in use, now or ever again. */
  predicate IsDead(s: State, child: Entry, instance: nat) {
    child.handle < s.handles && (instance in s.runtime ==> s.runtime[instance].handle != child.handle)
  }

  lemma DeadStays(s: State, event: Event, child: Entry, instance: nat)
    requires IsDead(s, child, instance)
    ensures IsDead(Step(s, event), child, instance)
  {
    StepChildren(s, event);
    hide Step;
  }

  lemma OverStays(s: State, event: Event, id: nat)
    requires id in s.tasks && IsOver(s.tasks[id].pc)
    ensures var r := Step(s, event); id in r.tasks && r.tasks[id] == s.tasks[id]
  {
    StepKeepsTask(s, event, id);
    hide OwnsCurrent, MayRestart, Token, Generation, Bumps;
    if TaskOf(event) != Some(id) {
      hide Step;
    }
  }

  lemma {:induction false} StoppedForever(s: State, events: seq<Event>, id: nat, child: Entry)
    requires id in s.tasks && IsOver(s.tasks[id].pc)
    ensures var r := Life(s, events);
            && id in r.tasks && r.tasks[id] == s.tasks[id]
            && (IsDead(s, child, s.tasks[id].instance) ==> IsDead(r, child, s.tasks[id].instance))
    decreases |events|
  {
    hide Step, IsDead;
    if events != [] {
      OverStays(s, events[0], id);
      if IsDead(s, child, s.tasks[id].instance) {
        DeadStays(s, events[0], child, s.tasks[id].instance);
      }
      StoppedForever(Step(s, events[0]), events[1..], id, child);
    }
  }

  lemma FreshHandle(s: State, instance: nat)
    requires Inv(s) && instance in s.runtime
    ensures s.runtime[instance].handle < s.handles
  {
  }

  /**
    The child of a restart bumped while it spawned: it runs undisturbed until its restart verifies it; once its stop has
    happened it is gone and never comes back; without that stop the restart ends and the child has escaped.
   */
  lemma {:induction false} BumpedChildFate(s: State, events: seq<Event>, id: nat)
    requires Inv(s) && id in s.tasks && s.tasks[id].pc == Spawned && Bumped(s, id)
    requires Bumps(Life(s, events), s.tasks[id].instance) - s.tasks[id].born < TOKENS
    ensures s.tasks[id].instance in s.runtime
    ensures var r, instance := Life(s, events), s.tasks[id].instance;
            id in r.tasks
            && match Verdict(events, id)
               case None => r.tasks[id].pc == Spawned && instance in r.runtime && r.runtime[instance] == s.runtime[instance]
               case Some(true) => r.tasks[id].pc == Stopped && IsDead(r, s.runtime[instance], instance)
               case Some(false) => r.tasks[id].pc == Escaped
    decreases |events|
  {
    var instance := s.tasks[id].instance;
    assert instance in s.runtime;
    if events != [] {
      var next := Step(s, events[0]);
      StepOnlyBumps(s, events[0], instance);
      LifeOnlyBumps(s, events, instance);
      FreshHandle(s, instance);
      if events[0].Verify? && events[0].task == id {
        BumpedChildSurvivesIff(s, id, events[0].stops);
        hide Inv, Step;
        assert events[0].stops ==> IsDead(next, s.runtime[instance], instance);
        hide IsDead;
        StoppedForever(next, events[1..], id, s.runtime[instance]);
      } else {
        StepKeepsInv(s, events[0]);
        SpawnedChildStays(s, events[0], id);
        hide Inv, Step, IsDead;
        BumpedChildFate(next, events[1..], id);
      }
    }
  }

  // ------------------------------------------------------------------- cancellation

  /** Cancelling by name bumps exactly the instances that are still listed or are running. */
  lemma CancelReachesIff(s: State, instance: nat)
    ensures Bumps(Step(s, CancelPending), instance) == Bumps(s, instance) + (if instance in Reached(s) then 1 else 0)
  {
  }

  /** The rest of a restart's way from its timer, undisturbed. */
  function Onwards(pc: Pc, id: nat): seq<Event> {
    var last := [CheckUnderLock(id), Advance(id), Spawn(id, true), Verify(id, true)];
    if pc.Woken? then [PreCheck(id)] + ([TakeLock(id)] + last) else if pc.Waiting? then [TakeLock(id)] + last else last
  }

  /** Past its timer, before its check under the lock, and nobody in its way. */
  predicate IsBetweenTimerAndCheck(s: State, id: nat) {
    && id in s.tasks && MayRestart(s, s.tasks[id]) && s.tasks[id].generation == Generation(s, s.tasks[id].instance)
    && match s.tasks[id].pc
       case Woken => s.lock.None?
       case Waiting => s.lock.None?
       case Holding => s.lock == Some(id)
       case _ => false
  }

  lemma PreChecks(s: State, id: nat)
    requires IsBetweenTimerAndCheck(s, id) && s.tasks[id].pc == Woken
    ensures var r := Step(s, PreCheck(id));
            r == s.(tasks := s.tasks[id := s.tasks[id].(pc := Waiting)]) && IsBetweenTimerAndCheck(r, id)
  {
    hide Token;
  }

  lemma TakesLock(s: State, id: nat)
    requires IsBetweenTimerAndCheck(s, id) && s.tasks[id].pc == Waiting
    ensures var r := Step(s, TakeLock(id));
            r == s.(tasks := s.tasks[id := s.tasks[id].(pc := Holding)], lock := Some(id)) && IsBetweenTimerAndCheck(r, id)
  {
    hide Token;
  }

  lemma ChecksUnderLock(s: State, id: nat)
    requires IsBetweenTimerAndCheck(s, id) && s.tasks[id].pc == Holding
    ensures Step(s, CheckUnderLock(id)) == s.(tasks := s.tasks[id := s.tasks[id].(pc := Checked)])
  {
    hide Token;
  }

  lemma AdvancesAndKeeps(s: State, id: nat)
    requires id in s.tasks && s.tasks[id].pc == Checked && s.tasks[id].generation == Generation(s, s.tasks[id].instance)
    requires Token(Bumps(s, s.tasks[id].instance)) == Token(s.tasks[id].born)
    ensures var r := Step(Step(Step(s, Advance(id)), Spawn(id, true)), Verify(id, true));
            s.tasks[id].instance in r.runtime && id in r.tasks && r.tasks[id].pc == Kept
  {
    hide Token, MayRestart;
    var s4 := Step(s, Advance(id));
    assert s4.tasks[id] == s.tasks[id].(pc := Advanced) && s4.bumps == s.bumps;
    var s5 := Step(s4, Spawn(id, true));
    assert s5.tasks[id] == s.tasks[id].(pc := Spawned) && s5.bumps == s.bumps;
  }

  /** An undisturbed restart, step by step. */
  lemma OnwardsFrom(s: State, id: nat)
    requires IsBetweenTimerAndCheck(s, id)
    ensures var r := Life(s, Onwards(s.tasks[id].pc, id)); s.tasks[id].instance in r.runtime && id in r.tasks && r.tasks[id].pc == Kept
    decreases if s.tasks[id].pc.Woken? then 2 else if s.tasks[id].pc.Waiting? then 1 else 0
  {
    hide Step, Life, MayRestart;
    var last := [CheckUnderLock(id), Advance(id), Spawn(id, true), Verify(id, true)];
    match s.tasks[id].pc
    case Woken =>
      PreChecks(s, id);
      LifeCons(s, PreCheck(id), [TakeLock(id)] + last);
      OnwardsFrom(Step(s, PreCheck(id)), id);
    case Waiting =>
      TakesLock(s, id);
      LifeCons(s, TakeLock(id), last);
      OnwardsFrom(Step(s, TakeLock(id)), id);
    case Holding =>
      ChecksUnderLock(s, id);
      MayRestartIs(s, id);
      AdvancesAndKeeps(Step(s, CheckUnderLock(id)), id);
      FourSteps(s, CheckUnderLock(id), Advance(id), Spawn(id, true), Verify(id, true));
  }

  lemma MayRestartIs(s: State, id: nat)
    requires id in s.tasks && MayRestart(s, s.tasks[id])
    ensures Token(Bumps(s, s.tasks[id].instance)) == Token(s.tasks[id].born)
  {
  }

  lemma LifeCons(s: State, event: Event, rest: seq<Event>)
    ensures Life(s, [event] + rest) == Life(Step(s, event), rest)
  {
    hide Step;
    assert ([event] + rest)[1..] == rest;
  }

  lemma FourSteps(s: State, a: Event, b: Event, c: Event, d: Event)
    ensures Life(s, [a, b, c, d]) == Step(Step(Step(Step(s, a), b), c), d)
  {
    hide *;
    var s1, s2, s3 := Step(s, a), Step(Step(s, a), b), Step(Step(Step(s, a), b), c);
    assert [a, b, c, d] == [a] + ([b] + ([c] + ([d] + [])));
    LifeCons(s, a, [b] + ([c] + ([d] + [])));
    LifeCons(s1, b, [c] + ([d] + []));
    LifeCons(s2, c, [d] + []);
    LifeCons(s3, d, []);
    LifeEnds(Step(s3, d));
  }

  lemma LifeEnds(s: State)
    ensures Life(s, []) == s
  {
  }

  /**
    A task past its timer is no longer listed.  A cancellation by name that falls anywhere between the timer and the
    check under the lock stops it in every continuation exactly when its instance is listed again by another restart;
    otherwise it still spawns and keeps a child.
   */
  lemma CancelStopsRestartIff(s: State, id: nat)
    requires Inv(s) && IsBetweenTimerAndCheck(s, id) && Bumps(s, s.tasks[id].instance) == s.tasks[id].born
    ensures var r := Life(Step(s, CancelPending), Onwards(s.tasks[id].pc, id));
            id in r.tasks && (r.tasks[id].pc == Kept <==> s.tasks[id].instance !in s.pendingNames)
  {
    var instance, cancelled, events := s.tasks[id].instance, Step(s, CancelPending), Onwards(s.tasks[id].pc, id);
    CancelReachesIff(s, instance);
    StepKeepsInv(s, CancelPending);
    assert cancelled.tasks == s.tasks && cancelled.runtime == s.runtime && cancelled.lock == s.lock
        && cancelled.generations == s.generations && cancelled.shuttingDown == s.shuttingDown;
    assert instance !in s.runtime;
    hide Step, Life, Inv, Reached;
    if instance !in s.pendingNames {
      assert MayRestart(cancelled, s.tasks[id]) by { assert instance !in Reached(s) by { ReachedIs(s); } }
      OnwardsFrom(cancelled, id);
    } else {
      assert instance in Reached(s) by { ReachedIs(s); }
      OnwardsBumpsNothing(cancelled, s.tasks[id].pc, id);
      BumpedNeverSpawns(cancelled, events, id);
    }
  }

  lemma ReachedIs(s: State)
    ensures Reached(s) == s.pendingNames + s.runtime.Keys
  {
  }

  lemma OnwardsBumpsNothing(s: State, pc: Pc, id: nat)
    ensures Life(s, Onwards(pc, id)).bumps == s.bumps
  {
    TaskEventsBumpNothing(s, Onwards(pc, id));
  }

  lemma {:induction false} TaskEventsBumpNothing(s: State, events: seq<Event>)
    requires forall i :: 0 <= i < |events| ==> TaskOf(events[i]).Some?
    ensures Life(s, events).bumps == s.bumps
    decreases |events|
  {
    if events != [] {
      assert TaskOf(events[0]).Some?;
      assert Step(s, events[0]).bumps == s.bumps by { hide MayRestart, Token, Generation, Bumps; }
      hide Step;
      assert forall i :: 0 <= i < |events[1..]| ==> events[1..][i] == events[i + 1];
      TaskEventsBumpNothing(Step(s, events[0]), events[1..]);
    }
  }

  // ------------------------------------------------------------------- the pending lists

  predicate Schedules(s: State, event: Event, instance: nat) {
    event.Schedule? && event.task !in s.tasks && event.instance == instance
  }

  /** The timer of a restart of this instance fires, and its token is still the one it was scheduled with. */
  predicate WakesCurrent(s: State, event: Event, instance: nat) {
    event.Wake? && event.task in s.tasks && var task := s.tasks[event.task];
    task.instance == instance && task.pc.Sleeping? && Token(Bumps(s, instance)) == Token(task.born)
  }

  /** What moves a token, and by how much. */
  lemma BumpsAre(s: State, event: Event, instance: nat)
    ensures Bumps(Step(s, event), instance) == Bumps(s, instance) + if CancelsInstance(s, event, instance) then 1 else 0
  {
    if TaskOf(event).Some? {
      TaskStepIs(s, event, TaskOf(event).value);
      if TaskOf(event).value in s.tasks {
        TaskStepTask(s, event, TaskOf(event).value, s.tasks[TaskOf(event).value]);
      }
      hide Step, TaskStep;
    }
    hide MayRestart, OwnsCurrent, TaskStep, Halt, Run;
  }

  predicate CancelsInstance(s: State, event: Event, instance: nat) {
    event == CancelInstance(instance) || (event.CancelPending? && (instance in s.pendingNames || instance in s.runtime))
  }

  /** An instance is listed under the name from its scheduling until the first of its current restarts wakes, or the name is cancelled. */
  lemma ListedIff(s: State, event: Event, instance: nat)
    ensures instance in Step(s, event).pendingNames
       <==> Schedules(s, event, instance)
            || (instance in s.pendingNames && !event.CancelPending? && !WakesCurrent(s, event, instance))
  {
    if TaskOf(event).None? {
      hide TaskStep;
    }
    hide MayRestart, OwnsCurrent, Token, Bumps, NextLock;
  }

  /** It is reported as about to restart just as long, or until the instance itself is cancelled. */
  lemma PendingIff(s: State, event: Event, instance: nat)
    ensures instance in Step(s, event).pending
       <==> Schedules(s, event, instance)
            || (instance in s.pending && !CancelsInstance(s, event, instance) && !WakesCurrent(s, event, instance))
  {
    if TaskOf(event).None? {
      hide TaskStep;
    }
    hide MayRestart, OwnsCurrent, Token, Bumps, NextLock;
  }

  /** No timer of a restart of this instance fires among these events, and no one cancels the name. */
  predicate LeavesListed(s: State, events: seq<Event>, instance: nat)
    decreases |events|
  {
    events == []
    || (!events[0].CancelPending? && !WakesCurrent(s, events[0], instance) && LeavesListed(Step(s, events[0]), events[1..], instance))
  }

  /** A history grows at its end: the next event happens in the state the others have led to. */
  lemma {:induction false} LifeSnoc(s: State, events: seq<Event>, event: Event, instance: nat)
    ensures Life(s, events + [event]) == Step(Life(s, events), event)
    ensures LeavesListed(s, events + [event], instance)
       <==> LeavesListed(s, events, instance) && !event.CancelPending? && !WakesCurrent(Life(s, events), event, instance)
    decreases |events|
  {
    if events == [] {
      assert [] + [event] == [event] && [event][1..] == [];
    } else {
      assert (events + [event])[1..] == events[1..] + [event];
      LifeSnoc(Step(s, events[0]), events[1..], event, instance);
    }
  }

  lemma {:induction false} StaysListed(s: State, events: seq<Event>, instance: nat)
    requires instance in s.pendingNames && LeavesListed(s, events, instance)
    ensures instance in Life(s, events).pendingNames
    decreases |events|
  {
    hide Step, WakesCurrent;
    if events != [] {
      ListedIff(s, events[0], instance);
      StaysListed(Step(s, events[0]), events[1..], instance);
    }
  }

  lemma {:induction false} LifeKeepsTask(s: State, events: seq<Event>, id: nat)
    requires id in s.tasks
    ensures var r := Life(s, events); id in r.tasks && r.tasks[id] == s.tasks[id].(pc := r.tasks[id].pc)
    decreases |events|
  {
    hide Step;
    if events != [] {
      StepKeepsTask(s, events[0], id);
      LifeKeepsTask(Step(s, events[0]), events[1..], id);
    }
  }

  /**
    What a cancellation by name is for: it stops every restart scheduled before it that has not yet passed its check
    under the lock, as long as no current restart of the same instance has woken in between - whatever happens before
    and afterwards.
   */
  lemma CancelledRestartNeverSpawns(s: State, id: nat, instance: nat, before: seq<Event>, after: seq<Event>)
    requires Inv(s) && id !in s.tasks && LeavesListed(Step(s, Schedule(id, instance)), before, instance)
    requires var cancelled := Step(Life(Step(s, Schedule(id, instance)), before), CancelPending);
             id in cancelled.tasks && IsEarly(cancelled.tasks[id].pc)
             && Bumps(Life(cancelled, after), instance) < Bumps(s, instance) + TOKENS
    ensures var r := Life(Step(Life(Step(s, Schedule(id, instance)), before), CancelPending), after);
            id in r.tasks && r.tasks[id].instance == instance && (IsEarly(r.tasks[id].pc) || r.tasks[id].pc == GaveUp)
  {
    var scheduled := Step(s, Schedule(id, instance));
    assert scheduled.tasks[id] == Task(instance, Bumps(s, instance), Generation(s, instance), Sleeping);
    hide Step, Life, Bumps, Generation, Inv, Token, LeavesListed;
    var listed := Life(scheduled, before);
    ListedIff(s, Schedule(id, instance), instance);
    StaysListed(scheduled, before, instance);
    LifeKeepsTask(scheduled, before, id);
    StepKeepsInv(s, Schedule(id, instance));
    LifeKeepsInv(scheduled, before);
    StepKeepsInv(listed, CancelPending);
    StepKeepsTask(listed, CancelPending, id);
    BumpsAre(listed, CancelPending, instance);
    BornBefore(listed, id);
    LifeKeepsTask(Step(listed, CancelPending), after, id);
    BumpedNeverSpawns(Step(listed, CancelPending), after, id);
  }

  lemma BornBefore(s: State, id: nat)
    requires Inv(s) && id in s.tasks
    ensures s.tasks[id].born <= Bumps(s, s.tasks[id].instance)
  {
    hide Bumps;
  }

  lemma ShutDownStep(s: State, event: Event, id: nat)
    requires s.shuttingDown && id in s.tasks && (IsEarly(s.tasks[id].pc) || s.tasks[id].pc == GaveUp)
    ensures var r := Step(s, event); r.shuttingDown && id in r.tasks && (IsEarly(r.tasks[id].pc) || r.tasks[id].pc == GaveUp)
  {
    assert !MayRestart(s, s.tasks[id]);
    StepKeepsTask(s, event, id);
    hide MayRestart, OwnsCurrent, Token, Generation, Bumps;
  }

  lemma {:induction false} DownStaysDown(s: State, events: seq<Event>, id: nat)
    requires s.shuttingDown && id in s.tasks && (IsEarly(s.tasks[id].pc) || s.tasks[id].pc == GaveUp)
    ensures var r := Life(s, events); id in r.tasks && (IsEarly(r.tasks[id].pc) || r.tasks[id].pc == GaveUp)
    decreases |events|
  {
    hide Step;
    if events != [] {
      ShutDownStep(s, events[0], id);
      DownStaysDown(Step(s, events[0]), events[1..], id);
    }
  }

  /** Once the daemon shuts down, no restart that has not passed its check under the lock ever spawns. */
  lemma ShutDownStopsRestarts(s: State, events: seq<Event>, id: nat)
    requires id in s.tasks && IsEarly(s.tasks[id].pc)
    ensures var r := Life(Step(s, ShutDown), events); id in r.tasks && (IsEarly(r.tasks[id].pc) || r.tasks[id].pc == GaveUp)
  {
    DownStaysDown(Step(s, ShutDown), events, id);
    hide Life;
  }

  // ------------------------------------------------------------------- who owns a child

  /** A running child has the current generation of its instance and is owned by the guard of exactly that child. */
  ghost predicate ChildrenAreOwned(s: State) {
    && s.owners.Keys == s.runtime.Keys
    && (forall i :: i in s.runtime ==>
          s.runtime[i].generation == Generation(s, i) && s.owners[i] == Key(i, s.runtime[i].generation, s.runtime[i].handle))
  }

  /** A child of this instance starts. */
  predicate Starts(s: State, event: Event, instance: nat) {
    || (event.UserStart? && event.instance == instance && s.lock.None? && instance !in s.runtime)
    || (event.Spawn? && event.succeeds && event.task in s.tasks && s.tasks[event.task].pc.Advanced? && s.tasks[event.task].instance == instance)
  }

  /** The child of this instance is stopped: by the user, by its own guard, or by a restart whose token has moved on. */
  predicate Stops(s: State, event: Event, instance: nat) {
    || (event == Stop(instance) && s.lock.None?)
    || (event.GuardStop? && event.key.instance == instance && OwnsCurrent(s, event.key) && s.lock.None?)
    || (event.Verify? && event.stops && event.task in s.tasks && s.tasks[event.task].pc.Spawned? && s.tasks[event.task].instance == instance
        && Token(Bumps(s, instance)) != Token(s.tasks[event.task].born))
  }

  /** An instance runs after a step if and only if the step starts it, with a handle never used before, or it ran and is not stopped. */
  lemma RunsIff(s: State, event: Event, instance: nat)
    ensures instance in Step(s, event).runtime <==> Starts(s, event, instance) || (instance in s.runtime && !Stops(s, event, instance))
    ensures Starts(s, event, instance) ==> Step(s, event).runtime[instance].handle == s.handles && Step(s, event).handles == s.handles + 1
  {
    hide MayRestart, Token, Bumps, Generation;
    if TaskOf(event).Some? {
      TaskStepIs(s, event, TaskOf(event).value);
      if TaskOf(event).value in s.tasks {
        var task := s.tasks[TaskOf(event).value];
        TaskStepIsEffect(s, event, TaskOf(event).value, task);
        NextStartsOrStops(s, event, task);
        hide NextPc;
      }
      hide Step, TaskStep;
    }
    hide TaskStep;
  }

  lemma NextStartsOrStops(s: State, event: Event, task: Task)
    ensures task.pc.Advanced? && NextPc(s, event, task).Spawned? <==> event.Spawn? && event.succeeds && task.pc.Advanced?
    ensures task.pc.Spawned? && NextPc(s, event, task).Stopped?
       <==> event.Verify? && event.stops && task.pc.Spawned? && Token(Bumps(s, task.instance)) != Token(task.born)
  {
    hide MayRestart, Token, Bumps, Generation;
  }

  /** A restart that is of no use any more when it wakes gives up there and then, and never waits for the lock. */
  lemma UselessRestartGivesUp(s: State, events: seq<Event>, id: nat)
    requires id in s.tasks && s.tasks[id].pc == Woken
    requires s.shuttingDown || s.tasks[id].instance in s.runtime || Token(Bumps(s, s.tasks[id].instance)) != Token(s.tasks[id].born)
    ensures var r := Life(Step(s, PreCheck(id)), events); id in r.tasks && r.tasks[id] == s.tasks[id].(pc := GaveUp)
  {
    var given := Step(s, PreCheck(id));
    assert given.tasks[id] == s.tasks[id].(pc := GaveUp);
    hide Step, Life;
    StoppedForever(given, events, id, Entry(0, 0));
  }

  /** Nobody else advances a generation while the restart that advanced it is about to start its child. */
  ghost predicate AdvancedIsCurrent(s: State) {
    forall t :: t in s.tasks && s.tasks[t].pc.Advanced? ==> Generation(s, s.tasks[t].instance) == s.tasks[t].generation + 1
  }

  lemma TaskStepIsEffect(s: State, event: Event, id: nat, task: Task)
    ensures var r, e := TaskStep(s, event, id, task), Effect(s, task, NextPc(s, event, task));
            SameChildren(r, e) && r.generations == e.generations
  {
    hide Effect, NextPc, NextLock;
  }

  lemma EffectKeepsOwners(s: State, task: Task, next: Pc)
    requires ChildrenAreOwned(s)
    requires task.pc.Checked? || task.pc.Advanced? ==> task.instance !in s.runtime
    requires task.pc.Advanced? ==> Generation(s, task.instance) == task.generation + 1
    ensures ChildrenAreOwned(Effect(s, task, next))
  {
    hide Token, Bumps;
  }

  lemma SameIsOwned(s: State, r: State)
    requires ChildrenAreOwned(s) && SameChildren(r, s) && r.generations == s.generations
    ensures ChildrenAreOwned(r)
  {
  }

  lemma TaskStepKeepsOwners(s: State, event: Event, id: nat)
    requires Inv(s) && ChildrenAreOwned(s) && AdvancedIsCurrent(s) && id in s.tasks
    ensures ChildrenAreOwned(TaskStep(s, event, id, s.tasks[id]))
  {
    hide TaskStep, NextPc, Effect, Generation, ChildrenAreOwned, SameChildren, LockIsHeld, SpawnedRuns, TokensGrow, HandlesGrow;
    TaskStepIsEffect(s, event, id, s.tasks[id]);
    EffectKeepsOwners(s, s.tasks[id], NextPc(s, event, s.tasks[id]));
    SameIsOwned(Effect(s, s.tasks[id], NextPc(s, event, s.tasks[id])), TaskStep(s, event, id, s.tasks[id]));
  }

  lemma OtherKeepsOwners(s: State, event: Event)
    requires ChildrenAreOwned(s) && TaskOf(event).None?
    ensures ChildrenAreOwned(Step(s, event))
  {
    hide TaskStep, Token, Bumps, Reached, OwnsCurrent;
  }

  /** A generation moves by one, for a restart past its check or for a start under the free lock. */
  lemma GenerationsAre(s: State, event: Event, instance: nat)
    ensures Generation(Step(s, event), instance) == Generation(s, instance) + if Advances(s, event, instance) then 1 else 0
  {
    if TaskOf(event).Some? {
      TaskStepIs(s, event, TaskOf(event).value);
      if TaskOf(event).value in s.tasks {
        var task := s.tasks[TaskOf(event).value];
        TaskStepIsEffect(s, event, TaskOf(event).value, task);
        NextIsAdvanced(s, event, task);
        EffectAdvances(s, task, NextPc(s, event, task));
        hide Effect, NextPc, SameChildren;
      }
      hide Step, TaskStep;
    }
    hide TaskStep, OwnsCurrent, Bumps, Halt, Reached;
  }

  lemma NextIsAdvanced(s: State, event: Event, task: Task)
    ensures task.pc.Checked? && NextPc(s, event, task).Advanced?
       <==> event.Advance? && task.pc.Checked? && Generation(s, task.instance) == task.generation
  {
    hide MayRestart, Token, Bumps, Generation;
  }

  lemma EffectAdvances(s: State, task: Task, next: Pc)
    ensures Effect(s, task, next).generations
         == if task.pc.Checked? && next.Advanced? then s.generations[task.instance := task.generation + 1] else s.generations
  {
    hide Token, Bumps;
  }

  predicate Advances(s: State, event: Event, instance: nat) {
    || (event.Advance? && event.task in s.tasks && s.tasks[event.task].instance == instance
        && s.tasks[event.task].pc.Checked? && s.tasks[event.task].generation == Generation(s, instance))
    || (event == UserStart(instance, true) && s.lock.None? && instance !in s.runtime)
  }

  lemma StepKeepsAdvanced(s: State, event: Event)
    requires Inv(s) && AdvancedIsCurrent(s)
    ensures AdvancedIsCurrent(Step(s, event))
  {
    var r := Step(s, event);
    forall t | t in r.tasks && r.tasks[t].pc.Advanced? ensures Generation(r, r.tasks[t].instance) == r.tasks[t].generation + 1 {
      StepKeepsFreshAsleep(s, event);
      StepKeepsTask(s, event, t);
      GenerationsAre(s, event, r.tasks[t].instance);
      BecomesAdvanced(s, event, t);
      hide Step, Generation, CheckedIsIdle, SpawnedRuns, TokensGrow, HandlesGrow;
      if event.Advance? && event.task in s.tasks && event.task != t {
        assert s.tasks[t].pc.Advanced? && s.lock == Some(t);
      }
    }
  }

  lemma BecomesAdvanced(s: State, event: Event, t: nat)
    requires t in s.tasks && t in Step(s, event).tasks && Step(s, event).tasks[t].pc.Advanced?
    ensures s.tasks[t].pc.Advanced? || (event == Advance(t) && s.tasks[t].pc.Checked? && s.tasks[t].generation == Generation(s, s.tasks[t].instance))
    ensures s.tasks[t].pc.Advanced? ==> event != Advance(t) || Step(s, event).generations == s.generations
  {
    StepKeepsTask(s, event, t);
    hide MayRestart, OwnsCurrent, Token, Bumps, Generation, NextLock;
  }

  /** In every interleaving the owner of a child is the guard of that child, and of no other one. */
  lemma {:induction false} LifeKeepsOwners(s: State, events: seq<Event>)
    requires Inv(s) && ChildrenAreOwned(s) && AdvancedIsCurrent(s)
    ensures ChildrenAreOwned(Life(s, events)) && AdvancedIsCurrent(Life(s, events))
    decreases |events|
  {
    hide Inv, Step, TaskStep, ChildrenAreOwned, AdvancedIsCurrent;
    if events != [] {
      StepKeepsInv(s, events[0]);
      StepKeepsAdvanced(s, events[0]);
      if TaskOf(events[0]).Some? {
        TaskStepIs(s, events[0], TaskOf(events[0]).value);
        if TaskOf(events[0]).value in s.tasks {
          TaskStepKeepsOwners(s, events[0], TaskOf(events[0]).value);
        }
      } else {
        OtherKeepsOwners(s, events[0]);
      }
      LifeKeepsOwners(Step(s, events[0]), events[1..]);
    }
  }

  /** A restart whose instance was started with a new generation before its own generation check only ever gives up. */
  lemma {:induction false} SupersededNeverSpawns(s: State, events: seq<Event>, id: nat)
    requires id in s.tasks && s.tasks[id].generation < Generation(s, s.tasks[id].instance)
    requires IsEarly(s.tasks[id].pc) || s.tasks[id].pc.Checked? || s.tasks[id].pc.GaveUp?
    ensures var r := Life(s, events); id in r.tasks && (IsEarly(r.tasks[id].pc) || r.tasks[id].pc.Checked? || r.tasks[id].pc.GaveUp?)
    decreases |events|
  {
    if events != [] {
      StepKeepsTask(s, events[0], id);
      GenerationsAre(s, events[0], s.tasks[id].instance);
      SupersededStep(s, events[0], id);
      hide Step, Generation;
      SupersededNeverSpawns(Step(s, events[0]), events[1..], id);
    }
  }

  lemma SupersededStep(s: State, event: Event, id: nat)
    requires id in s.tasks && s.tasks[id].generation < Generation(s, s.tasks[id].instance)
    requires IsEarly(s.tasks[id].pc) || s.tasks[id].pc.Checked? || s.tasks[id].pc.GaveUp?
    ensures var r := Step(s, event); id in r.tasks && (IsEarly(r.tasks[id].pc) || r.tasks[id].pc.Checked? || r.tasks[id].pc.GaveUp?)
  {
    StepKeepsTask(s, event, id);
    hide MayRestart, OwnsCurrent, Token, Generation, Bumps;
    if TaskOf(event) != Some(id) {
      hide Step;
    }
  }

  // ------------------------------------------------------------------- fencing by generation

  /** A child other than the one the guard was raised for runs, or none does, and no such child can come back. */
  ghost predicate IsStale(s: State, key: Key) {
    key.handle < s.handles && (key.instance in s.runtime ==> s.runtime[key.instance].handle != key.handle)
  }

  lemma StaleStays(s: State, event: Event, key: Key)
    requires IsStale(s, key)
    ensures IsStale(Step(s, event), key)
  {
    StepChildren(s, event);
    hide Step;
  }

  lemma {:induction false} StaleForever(s: State, events: seq<Event>, key: Key)
    requires IsStale(s, key)
    ensures IsStale(Life(s, events), key)
    decreases |events|
  {
    if events != [] {
      StaleStays(s, events[0], key);
      hide Step, IsStale;
      StaleForever(Step(s, events[0]), events[1..], key);
    }
  }

  /** Once the child a guard action was raised for is gone, the action changes nothing, whatever was started since. */
  lemma StaleGuardNeverStops(s: State, events: seq<Event>, key: Key)
    requires IsStale(s, key)
    ensures Step(Life(s, events), GuardStop(key)) == Life(s, events)
  {
    hide Step, Life;
    StaleForever(s, events, key);
    StaleGuardStep(Life(s, events), key);
  }

  lemma StaleGuardStep(s: State, key: Key)
    requires IsStale(s, key)
    ensures Step(s, GuardStop(key)) == s
  {
  }

  /** In every interleaving: a guard action stops a child exactly when it was raised for that child and nobody holds the lock. */
  lemma GuardStopsIff(s: State, events: seq<Event>, key: Key)
    requires Inv(s) && ChildrenAreOwned(s) && AdvancedIsCurrent(s)
    ensures var now, r := Life(s, events), Step(Life(s, events), GuardStop(key));
            key.instance in now.runtime ==>
              (key.instance !in r.runtime <==> now.runtime[key.instance] == Entry(key.generation, key.handle) && now.lock.None?)
  {
    LifeKeepsOwners(s, events);
    hide Life, Generation;
  }

  /** A guard action stops the child it was raised for, exactly when that child still runs under this owner and nobody holds the lock. */
  lemma GuardStopsItsOwnChildIff(s: State, key: Key)
    ensures var r := Step(s, GuardStop(key));
            && (forall i :: i != key.instance ==> (i in r.runtime <==> i in s.runtime) && (i in s.runtime ==> r.runtime[i] == s.runtime[i]))
            && (key.instance in s.runtime && key.instance !in r.runtime <==> OwnsCurrent(s, key) && s.lock.None?)
  {
  }
}
