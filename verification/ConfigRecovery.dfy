/**
  The way back: the invariant of the configuration saga while its stage still leads to
  the previous snapshot.  Every effect that may happen before the point of no return
  keeps it, and from it a compensation, however often it was stopped before, restores
  the previous definitions, schedule, unit files and processes.
 */
module ConfigRecovery {
  import opened Options
  import opened Crashes
  import opened Names
  import opened Definitions
  import opened ConfigPlan
  import opened ConfigApply
  import opened ConfigPhases

  // ------------------------------------------------------------- what a plan may ask for

  /** Names are keys, a process keeps its management mode, and a unit belongs to one process name. */
  ghost predicate WellFormed(p: Plan) {
    && Unique(p.previous.processes, SpecName) && Unique(p.previous.jobs, JobName)
    && Unique(p.target.processes, SpecName) && Unique(p.target.jobs, JobName)
    && (forall s, t :: s in p.previous.processes && t in p.target.processes && s.name == t.name ==> s.mode == t.mode)
    && OwnUnits(p.previous.processes, p.target.processes)
    && OwnUnits(p.previous.processes, p.previous.processes)
    && OwnUnits(p.target.processes, p.target.processes)
    && forall n :: n in p.previous.running ==> n in Specs(p.previous) && Specs(p.previous)[n].mode.Direct?
  }

  ghost predicate OwnUnits(specs: seq<ProcessSpec>, others: seq<ProcessSpec>) {
    forall s, t :: s in specs && t in others && HasUnit(s) && HasUnit(t) && s.mode == t.mode ==> s.name == t.name
  }

  ghost predicate TargetUnit(p: Plan, unit: string) {
    exists t :: t in p.target.processes && HasUnit(t) && UnitOf(t) == unit
  }

  ghost predicate PreviousUnit(p: Plan, unit: string) {
    exists s :: s in p.previous.processes && HasUnit(s) && UnitOf(s) == unit
  }

  /** The world an apply starts from: everything agrees with the previous snapshot. */
  ghost predicate Agrees(w: World, p: Plan) {
    && w.specs == Specs(p.previous) && w.jobs == Jobs(p.previous)
    && w.schedule == Scheduled(p.previous.jobs)
    && (forall s :: s in p.previous.processes && HasUnit(s) ==> UnitOf(s) in w.units && w.units[UnitOf(s)] == s)
    && (forall t :: t in p.target.processes && HasUnit(t) && (forall s :: s in p.previous.processes ==> s.mode != t.mode) ==>
          UnitOf(t) !in w.units && UnitOf(t) !in w.loaded)
    && w.owned.Keys == Members(p.previous.running)
    && (forall n :: n in w.owned ==> n in w.specs && w.owned[n] == w.specs[n])
    && w.survivors == map[] && w.strays == {} && w.drained == {}
  }

  // --------------------------------------------------------- while compensation is possible

  /** Unit files: nothing of the previous set is missing, and only target definitions were written over it. */
  ghost predicate UnitsBetween(w: World, p: Plan, start: World) {
    && (forall u :: u in start.units ==> u in w.units && (w.units[u] == start.units[u] || TargetUnit(p, u)))
    && (forall u :: u in w.units ==> u in start.units || TargetUnit(p, u))
    && w.loaded == start.loaded
  }

  ghost predicate RunsPrevious(w: World, p: Plan) {
    && w.specs == Specs(p.previous)
    && (forall n :: n in w.owned ==> n in p.previous.running && n in w.specs && w.owned[n] == w.specs[n])
    && (forall n :: n in w.survivors ==> n in p.previous.running && n !in w.owned)
  }

  /** The invariant of every world whose stage still leads back to the previous snapshot. */
  ghost predicate Backward(w: World, p: Plan, start: World) {
    && w.journal.Some? && !HeadsForTarget(w.journal.value)
    && w.jobs == Jobs(p.previous)
    && w.drained == {}
    && UnitsBetween(w, p, start)
    && RunsPrevious(w, p)
  }

  /** The effects allowed before the point of no return. */
  ghost predicate IsReversible(op: Op, p: Plan) {
    match op
    case Register(_) => true
    case RegisterTrigger(_, _) => true
    case Unregister(_) => true
    case ClearSchedule => true
    case WriteUnit(spec) => HasUnit(spec) && (spec in p.target.processes || spec in p.previous.processes)
    case RemoveUnit(unit) => exists t :: t in p.target.processes && IsNewUnit(p, t) && UnitOf(t) == unit
    case SetStage(stage) => !HeadsForTarget(stage)
    case CommitDefinitions(processes, jobs) => processes == p.previous.processes && jobs == p.previous.jobs
    case StopDirect(_) => true
    case StopOwned(_) => true
    case StartPrevious(name) => name in p.previous.running
    case StartUnit(_) => false
    case ClearJournal => false
    case Drain(_) => false
    case StartTarget(_) => false
  }

  lemma ReversibleStep(w: World, op: Op, p: Plan, start: World)
    requires WellFormed(p) && Agrees(start, p) && Backward(w, p, start) && IsReversible(op, p)
    ensures Backward(Exec(w, op), p, start)
  {
    hide WellFormed, Agrees;
    ReversibleUnits(w, op, p, start);
    ReversibleProcesses(w, op, p);
    hide UnitsBetween, RunsPrevious;
  }

  lemma ReversibleUnits(w: World, op: Op, p: Plan, start: World)
    requires Agrees(start, p) && UnitsBetween(w, p, start) && IsReversible(op, p)
    ensures UnitsBetween(Exec(w, op), p, start)
  {
    match op
    case WriteUnit(spec) => ReversibleWrite(w, spec, p, start);
    case RemoveUnit(unit) => ReversibleRemove(w, unit, p, start);
    case _ =>
      UnitsUntouched(w, op);
      hide Agrees, TargetUnit, Exec;
  }

  lemma UnitsUntouched(w: World, op: Op)
    requires !op.WriteUnit? && !op.RemoveUnit? && !op.StartUnit? && !op.Drain?
    ensures Exec(w, op).units == w.units && Exec(w, op).loaded == w.loaded
  {
    if op.StartTarget? {
      SpawningLeavesUnits(w, op.spec.name);
    } else if op.StartPrevious? {
      SpawningLeavesUnits(w, op.name);
    }
    hide Spawn, Adopt, UnitOf;
  }

  lemma SpawningLeavesUnits(w: World, name: string)
    ensures Spawn(w, name).units == w.units && Spawn(w, name).loaded == w.loaded
    ensures name in w.survivors ==> Adopt(w, name).units == w.units && Adopt(w, name).loaded == w.loaded
  {
  }

  lemma ReversibleProcesses(w: World, op: Op, p: Plan)
    requires RunsPrevious(w, p) && IsReversible(op, p)
    ensures RunsPrevious(Exec(w, op), p)
  {
    match op
    case StartPrevious(name) => StartingKeepsPrevious(w, name, p);
    case StopDirect(name) => StoppingKeepsPrevious(w, op, p);
    case StopOwned(name) => StoppingKeepsPrevious(w, op, p);
    case _ => hide ByName, IsNewUnit;
  }

  lemma StartingKeepsPrevious(w: World, name: string, p: Plan)
    requires RunsPrevious(w, p) && name in p.previous.running
    ensures RunsPrevious(Exec(w, StartPrevious(name)), p)
  {
    hide Specs;
  }

  lemma StoppingKeepsPrevious(w: World, op: Op, p: Plan)
    requires RunsPrevious(w, p) && (op.StopDirect? || op.StopOwned?)
    ensures RunsPrevious(Exec(w, op), p)
  {
    hide Specs;
  }

  lemma ReversibleWrite(w: World, spec: ProcessSpec, p: Plan, start: World)
    requires Agrees(start, p) && UnitsBetween(w, p, start)
    requires HasUnit(spec) && (spec in p.target.processes || spec in p.previous.processes)
    ensures UnitsBetween(Exec(w, WriteUnit(spec)), p, start)
  {
    hide *;
    WritingIs(w, spec);
    MayBeWritten(start, spec, p);
    WritingStaysBetween(w, Exec(w, WriteUnit(spec)), UnitOf(spec), spec, p, start);
  }

  lemma MayBeWritten(start: World, spec: ProcessSpec, p: Plan)
    requires Agrees(start, p) && HasUnit(spec) && (spec in p.target.processes || spec in p.previous.processes)
    ensures TargetUnit(p, UnitOf(spec)) || (UnitOf(spec) in start.units && start.units[UnitOf(spec)] == spec)
  {
  }

  lemma WritingStaysBetween(w: World, r: World, u: string, spec: ProcessSpec, p: Plan, start: World)
    requires UnitsBetween(w, p, start) && (TargetUnit(p, u) || (u in start.units && start.units[u] == spec))
    requires r == w.(units := w.units[u := spec])
    ensures UnitsBetween(r, p, start)
  {
    hide TargetUnit;
  }

  lemma WritingIs(w: World, spec: ProcessSpec)
    ensures Exec(w, WriteUnit(spec)) == w.(units := w.units[UnitOf(spec) := spec])
  {
  }

  lemma ReversibleRemove(w: World, unit: string, p: Plan, start: World)
    requires Agrees(start, p) && UnitsBetween(w, p, start)
    requires exists t :: t in p.target.processes && IsNewUnit(p, t) && UnitOf(t) == unit
    ensures UnitsBetween(Exec(w, RemoveUnit(unit)), p, start)
  {
    MinusAbsent(w.loaded, unit);
  }

  lemma ReversiblePrefix(w: World, ops: seq<Op>, budget: nat, p: Plan, start: World)
    requires WellFormed(p) && Agrees(start, p) && Backward(w, p, start)
    requires forall op :: op in ops ==> IsReversible(op, p)
    ensures Backward(RunFor(Exec, w, ops, budget), p, start)
  {
    hide Backward, IsReversible, WellFormed, Agrees;
    var kept := (s: World) => Backward(s, p, start);
    forall s, op | kept(s) && op in ops ensures kept(Exec(s, op)) {
      ReversibleStep(s, op, p, start);
    }
    RunForKeeps(Exec, kept, w, ops, budget);
  }

  /** Before the point of no return nothing has been destroyed. */
  lemma BackwardDestroysNothing(w: World, p: Plan, start: World)
    requires Agrees(start, p) && Backward(w, p, start)
    ensures w.drained == {} && w.loaded == start.loaded
    ensures forall s :: s in p.previous.processes && HasUnit(s) ==> UnitOf(s) in w.units
  {
  }

  // ------------------------------------------------------------------- compensation

  /** Processes that outlived a crash and are not owned again: compensation cannot tell them from dead ones. */
  function Lost(w: World): set<string> {
    w.strays + w.survivors.Keys
  }

  ghost predicate NamesPreviousJobs(p: Plan, entries: seq<ScheduledTrigger>) {
    forall e :: e in entries ==> e.name in JobNames(p.previous.jobs)
  }

  /** The effects of a compensation. */
  ghost predicate Compensates(ops: seq<Op>, p: Plan) {
    forall op :: op in ops ==> IsReversible(op, p) && !op.StopDirect?
  }

  lemma CompensatesBoth(first: seq<Op>, second: seq<Op>, p: Plan)
    requires Compensates(first, p) && Compensates(second, p)
    ensures Compensates(first + second, p)
  {
    hide IsReversible;
  }

  lemma ScheduleRestoreCompensates(p: Plan, entries: seq<ScheduledTrigger>)
    ensures Compensates(RestoreScheduleOps(p, entries), p)
  {
    assert Compensates(RestoreOps(entries), p);
    assert Compensates(RegisterOps(p.previous.jobs), p);
    CompensatesBoth(RestoreOps(entries), RegisterOps(p.previous.jobs), p);
    CompensatesBoth([ClearSchedule], RestoreOps(entries) + RegisterOps(p.previous.jobs), p);
  }

  lemma UnitsRestoreCompensates(p: Plan)
    ensures Compensates(RestoreUnitsOps(p), p)
  {
    forall op | op in RemoveOps(NewUnits(p)) ensures IsReversible(op, p) {
      var t :| t in NewUnits(p) && op == RemoveUnit(UnitOf(t));
      assert t in p.target.processes && IsNewUnit(p, t);
    }
    assert Compensates(WriteOps(UnitSpecs(p.previous)), p) by { hide IsNewUnit; }
    CompensatesBoth(RemoveOps(NewUnits(p)), WriteOps(UnitSpecs(p.previous)), p);
  }

  lemma CompensationIsReversible(p: Plan, entries: seq<ScheduledTrigger>)
    ensures Compensates(CompensateBody(p, entries), p)
  {
    var stops, starts := StopOwnedOps(NotRunningBefore(p)), StartPreviousOps(p.previous.running);
    assert Compensates(stops, p) && Compensates(starts, p) && Compensates([CommitOp(p.previous)], p);
    ScheduleRestoreCompensates(p, entries);
    UnitsRestoreCompensates(p);
    hide Compensates, RestoreUnitsOps, RestoreScheduleOps;
    CompensatesBoth(stops, [CommitOp(p.previous)], p);
    CompensatesBoth(RestoreUnitsOps(p), starts, p);
    CompensatesBoth(RestoreScheduleOps(p, entries), RestoreUnitsOps(p) + starts, p);
    CompensatesBoth(stops + [CommitOp(p.previous)], RestoreScheduleOps(p, entries) + (RestoreUnitsOps(p) + starts), p);
  }

  lemma ReversibleKeepsLost(w: World, op: Op, p: Plan)
    requires RunsPrevious(w, p) && IsReversible(op, p) && !op.StopDirect?
    ensures Lost(Exec(w, op)) == Lost(w)
  {
    hide IsNewUnit;
    if op.StartPrevious? && op.name !in w.owned {
      assert (w.survivors - {op.name}).Keys == w.survivors.Keys - {op.name};
    }
  }

  /** A compensation stopped anywhere can be compensated again, and forgets no process it had already lost. */
  lemma CompensationPrefix(w: World, p: Plan, entries: seq<ScheduledTrigger>, start: World, budget: nat)
    requires WellFormed(p) && Agrees(start, p) && Backward(w, p, start)
    ensures var r := RunFor(Exec, w, CompensateBody(p, entries), budget);
            Backward(r, p, start) && Lost(r) == Lost(w)
  {
    CompensationIsReversible(p, entries);
    var kept := (s: World) => Backward(s, p, start) && Lost(s) == Lost(w);
    forall s, op | kept(s) && op in CompensateBody(p, entries) ensures kept(Exec(s, op)) {
      assert IsReversible(op, p) && !op.StopDirect?;
      ReversibleStep(s, op, p, start);
      ReversibleKeepsLost(s, op, p);
    }
    hide Backward, CompensateBody, Lost;
    RunForKeeps(Exec, kept, w, CompensateBody(p, entries), budget);
  }

  lemma ScheduleIsRestored(p: Plan, entries: seq<ScheduledTrigger>)
    requires NamesPreviousJobs(p, entries)
    ensures TriggersOnly(entries) + Scheduled(p.previous.jobs) == Scheduled(p.previous.jobs)
  {
    TriggerNames(entries);
    ScheduledNames(p.previous.jobs);
  }

  lemma {:induction false} TriggerNames(entries: seq<ScheduledTrigger>)
    ensures forall n :: n in TriggersOnly(entries) ==> exists e :: e in entries && e.name == n
  {
    if entries != [] {
      TriggerNames(entries[1..]);
      assert entries == [entries[0]] + entries[1..];
    }
  }

  lemma OverlayIs<V>(base: map<string, V>, gone: set<string>, files: map<string, V>, goal: map<string, V>)
    requires forall u :: u in goal <==> u in files || (u in base && u !in gone)
    requires forall u :: u in files ==> files[u] == goal[u]
    requires forall u :: u in goal && u !in files ==> base[u] == goal[u]
    ensures base - gone + files == goal
  {
  }

  lemma UnitsAreRestored(w: World, p: Plan, start: World)
    requires WellFormed(p) && Agrees(start, p) && UnitsBetween(w, p, start)
    ensures w.units - UnitNames(NewUnits(p)) + UnitFiles(UnitSpecs(p.previous)) == start.units
    ensures w.loaded - UnitNames(NewUnits(p)) == w.loaded
  {
    UnitFilesHold(UnitSpecs(p.previous));
    forall u ensures u in UnitNames(UnitSpecs(p.previous)) || (u in w.units && u !in UnitNames(NewUnits(p))) <==> u in start.units
      ensures u in start.units && u !in UnitNames(UnitSpecs(p.previous)) ==> w.units[u] == start.units[u]
    {
      UnitIsRestored(w, p, start, u);
    }
    PreviousFilesAgree(p, start);
    NewUnitsAreNotLoaded(p, start);
    hide WellFormed, Agrees, UnitFiles, NewUnits, UnitSpecs, UnitNames;
    OverlayIs(w.units, UnitNames(NewUnits(p)), UnitFiles(UnitSpecs(p.previous)), start.units);
  }

  lemma NewUnitsAreNotLoaded(p: Plan, start: World)
    requires Agrees(start, p)
    ensures start.loaded - UnitNames(NewUnits(p)) == start.loaded
  {
  }

  lemma PreviousFilesAgree(p: Plan, start: World)
    requires Agrees(start, p)
    ensures forall u :: u in UnitFiles(UnitSpecs(p.previous)) ==> u in start.units && UnitFiles(UnitSpecs(p.previous))[u] == start.units[u]
  {
    UnitFilesHold(UnitSpecs(p.previous));
  }

  lemma UnitIsRestored(w: World, p: Plan, start: World, u: string)
    requires Agrees(start, p) && UnitsBetween(w, p, start)
    ensures u in UnitNames(UnitSpecs(p.previous)) || (u in w.units && u !in UnitNames(NewUnits(p))) <==> u in start.units
    ensures u in start.units && u !in UnitNames(UnitSpecs(p.previous)) ==> w.units[u] == start.units[u]
  {
    if t :| t in p.target.processes && HasUnit(t) && UnitOf(t) == u {
      if u !in UnitNames(UnitSpecs(p.previous)) {
        forall other | other in p.previous.processes ensures other.mode != t.mode {
          assert other in UnitSpecs(p.previous) ==> UnitOf(other) != u;
        }
        assert IsNewUnit(p, t) && t in NewUnits(p);
      }
    }
  }

  /** Run to its end, a compensation restores the starting world; only processes lost in a crash remain as strays. */
  lemma CompensationIsExact(w: World, p: Plan, entries: seq<ScheduledTrigger>, start: World)
    requires WellFormed(p) && Agrees(start, p) && Backward(w, p, start) && NamesPreviousJobs(p, entries)
    ensures RunAll(Exec, w, CompensateOps(p, entries)) == start.(journal := None, strays := Lost(w))
  {
    hide RunAll, WellFormed, Restarted, StopOwnedOps, NotRunningBefore, RestoreScheduleOps, RestoreUnitsOps, StartPreviousOps,
      NamesPreviousJobs;
    var stops, commit := StopOwnedOps(NotRunningBefore(p)), [CommitOp(p.previous)];
    var body, rest := CompensateBody(p, entries), RestoreUnitsOps(p) + StartPreviousOps(p.previous.running);
    RunAllConcat(Exec, w, body, [ClearJournal]);
    RunAllConcat(Exec, w, stops + commit, RestoreScheduleOps(p, entries) + rest);
    RunAllConcat(Exec, w, stops, commit);
    StopsNothing(w, p);
    ScheduleRestoreRun(w, p, entries);
    var scheduled := w.(schedule := Scheduled(p.previous.jobs));
    assert UnitsBetween(scheduled, p, start) && scheduled.loaded == start.loaded;
    hide UnitsBetween;
    RunAllConcat(Exec, w, RestoreScheduleOps(p, entries), rest);
    RunAllConcat(Exec, scheduled, RestoreUnitsOps(p), StartPreviousOps(p.previous.running));
    UnitsRestoreRun(scheduled, p, start);
    var restored := scheduled.(units := start.units);
    assert RunsPrevious(restored, p);
    hide RunsPrevious;
    StartPreviousRun(restored, p.previous.running);
    RunAllOne(Exec, RunAll(Exec, restored, StartPreviousOps(p.previous.running)), ClearJournal);
    hide Exec;
    RestartsPrevious(restored, RunAll(Exec, restored, StartPreviousOps(p.previous.running)), p, start);
  }

  lemma StopsNothing(w: World, p: Plan)
    requires RunsPrevious(w, p) && w.jobs == Jobs(p.previous)
    ensures RunAll(Exec, RunAll(Exec, w, StopOwnedOps(NotRunningBefore(p))), [CommitOp(p.previous)]) == w
  {
    StopOwnedRun(w, NotRunningBefore(p));
    assert w.owned - SpecNames(NotRunningBefore(p)) == w.owned;
    RunAllOne(Exec, w, CommitOp(p.previous));
  }

  lemma ScheduleRestoreRun(w: World, p: Plan, entries: seq<ScheduledTrigger>)
    requires NamesPreviousJobs(p, entries)
    ensures RunAll(Exec, w, RestoreScheduleOps(p, entries)) == w.(schedule := Scheduled(p.previous.jobs))
  {
    hide RunAll, RestoreOps, RegisterOps;
    var cleared := w.(schedule := map[]);
    RunAllCons(Exec, w, ClearSchedule, RestoreOps(entries) + RegisterOps(p.previous.jobs));
    RunAllConcat(Exec, cleared, RestoreOps(entries), RegisterOps(p.previous.jobs));
    RestoreRun(cleared, entries);
    RegisterRun(cleared.(schedule := TriggersOnly(entries)), p.previous.jobs);
    ScheduleIsRestored(p, entries);
    assert map[] + TriggersOnly(entries) == TriggersOnly(entries);
  }

  lemma UnitsRestoreRun(w: World, p: Plan, start: World)
    requires WellFormed(p) && Agrees(start, p) && UnitsBetween(w, p, start)
    ensures RunAll(Exec, w, RestoreUnitsOps(p)) == w.(units := start.units)
  {
    RunAllConcat(Exec, w, RemoveOps(NewUnits(p)), WriteOps(UnitSpecs(p.previous)));
    RemoveRun(w, NewUnits(p));
    UnitsAreRestored(w, p, start);
    hide Agrees, UnitsBetween, WellFormed;
    WriteRun(w.(units := w.units - UnitNames(NewUnits(p))), UnitSpecs(p.previous));
  }

  lemma RestartsPrevious(w: World, r: World, p: Plan, start: World)
    requires Agrees(start, p) && RunsPrevious(w, p) && w.jobs == start.jobs && w.drained == {}
    requires w.schedule == start.schedule && w.units == start.units && w.loaded == start.loaded
    requires Restarted(w, r, Members(p.previous.running))
    ensures r == start.(journal := w.journal, strays := Lost(w))
  {
    var running := Members(p.previous.running);
    assert r.owned.Keys == running;
    assert r.owned == start.owned;
    assert w.survivors.Keys <= running - w.owned.Keys;
    assert w.survivors - (running - w.owned.Keys) == map[];
    assert (running - w.owned.Keys) * w.survivors.Keys == w.survivors.Keys;
  }
}
