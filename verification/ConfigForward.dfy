/**
  The way forward: the invariant of the configuration saga once its stage heads for the
  target.  Staging, tearing down the old and launching the new are computed phase by
  phase, each is shown to keep what a later recovery needs when it is stopped anywhere,
  and the last one to end in exactly the target world.
 */
module ConfigForward {
  import opened Options
  import opened Crashes
  import opened Names
  import opened Definitions
  import opened ConfigPlan
  import opened ConfigApply
  import opened ConfigPhases
  import opened ConfigRecovery

  /** Units whose process is not in the target. */
  function Gone(p: Plan): set<string> {
    UnitNames(ObsoleteUnits(p))
  }

  /** What runs in the target: the desired direct processes under their target definition. */
  function RunningTarget(p: Plan): map<string, ProcessSpec> {
    map n | n in Specs(p.target) && IsDesired(p, Specs(p.target)[n]) :: Specs(p.target)[n]
  }

  /** The one world a forward recovery may end in. */
  function TargetWorld(start: World, p: Plan): World {
    World(
      Specs(p.target), Jobs(p.target), None, Scheduled(p.target.jobs),
      start.units - Gone(p) + UnitFiles(UnitSpecs(p.target)),
      start.loaded - Gone(p) + UnitFiles(AutostartUnits(p)),
      RunningTarget(p), map[], {}, JobNames(RemovedJobs(p)))
  }

  // ------------------------------------------------------------------- the invariant

  predicate SameAt(a: map<string, ProcessSpec>, b: map<string, ProcessSpec>, u: string) {
    (u in a <==> u in b) && (u in a ==> a[u] == b[u])
  }

  ghost predicate UnitsToward(w: World, p: Plan, start: World) {
    && (forall u :: u !in Gone(p) && u !in UnitNames(UnitSpecs(p.target)) ==> SameAt(w.units, start.units, u))
    && (forall u :: u !in Gone(p) && u !in UnitNames(AutostartUnits(p)) ==> SameAt(w.loaded, start.loaded, u))
  }

  ghost predicate IsEither(p: Plan, n: string, spec: ProcessSpec) {
    && spec.name == n && spec.mode.Direct?
    && ((spec in p.previous.processes && n in p.previous.running) || (spec in p.target.processes && IsDesired(p, spec)))
  }

  ghost predicate RunsEither(w: World, p: Plan) {
    && (forall n :: n in w.owned ==> IsEither(p, n, w.owned[n]))
    && (forall n :: n in w.survivors ==> IsEither(p, n, w.survivors[n]) && w.survivors[n].lifecycle.Detached? && n !in w.owned)
    && w.strays == {}
  }

  /** The tables hold the previous definitions, or the target's once every removed job is drained. */
  ghost predicate TablesEither(w: World, p: Plan) {
    || (w.specs == Specs(p.previous) && w.jobs == Jobs(p.previous))
    || (w.specs == Specs(p.target) && w.jobs == Jobs(p.target) && JobNames(RemovedJobs(p)) <= w.drained)
  }

  ghost predicate Forward(w: World, p: Plan, start: World) {
    && w.journal.Some? && HeadsForTarget(w.journal.value)
    && TablesEither(w, p)
    && w.drained <= JobNames(RemovedJobs(p))
    && w.schedule.Keys <= JobNames(p.previous.jobs) + JobNames(p.target.jobs)
    && UnitsToward(w, p, start)
    && RunsEither(w, p)
  }

  lemma OwnedIsEither(w: World, p: Plan)
    requires WellFormed(p) && RunsPrevious(w, p)
    ensures forall n :: n in w.owned ==> IsEither(p, n, w.owned[n])
  {
    forall n | n in w.owned ensures IsEither(p, n, w.owned[n]) {
      NamedIsListed(p.previous.processes, SpecName, n);
    }
  }

  /** Crossing the point of no return before any crash. */
  lemma CrossingTheBoundary(w: World, p: Plan, start: World, stage: Stage)
    requires WellFormed(p) && Agrees(start, p) && Backward(w, p, start) && HeadsForTarget(stage)
    requires w.survivors == map[] && w.strays == {}
    requires w.schedule.Keys <= JobNames(p.previous.jobs) + JobNames(p.target.jobs)
    ensures Forward(w.(journal := Some(stage)), p, start)
  {
    OwnedIsEither(w, p);
    BetweenIsToward(w, p, start);
    hide IsEither, WellFormed, RunsPrevious, UnitsBetween, UnitsToward, Agrees, RemovedJobs;
  }

  lemma BetweenIsToward(w: World, p: Plan, start: World)
    requires UnitsBetween(w, p, start)
    ensures UnitsToward(w, p, start)
  {
    hide Gone, AutostartUnits;
    assert forall t :: t in p.target.processes && HasUnit(t) ==> UnitOf(t) in UnitNames(UnitSpecs(p.target));
  }

  // ------------------------------------------------------------------- teardown

  ghost predicate IsTeardown(op: Op, p: Plan) {
    match op
    case Register(job) => job in p.target.jobs
    case Unregister(_) => true
    case WriteUnit(spec) => spec in UnitSpecs(p.target)
    case RemoveUnit(unit) => unit in Gone(p)
    case Drain(name) => name in JobNames(RemovedJobs(p))
    case StopDirect(_) => true
    case SetStage(stage) => HeadsForTarget(stage)
    case _ => false
  }

  lemma TeardownUnits(w: World, op: Op, p: Plan, start: World)
    requires UnitsToward(w, p, start) && IsTeardown(op, p)
    ensures UnitsToward(Exec(w, op), p, start)
  {
    hide Gone, UnitSpecs, AutostartUnits;
    if op.WriteUnit? {
      assert UnitOf(op.spec) in UnitNames(UnitSpecs(p.target));
    }
  }

  lemma TeardownProcesses(w: World, op: Op, p: Plan)
    requires RunsEither(w, p) && IsTeardown(op, p)
    ensures RunsEither(Exec(w, op), p)
  {
    hide RunsEither, Gone, UnitSpecs, RemovedJobs;
    if op.StopDirect? {
      StoppingKeepsEither(w, op.name, p);
    } else {
      SameProcesses(w, Exec(w, op), p);
    }
  }

  lemma StoppingKeepsEither(w: World, name: string, p: Plan)
    requires RunsEither(w, p)
    ensures RunsEither(Exec(w, StopDirect(name)), p)
  {
    hide IsEither;
  }

  lemma SameProcesses(w: World, r: World, p: Plan)
    requires RunsEither(w, p)
    requires r.owned == w.owned && r.survivors == w.survivors && r.strays == w.strays
    ensures RunsEither(r, p)
  {
    hide IsEither;
  }

  lemma TeardownTables(w: World, op: Op, p: Plan)
    requires TablesEither(w, p) && IsTeardown(op, p) && w.drained <= JobNames(RemovedJobs(p))
    ensures TablesEither(Exec(w, op), p)
    ensures Exec(w, op).drained <= JobNames(RemovedJobs(p))
  {
    hide Gone, UnitSpecs, RemovedJobs, JobNames, Specs, Jobs;
  }

  lemma TeardownSchedule(w: World, op: Op, p: Plan)
    requires IsTeardown(op, p) && w.schedule.Keys <= JobNames(p.previous.jobs) + JobNames(p.target.jobs)
    ensures Exec(w, op).schedule.Keys <= JobNames(p.previous.jobs) + JobNames(p.target.jobs)
  {
    hide Gone, UnitSpecs, RemovedJobs;
    if op.Register? {
      assert op.job.name in JobNames(p.target.jobs);
    }
  }

  lemma TeardownJournal(w: World, op: Op, p: Plan)
    requires w.journal.Some? && HeadsForTarget(w.journal.value) && IsTeardown(op, p)
    ensures Exec(w, op).journal.Some? && HeadsForTarget(Exec(w, op).journal.value)
  {
    hide Gone, UnitSpecs, RemovedJobs;
  }

  lemma TeardownStep(w: World, op: Op, p: Plan, start: World)
    requires Forward(w, p, start) && IsTeardown(op, p)
    ensures Forward(Exec(w, op), p, start)
  {
    TeardownUnits(w, op, p, start);
    TeardownProcesses(w, op, p);
    TeardownTables(w, op, p);
    TeardownSchedule(w, op, p);
    hide UnitsToward, RunsEither, TablesEither, RemovedJobs, Gone, UnitSpecs, JobNames;
    TeardownJournal(w, op, p);
    hide Exec, IsTeardown, HeadsForTarget;
  }

  lemma TeardownPrefix(w: World, ops: seq<Op>, budget: nat, p: Plan, start: World)
    requires Forward(w, p, start)
    requires forall op :: op in ops ==> IsTeardown(op, p)
    ensures Forward(RunFor(Exec, w, ops, budget), p, start)
  {
    hide Forward, IsTeardown;
    var kept := (s: World) => Forward(s, p, start);
    forall s, op | kept(s) && op in ops ensures kept(Exec(s, op)) {
      TeardownStep(s, op, p, start);
    }
    RunForKeeps(Exec, kept, w, ops, budget);
  }

  lemma StagingIsTeardown(p: Plan)
    ensures forall op :: op in StagingOps(p) ==> IsTeardown(op, p)
  {
    hide Gone, RemovedJobs, UnitSpecs;
  }

  lemma {:induction false} DrainsAre(jobs: seq<Job>)
    ensures forall op :: op in DrainOps(jobs) ==> op.Unregister? || (op.Drain? && op.name in JobNames(jobs))
  {
    if jobs != [] {
      DrainsAre(jobs[1..]);
      assert jobs == [jobs[0]] + jobs[1..];
    }
  }

  lemma TeardownIsTeardown(p: Plan, drained: seq<Job>)
    requires JobNames(drained) <= JobNames(RemovedJobs(p))
    ensures forall op :: op in TeardownOps(p, drained) ==> IsTeardown(op, p)
  {
    DrainsAre(drained);
    hide RemovedJobs, ObsoleteUnits, ChangedDirects;
  }

  // ------------------------------------------------------------------- ready to commit

  ghost predicate RunsTarget(w: World, p: Plan) {
    && (forall n :: n in w.owned ==> n in RunningTarget(p) && w.owned[n] == RunningTarget(p)[n])
    && (forall n :: n in w.survivors ==> n in RunningTarget(p) && w.survivors[n] == RunningTarget(p)[n])
  }

  /** Everything old is gone and everything new is staged. */
  ghost predicate Ready(w: World, p: Plan, start: World) {
    && Forward(w, p, start)
    && JobNames(RemovedJobs(p)) <= w.drained
    && w.schedule == Scheduled(p.target.jobs)
    && w.units == start.units - Gone(p) + UnitFiles(UnitSpecs(p.target))
    && w.loaded.Keys !! Gone(p)
    && RunsTarget(w, p)
  }

  function Staged(w: World, p: Plan): World {
    w.(schedule := w.schedule + Scheduled(p.target.jobs) - JobNames(RemovedJobs(p)),
      units := w.units + UnitFiles(UnitSpecs(p.target)))
  }

  lemma StagingRun(w: World, p: Plan)
    ensures RunAll(Exec, w, StagingOps(p)) == Staged(w, p)
  {
    hide RunAll, RegisterOps, UnregisterOps, WriteOps, RemovedJobs, UnitSpecs;
    RunAllConcat(Exec, w, RegisterOps(p.target.jobs), UnregisterOps(RemovedJobs(p)) + WriteOps(UnitSpecs(p.target)));
    RegisterRun(w, p.target.jobs);
    var registered := w.(schedule := w.schedule + Scheduled(p.target.jobs));
    RunAllConcat(Exec, registered, UnregisterOps(RemovedJobs(p)), WriteOps(UnitSpecs(p.target)));
    UnregisterRun(registered, RemovedJobs(p));
    WriteRun(registered.(schedule := registered.schedule - JobNames(RemovedJobs(p))), UnitSpecs(p.target));
  }

  function TornDown(w: World, p: Plan, drained: seq<Job>): World {
    w.(units := w.units - Gone(p), loaded := w.loaded - Gone(p),
      schedule := w.schedule - JobNames(drained), drained := w.drained + JobNames(drained),
      owned := w.owned - SpecNames(ChangedDirects(p)), survivors := w.survivors - SpecNames(ChangedDirects(p)))
  }

  lemma TeardownRun(w: World, p: Plan, drained: seq<Job>)
    requires w.owned.Keys !! w.survivors.Keys
    ensures RunAll(Exec, w, TeardownOps(p, drained)) == TornDown(w, p, drained)
  {
    hide RunAll, RemoveOps, DrainOps, StopOps, ObsoleteUnits, ChangedDirects;
    RunAllConcat(Exec, w, RemoveOps(ObsoleteUnits(p)), DrainOps(drained) + StopOps(ChangedDirects(p)));
    RemoveRun(w, ObsoleteUnits(p));
    var removed := w.(units := w.units - Gone(p), loaded := w.loaded - Gone(p));
    RunAllConcat(Exec, removed, DrainOps(drained), StopOps(ChangedDirects(p)));
    DrainRun(removed, drained);
    StopRun(removed.(schedule := removed.schedule - JobNames(drained), drained := removed.drained + JobNames(drained)),
            ChangedDirects(p));
  }

  /** The target is staged: its schedule and unit definitions are in place. */
  ghost predicate IsStaged(w: World, p: Plan) {
    && w.schedule == Scheduled(p.target.jobs)
    && forall u :: u in UnitFiles(UnitSpecs(p.target)) ==> u in w.units && w.units[u] == UnitFiles(UnitSpecs(p.target))[u]
  }

  lemma StagingStages(w: World, p: Plan)
    requires w.schedule.Keys <= JobNames(p.previous.jobs) + JobNames(p.target.jobs)
    ensures IsStaged(Staged(w, p), p)
  {
    ScheduledNames(p.target.jobs);
    hide UnitFiles, UnitSpecs;
    var s := w.schedule + Scheduled(p.target.jobs) - JobNames(RemovedJobs(p));
    assert JobNames(RemovedJobs(p)) !! JobNames(p.target.jobs);
    forall n | n in JobNames(p.previous.jobs) && n !in JobNames(p.target.jobs) ensures n in JobNames(RemovedJobs(p)) {
      var job :| job in p.previous.jobs && job.name == n;
      assert job in RemovedJobs(p);
    }
    hide RemovedJobs, Jobs;
    assert s.Keys == JobNames(p.target.jobs);
  }

  lemma GoneIsGone(p: Plan)
    requires WellFormed(p)
    ensures Gone(p) !! UnitNames(UnitSpecs(p.target))
    ensures UnitNames(AutostartUnits(p)) <= UnitNames(UnitSpecs(p.target))
  {
    forall s, t | s in ObsoleteUnits(p) && t in UnitSpecs(p.target) ensures UnitOf(s) != UnitOf(t) {
      assert HasUnit(s) && HasUnit(t) && (UnitOf(s) == UnitOf(t) ==> s.mode == t.mode);
    }
    forall t | t in AutostartUnits(p) ensures t in UnitSpecs(p.target) {
    }
  }

  lemma UnitsBecomeTarget(w: World, p: Plan, start: World)
    requires WellFormed(p) && UnitsToward(w, p, start) && IsStaged(w, p)
    ensures w.units - Gone(p) == start.units - Gone(p) + UnitFiles(UnitSpecs(p.target))
  {
    GoneIsGone(p);
    UnitFilesHold(UnitSpecs(p.target));
    hide WellFormed, Gone, UnitSpecs, UnitFiles;
    var goal := start.units - Gone(p) + UnitFiles(UnitSpecs(p.target));
    forall u ensures SameAt(w.units - Gone(p), goal, u) {
      if u !in Gone(p) && u !in UnitNames(UnitSpecs(p.target)) {
        assert SameAt(w.units, start.units, u);
      }
    }
    SameEverywhere(w.units - Gone(p), goal);
  }

  lemma SameEverywhere(a: map<string, ProcessSpec>, b: map<string, ProcessSpec>)
    requires forall u :: SameAt(a, b, u)
    ensures a == b
  {
    forall u ensures u in a <==> u in b {
      assert SameAt(a, b, u);
    }
    forall u | u in a ensures a[u] == b[u] {
      assert SameAt(a, b, u);
    }
  }

  /** A process not stopped by the teardown already runs its target definition and is wanted there. */
  lemma UnchangedIsTarget(p: Plan, n: string, spec: ProcessSpec)
    requires WellFormed(p) && IsEither(p, n, spec) && n !in SpecNames(ChangedDirects(p))
    ensures n in RunningTarget(p) && RunningTarget(p)[n] == spec
  {
    if spec in p.target.processes && IsDesired(p, spec) {
      ListedIsNamed(p.target.processes, SpecName, spec);
    } else {
      assert spec !in ChangedDirects(p);
      NamedIsListed(p.target.processes, SpecName, n);
      RunningStaysDesired(p.previous, p.target, spec);
    }
  }

  lemma TornDownRunsTarget(w: World, p: Plan, drained: seq<Job>)
    requires WellFormed(p) && RunsEither(w, p)
    ensures RunsTarget(TornDown(w, p, drained), p)
  {
    hide WellFormed, IsEither, RunningTarget, ChangedDirects;
    var r := TornDown(w, p, drained);
    forall n | n in r.owned ensures n in RunningTarget(p) && r.owned[n] == RunningTarget(p)[n] {
      UnchangedIsTarget(p, n, w.owned[n]);
    }
    forall n | n in r.survivors ensures n in RunningTarget(p) && r.survivors[n] == RunningTarget(p)[n] {
      UnchangedIsTarget(p, n, w.survivors[n]);
    }
  }

  /** A completed teardown of a staged world is ready to commit. */
  lemma TornDownIsReady(w: World, p: Plan, start: World, drained: seq<Job>)
    requires WellFormed(p) && Forward(w, p, start) && IsStaged(w, p)
    requires JobNames(drained) <= JobNames(RemovedJobs(p)) <= w.drained + JobNames(drained)
    ensures Ready(TornDown(w, p, drained), p, start)
  {
    var r := TornDown(w, p, drained);
    TornDownStaysForward(w, p, start, drained);
    UnitsBecomeTarget(w, p, start);
    TornDownRunsTarget(w, p, drained);
    StagedScheduleStays(p, drained);
    hide WellFormed, Forward, UnitFiles, UnitSpecs, RunsTarget, RunsEither, RemovedJobs, JobNames, Jobs, Gone, Scheduled, ChangedDirects;
  }

  lemma TornDownStaysForward(w: World, p: Plan, start: World, drained: seq<Job>)
    requires Forward(w, p, start) && JobNames(drained) <= JobNames(RemovedJobs(p))
    ensures Forward(TornDown(w, p, drained), p, start)
  {
    assert w.owned.Keys !! w.survivors.Keys;
    TeardownRun(w, p, drained);
    TeardownIsTeardown(p, drained);
    hide Forward, TeardownOps, TornDown;
    TeardownPrefix(w, TeardownOps(p, drained), |TeardownOps(p, drained)|, p, start);
  }

  lemma StagedScheduleStays(p: Plan, drained: seq<Job>)
    requires JobNames(drained) <= JobNames(RemovedJobs(p))
    ensures Scheduled(p.target.jobs) - JobNames(drained) == Scheduled(p.target.jobs)
  {
    ScheduledNames(p.target.jobs);
    assert JobNames(RemovedJobs(p)) !! JobNames(p.target.jobs);
  }

  // ---------------------------------------------------------------- commit and launch

  ghost predicate Committed(w: World, p: Plan, start: World) {
    Ready(w, p, start) && w.specs == Specs(p.target) && w.jobs == Jobs(p.target)
  }

  lemma CommitStep(w: World, op: Op, p: Plan, start: World)
    requires Ready(w, p, start)
    requires op == CommitOp(p.target) || (op.SetStage? && HeadsForTarget(op.stage))
    ensures Ready(Exec(w, op), p, start)
    ensures op == CommitOp(p.target) || Committed(w, p, start) ==> Committed(Exec(w, op), p, start)
  {
    hide UnitsToward, RunsTarget, Gone, UnitSpecs, RemovedJobs;
    SameProcesses(w, Exec(w, op), p);
    hide RunsEither;
    assert UnitsToward(Exec(w, op), p, start) by { SameUnits(w, Exec(w, op), p, start); }
    assert RunsTarget(Exec(w, op), p) by { SameTargets(w, Exec(w, op), p); }
  }

  lemma SameUnits(w: World, r: World, p: Plan, start: World)
    requires UnitsToward(w, p, start) && r.units == w.units && r.loaded == w.loaded
    ensures UnitsToward(r, p, start)
  {
    hide Gone, UnitSpecs, AutostartUnits;
  }

  lemma SameTargets(w: World, r: World, p: Plan)
    requires RunsTarget(w, p) && r.owned == w.owned && r.survivors == w.survivors
    ensures RunsTarget(r, p)
  {
    hide RunningTarget;
  }

  lemma DesiredIsRunningTarget(p: Plan, spec: ProcessSpec)
    requires WellFormed(p) && spec in DesiredSpecs(p)
    ensures spec.name in Specs(p.target) && Specs(p.target)[spec.name] == spec && IsEither(p, spec.name, spec)
    ensures spec.name in RunningTarget(p) && RunningTarget(p)[spec.name] == spec
  {
    ListedIsNamed(p.target.processes, SpecName, spec);
  }

  /** Only what runs and what is loaded may change between the commit and the end. */
  lemma CommittedFrame(w: World, r: World, p: Plan, start: World)
    requires Committed(w, p, start)
    requires r == w.(owned := r.owned, survivors := r.survivors, strays := r.strays, loaded := r.loaded)
    requires UnitsToward(r, p, start) && RunsEither(r, p) && RunsTarget(r, p) && r.loaded.Keys !! Gone(p)
    ensures Committed(r, p, start)
  {
    hide UnitsToward, RunsEither, RunsTarget, Gone, RemovedJobs, UnitSpecs, Specs, Jobs, HeadsForTarget;
  }

  lemma CommittedParts(w: World, p: Plan, start: World)
    requires Committed(w, p, start)
    ensures UnitsToward(w, p, start) && RunsEither(w, p) && RunsTarget(w, p) && w.loaded.Keys !! Gone(p)
    ensures w.specs == Specs(p.target)
  {
    hide UnitsToward, RunsEither, RunsTarget, Gone;
  }

  lemma StartFrame(w: World, spec: ProcessSpec)
    ensures var r := Exec(w, StartTarget(spec));
            r == w.(owned := r.owned, survivors := r.survivors, strays := r.strays, loaded := w.loaded)
  {
  }

  lemma StartUnitFrame(w: World, unit: string)
    ensures var r := Exec(w, StartUnit(unit));
            r == w.(loaded := r.loaded) && r.loaded.Keys <= w.loaded.Keys + {unit}
  {
  }

  lemma StartStep(w: World, spec: ProcessSpec, p: Plan, start: World)
    requires WellFormed(p) && Committed(w, p, start) && spec in DesiredSpecs(p)
    ensures Committed(Exec(w, StartTarget(spec)), p, start)
  {
    hide *;
    var r := Exec(w, StartTarget(spec));
    CommittedParts(w, p, start);
    DesiredIsRunningTarget(p, spec);
    StartKeepsProcesses(w, spec, p);
    StartFrame(w, spec);
    SameUnits(w, r, p, start);
    CommittedFrame(w, r, p, start);
  }

  lemma StartKeepsProcesses(w: World, spec: ProcessSpec, p: Plan)
    requires RunsEither(w, p) && RunsTarget(w, p)
    requires spec.name in w.specs && w.specs[spec.name] == spec && IsEither(p, spec.name, spec)
    requires spec.name in RunningTarget(p) && RunningTarget(p)[spec.name] == spec
    ensures RunsEither(Exec(w, StartTarget(spec)), p) && RunsTarget(Exec(w, StartTarget(spec)), p)
  {
    hide RunsEither, Exec, IsEither, RunningTarget;
    StartKeepsEither(w, spec, p);
    StartKeepsTargets(w, spec, p);
  }

  lemma StartKeepsEither(w: World, spec: ProcessSpec, p: Plan)
    requires RunsEither(w, p) && spec.name in w.specs && w.specs[spec.name] == spec && IsEither(p, spec.name, spec)
    requires spec.name in w.survivors ==> w.survivors[spec.name] == spec
    ensures RunsEither(Exec(w, StartTarget(spec)), p)
  {
    hide IsEither;
  }

  lemma StartKeepsTargets(w: World, spec: ProcessSpec, p: Plan)
    requires RunsTarget(w, p) && spec.name in w.specs && w.specs[spec.name] == spec
    requires spec.name in RunningTarget(p) && RunningTarget(p)[spec.name] == spec
    ensures RunsTarget(Exec(w, StartTarget(spec)), p)
  {
    hide IsEither, RunningTarget;
  }

  lemma StartUnitStep(w: World, spec: ProcessSpec, p: Plan, start: World)
    requires WellFormed(p) && Committed(w, p, start) && spec in AutostartUnits(p)
    ensures Committed(Exec(w, StartUnit(UnitOf(spec))), p, start)
  {
    assert UnitOf(spec) in UnitNames(AutostartUnits(p));
    hide *;
    var r := Exec(w, StartUnit(UnitOf(spec)));
    GoneIsGone(p);
    CommittedParts(w, p, start);
    StartUnitFrame(w, UnitOf(spec));
    SameProcesses(w, r, p);
    SameTargets(w, r, p);
    LoadingKeepsUnits(w, UnitOf(spec), p, start);
    CommittedFrame(w, r, p, start);
  }

  lemma LoadingKeepsUnits(w: World, unit: string, p: Plan, start: World)
    requires UnitsToward(w, p, start) && unit in UnitNames(AutostartUnits(p))
    ensures UnitsToward(Exec(w, StartUnit(unit)), p, start)
  {
    hide Gone, UnitSpecs, AutostartUnits;
  }

  lemma LaunchPrefix(w: World, budget: nat, p: Plan, start: World)
    requires WellFormed(p) && Committed(w, p, start)
    ensures Committed(RunFor(Exec, w, LaunchOps(p), budget), p, start)
  {
    var kept := (s: World) => Committed(s, p, start);
    forall s, op | kept(s) && op in LaunchOps(p) ensures kept(Exec(s, op)) {
      LaunchStep(s, op, p, start);
    }
    hide Committed, LaunchOps;
    RunForKeeps(Exec, kept, w, LaunchOps(p), budget);
  }

  lemma LaunchStep(w: World, op: Op, p: Plan, start: World)
    requires WellFormed(p) && Committed(w, p, start) && op in LaunchOps(p)
    ensures Committed(Exec(w, op), p, start)
  {
    hide Committed, WellFormed, DesiredSpecs, AutostartUnits;
    if op in StartOps(DesiredSpecs(p)) {
      var spec :| spec in DesiredSpecs(p) && op == StartTarget(spec);
      StartStep(w, spec, p, start);
    } else {
      var spec :| spec in AutostartUnits(p) && op == StartUnit(UnitOf(spec));
      StartUnitStep(w, spec, p, start);
    }
  }

  // ---------------------------------------------------------------- running to the end

  lemma DesiredNames(p: Plan)
    requires WellFormed(p)
    ensures SpecNames(DesiredSpecs(p)) == RunningTarget(p).Keys
    ensures forall spec :: spec in DesiredSpecs(p) ==> spec.name in Specs(p.target) && Specs(p.target)[spec.name] == spec
  {
    forall n | n in RunningTarget(p) ensures n in SpecNames(DesiredSpecs(p)) {
      NamedIsListed(p.target.processes, SpecName, n);
      assert Specs(p.target)[n] in DesiredSpecs(p);
    }
    hide WellFormed, IsDesired;
    forall spec | spec in DesiredSpecs(p)
      ensures spec.name in RunningTarget(p) && spec.name in Specs(p.target) && Specs(p.target)[spec.name] == spec
    {
      DesiredIsRunningTarget(p, spec);
    }
  }

  lemma SurvivorsRunTarget(w: World, p: Plan)
    requires RunsEither(w, p) && RunsTarget(w, p) && w.specs == Specs(p.target)
    ensures SurvivorsAreCurrent(w)
  {
    hide IsEither;
  }

  lemma LaunchedIsRunningTarget(w: World, r: World, p: Plan)
    requires RunsTarget(w, p) && w.specs == Specs(p.target)
    requires Launched(w, r, RunningTarget(p).Keys)
    ensures r == w.(owned := RunningTarget(p), survivors := map[])
  {
    hide Specs, IsDesired;
    assert r.owned.Keys == RunningTarget(p).Keys;
    assert r.owned == RunningTarget(p);
  }

  lemma ProcessesAreLaunched(w: World, p: Plan, start: World)
    requires WellFormed(p) && Committed(w, p, start)
    ensures RunAll(Exec, w, StartOps(DesiredSpecs(p))) == w.(owned := RunningTarget(p), survivors := map[])
  {
    hide *;
    DesiredNames(p);
    CommittedParts(w, p, start);
    SurvivorsRunTarget(w, p);
    StartRun(w, DesiredSpecs(p));
    LaunchedIsRunningTarget(w, RunAll(Exec, w, StartOps(DesiredSpecs(p))), p);
  }

  lemma AutostartDefinitions(p: Plan)
    requires WellFormed(p)
    ensures forall spec :: spec in AutostartUnits(p) ==>
      UnitOf(spec) in UnitFiles(UnitSpecs(p.target)) && UnitFiles(UnitSpecs(p.target))[UnitOf(spec)] == spec
  {
    UnitFilesHold(UnitSpecs(p.target));
    hide UnitFiles;
    forall spec | spec in AutostartUnits(p)
      ensures UnitOf(spec) in UnitFiles(UnitSpecs(p.target)) && UnitFiles(UnitSpecs(p.target))[UnitOf(spec)] == spec
    {
      assert spec in UnitSpecs(p.target);
      var held := UnitFiles(UnitSpecs(p.target))[UnitOf(spec)];
      ListedIsNamed(p.target.processes, SpecName, spec);
      ListedIsNamed(p.target.processes, SpecName, held);
    }
  }

  lemma LoadedBecomesTarget(w: World, p: Plan, start: World)
    requires WellFormed(p) && UnitsToward(w, p, start) && w.loaded.Keys !! Gone(p)
    ensures w.loaded + UnitFiles(AutostartUnits(p)) == start.loaded - Gone(p) + UnitFiles(AutostartUnits(p))
  {
    UnitFilesHold(AutostartUnits(p));
    hide WellFormed, Gone, AutostartUnits, UnitSpecs, UnitFiles;
    var r, goal := w.loaded + UnitFiles(AutostartUnits(p)), start.loaded - Gone(p) + UnitFiles(AutostartUnits(p));
    forall u ensures SameAt(r, goal, u) {
      if u !in Gone(p) && u !in UnitNames(AutostartUnits(p)) {
        assert SameAt(w.loaded, start.loaded, u);
      }
    }
    SameEverywhere(r, goal);
  }

  lemma UnitsAreLaunched(w: World, p: Plan, start: World)
    requires WellFormed(p) && UnitsToward(w, p, start) && w.loaded.Keys !! Gone(p)
    requires w.units == start.units - Gone(p) + UnitFiles(UnitSpecs(p.target))
    ensures RunAll(Exec, w, StartUnitOps(AutostartUnits(p)))
         == w.(loaded := start.loaded - Gone(p) + UnitFiles(AutostartUnits(p)))
  {
    hide *;
    AutostartDefinitions(p);
    StartUnitRun(w, AutostartUnits(p));
    LoadedBecomesTarget(w, p, start);
  }

  lemma CommittedValues(w: World, p: Plan, start: World)
    requires Committed(w, p, start)
    ensures w.(owned := RunningTarget(p), survivors := map[],
               loaded := start.loaded - Gone(p) + UnitFiles(AutostartUnits(p))) == TargetWorld(start, p).(journal := w.journal)
    ensures w.units == start.units - Gone(p) + UnitFiles(UnitSpecs(p.target))
  {
    hide UnitsToward, RunsTarget, TablesEither, Gone, RemovedJobs, UnitSpecs, AutostartUnits, UnitFiles, Scheduled, RunningTarget,
      IsEither, Specs, Jobs;
    assert w.drained == JobNames(RemovedJobs(p));
  }

  /** Launching a committed world ends in the target world. */
  lemma LaunchIsExact(w: World, p: Plan, start: World)
    requires WellFormed(p) && Committed(w, p, start)
    ensures RunAll(Exec, w, LaunchOps(p)) == TargetWorld(start, p).(journal := w.journal)
  {
    assert LaunchOps(p) == StartOps(DesiredSpecs(p)) + StartUnitOps(AutostartUnits(p));
    hide *;
    var started := w.(owned := RunningTarget(p), survivors := map[]);
    RunAllConcat(Exec, w, StartOps(DesiredSpecs(p)), StartUnitOps(AutostartUnits(p)));
    ProcessesAreLaunched(w, p, start);
    CommittedParts(w, p, start);
    CommittedValues(w, p, start);
    SameUnits(w, started, p, start);
    UnitsAreLaunched(started, p, start);
  }
}
