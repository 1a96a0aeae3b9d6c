/**
  One attempt of a configuration apply, and one forward recovery, stopped after any
  number of effects.  What is left either can still be restored to the previous
  snapshot or must be finished towards the target, and the persisted stage says which;
  run to the end, both leave exactly the target world.
 */
module ConfigAttempts {
  import opened Options
  import opened Crashes
  import opened Names
  import opened Definitions
  import opened ConfigPlan
  import opened ConfigApply
  import opened ConfigPhases
  import opened ConfigRecovery
  import opened ConfigForward

  /** Stage moves towards the target, and the commit of its definitions. */
  ghost predicate IsCommitting(ops: seq<Op>, p: Plan) {
    forall op :: op in ops ==> op == CommitOp(p.target) || (op.SetStage? && HeadsForTarget(op.stage))
  }

  ghost predicate IsStaging(ops: seq<Op>) {
    forall op :: op in ops ==> op.SetStage? && HeadsForTarget(op.stage)
  }

  lemma CommittingPrefix(w: World, ops: seq<Op>, budget: nat, p: Plan, start: World)
    requires Ready(w, p, start) && IsCommitting(ops, p)
    ensures Ready(RunFor(Exec, w, ops, budget), p, start)
    ensures Committed(w, p, start) ==> Committed(RunFor(Exec, w, ops, budget), p, start)
  {
    hide Ready, CommitOp;
    var kept := (s: World) => Ready(s, p, start) && (Committed(w, p, start) ==> Committed(s, p, start));
    forall s, op | kept(s) && op in ops ensures kept(Exec(s, op)) {
      CommitStep(s, op, p, start);
    }
    RunForKeeps(Exec, kept, w, ops, budget);
  }

  lemma {:induction false} CommittingCommits(w: World, ops: seq<Op>, p: Plan, start: World)
    requires Ready(w, p, start) && IsCommitting(ops, p) && CommitOp(p.target) in ops
    ensures Committed(RunAll(Exec, w, ops), p, start)
    decreases |ops|
  {
    var rest := ops[1..];
    assert ops == [ops[0]] + rest;
    hide Ready, Committed, CommitOp, RunAll;
    RunAllCons(Exec, w, ops[0], rest);
    assert ops[0] in ops;
    CommitStep(w, ops[0], p, start);
    assert RunAll(Exec, Exec(w, ops[0]), rest) == RunFor(Exec, Exec(w, ops[0]), rest, |rest|) by { RunAllIsRunFor(Exec(w, ops[0]), rest); }
    if ops[0] == CommitOp(p.target) {
      CommittingPrefix(Exec(w, ops[0]), rest, |rest|, p, start);
    } else {
      CommittingCommits(Exec(w, ops[0]), rest, p, start);
    }
  }

  lemma RunAllIsRunFor(w: World, ops: seq<Op>)
    ensures RunAll(Exec, w, ops) == RunFor(Exec, w, ops, |ops|)
  {
  }

  lemma ReadyIsForward(w: World, p: Plan, start: World)
    requires Ready(w, p, start)
    ensures Forward(w, p, start)
  {
  }

  lemma CommittedIsReady(w: World, p: Plan, start: World)
    requires Committed(w, p, start)
    ensures Ready(w, p, start)
  {
  }

  /** Launch and the last stage moves, stopped anywhere. */
  lemma LaunchThenEndPrefix(c: World, end: seq<Op>, budget: nat, p: Plan, start: World)
    requires WellFormed(p) && Committed(c, p, start) && IsStaging(end)
    ensures Forward(RunFor(Exec, c, LaunchOps(p) + end, budget), p, start)
  {
    hide *;
    var launch := LaunchOps(p);
    RunForConcat(Exec, c, launch, end, budget);
    var r := RunFor(Exec, c, launch + end, budget);
    if budget <= |launch| {
      LaunchPrefix(c, budget, p, start);
    } else {
      StagingIsCommitting(end, p);
      LaunchPrefix(c, |launch|, p, start);
      RunAllIsRunFor(c, launch);
      CommittedIsReady(RunAll(Exec, c, launch), p, start);
      CommittingPrefix(RunAll(Exec, c, launch), end, budget - |launch|, p, start);
    }
    CommittedIsReady(r, p, start);
    ReadyIsForward(r, p, start);
  }

  lemma StagingIsCommitting(ops: seq<Op>, p: Plan)
    requires IsStaging(ops)
    ensures IsCommitting(ops, p)
  {
  }

  /** Commit, launch and the last stage moves, stopped anywhere. */
  lemma TailPrefix(w: World, head: seq<Op>, end: seq<Op>, budget: nat, p: Plan, start: World)
    requires WellFormed(p) && Ready(w, p, start)
    requires IsCommitting(head, p) && CommitOp(p.target) in head && IsStaging(end)
    ensures Forward(RunFor(Exec, w, head + (LaunchOps(p) + end), budget), p, start)
  {
    hide *;
    RunForConcat(Exec, w, head, LaunchOps(p) + end, budget);
    CommittingPrefix(w, head, budget, p, start);
    CommittingCommits(w, head, p, start);
    if budget <= |head| {
      ReadyIsForward(RunFor(Exec, w, head, budget), p, start);
    } else {
      LaunchThenEndPrefix(RunAll(Exec, w, head), end, budget - |head|, p, start);
    }
  }

  lemma {:induction false} StagingOnlyMovesTheStage(w: World, ops: seq<Op>)
    requires IsStaging(ops)
    ensures var r := RunAll(Exec, w, ops); r == w.(journal := r.journal)
    decreases |ops|
  {
    if ops != [] {
      assert ops[0] in ops && ops == [ops[0]] + ops[1..];
      RunAllCons(Exec, w, ops[0], ops[1..]);
      StagingOnlyMovesTheStage(Exec(w, ops[0]), ops[1..]);
    }
  }

  lemma TailIsExact(w: World, head: seq<Op>, end: seq<Op>, p: Plan, start: World)
    requires WellFormed(p) && Ready(w, p, start)
    requires IsCommitting(head, p) && CommitOp(p.target) in head && IsStaging(end)
    ensures var r := RunAll(Exec, w, head + (LaunchOps(p) + end)); r == TargetWorld(start, p).(journal := r.journal)
  {
    hide *;
    RunAllConcat(Exec, w, head, LaunchOps(p) + end);
    CommittingCommits(w, head, p, start);
    var c := RunAll(Exec, w, head);
    RunAllConcat(Exec, c, LaunchOps(p), end);
    LaunchIsExact(c, p, start);
    StagingOnlyMovesTheStage(RunAll(Exec, c, LaunchOps(p)), end);
  }

  // ------------------------------------------------------------------- what a plan destroys

  /** A previous job is missing from the target, or a previous system-registered process is not in it as it was. */
  ghost predicate Destroys(p: Plan) {
    || (exists job :: job in p.previous.jobs && forall other :: other in p.target.jobs ==> other.name != job.name)
    || (exists spec :: spec in p.previous.processes && HasUnit(spec) && spec !in p.target.processes)
  }

  lemma TargetJobNames(p: Plan, name: string)
    ensures name in Jobs(p.target) <==> exists other :: other in p.target.jobs && other.name == name
  {
    if name in Jobs(p.target) {
      NamedIsListed(p.target.jobs, JobName, name);
    }
    if other :| other in p.target.jobs && other.name == name {
      ListedIsNamed(p.target.jobs, JobName, other);
    }
  }

  lemma UnitIsDestroyedIff(p: Plan, spec: ProcessSpec)
    requires WellFormed(p) && HasUnit(spec)
    ensures IsObsoleteUnit(p, spec) || ReplacesUnit(p, spec) <==> spec !in p.target.processes
  {
    if spec in p.target.processes {
      forall other | other in p.target.processes && other.name == spec.name ensures other == spec {
        ListedIsNamed(p.target.processes, SpecName, spec);
        ListedIsNamed(p.target.processes, SpecName, other);
      }
    }
  }

  lemma DestroysIff(p: Plan)
    requires WellFormed(p)
    ensures IsIrreversible(p) <==> Destroys(p)
  {
    hide WellFormed, IsObsoleteUnit, ReplacesUnit, Jobs;
    forall job: Job ensures job.name in Jobs(p.target) <==> exists other :: other in p.target.jobs && other.name == job.name {
      TargetJobNames(p, job.name);
    }
    forall spec: ProcessSpec | HasUnit(spec)
      ensures IsObsoleteUnit(p, spec) || ReplacesUnit(p, spec) <==> spec !in p.target.processes
    {
      UnitIsDestroyedIff(p, spec);
    }
    assert forall spec :: IsObsoleteUnit(p, spec) || ReplacesUnit(p, spec) ==> HasUnit(spec) by { OnlyUnits(p); }
  }

  lemma OnlyUnits(p: Plan)
    ensures forall spec :: IsObsoleteUnit(p, spec) || ReplacesUnit(p, spec) ==> HasUnit(spec)
  {
  }

  // ------------------------------------------------------------------- forward recovery

  lemma StagedStaysForward(w: World, p: Plan, start: World)
    requires Forward(w, p, start)
    ensures Forward(Staged(w, p), p, start) && IsStaged(Staged(w, p), p)
  {
    ForwardSchedule(w, p, start);
    hide *;
    StagingIsTeardown(p);
    StagingStages(w, p);
    StagingRun(w, p);
    RunAllIsRunFor(w, StagingOps(p));
    TeardownPrefix(w, StagingOps(p), |StagingOps(p)|, p, start);
  }

  lemma ForwardSchedule(w: World, p: Plan, start: World)
    requires Forward(w, p, start)
    ensures w.schedule.Keys <= JobNames(p.previous.jobs) + JobNames(p.target.jobs)
    ensures w.owned.Keys !! w.survivors.Keys
  {
  }

  /** Draining what is still in the table drains every removed job. */
  lemma StillToDrainIsEnough(w: World, p: Plan, start: World)
    requires Forward(w, p, start)
    ensures JobNames(StillToDrain(p, w)) <= JobNames(RemovedJobs(p)) <= w.drained + JobNames(StillToDrain(p, w))
  {
    hide UnitsToward, RunsEither, Specs;
    forall job | job in RemovedJobs(p) ensures job.name in w.drained + JobNames(StillToDrain(p, w)) {
      if w.jobs == Jobs(p.previous) {
        ListedIsNamed(p.previous.jobs, JobName, job);
        assert job in StillToDrain(p, w);
      }
    }
  }

  function ForwardHead(p: Plan): seq<Op> {
    [CommitOp(p.target), SetStage(NewProcessesStarted)]
  }

  lemma ForwardParts(p: Plan, w: World)
    ensures ForwardBody(p, w) == StagingOps(p) + (TeardownOps(p, StillToDrain(p, w)) + (ForwardHead(p) + (LaunchOps(p) + [])))
    ensures IsCommitting(ForwardHead(p), p) && CommitOp(p.target) in ForwardHead(p)
  {
    assert LaunchOps(p) + [] == LaunchOps(p);
    hide StagingOps, LaunchOps, TeardownOps;
  }

  /** The same jobs are left to drain after staging. */
  lemma StagedDrainsTheSame(w: World, p: Plan)
    ensures StillToDrain(p, Staged(w, p)) == StillToDrain(p, w)
  {
  }

  lemma ReadyAfterTeardown(w: World, p: Plan, start: World)
    requires WellFormed(p) && Forward(w, p, start)
    ensures var s := Staged(w, p); Ready(RunAll(Exec, s, TeardownOps(p, StillToDrain(p, w))), p, start)
  {
    hide *;
    var s := Staged(w, p);
    StagedStaysForward(w, p, start);
    StagedDrainsTheSame(w, p);
    StillToDrainIsEnough(s, p, start);
    ForwardSchedule(s, p, start);
    TornDownIsReady(s, p, start, StillToDrain(p, w));
    TeardownRun(s, p, StillToDrain(p, w));
  }

  /** A forward recovery stopped anywhere can be rolled forward again. */
  lemma ForwardPrefix(w: World, p: Plan, start: World, budget: nat)
    requires WellFormed(p) && Forward(w, p, start)
    ensures Forward(RunFor(Exec, w, ForwardBody(p, w), budget), p, start)
  {
    hide *;
    ForwardParts(p, w);
    var drains := TeardownOps(p, StillToDrain(p, w));
    var tail := ForwardHead(p) + (LaunchOps(p) + []);
    RunForConcat(Exec, w, StagingOps(p), drains + tail, budget);
    StagingIsTeardown(p);
    TeardownPrefix(w, StagingOps(p), budget, p, start);
    if budget > |StagingOps(p)| {
      var s, left := Staged(w, p), budget - |StagingOps(p)|;
      StagingRun(w, p);
      StagedStaysForward(w, p, start);
      RunForConcat(Exec, s, drains, tail, left);
      StagedDrainsTheSame(w, p);
      StillToDrainIsEnough(s, p, start);
      TeardownIsTeardown(p, StillToDrain(p, w));
      TeardownPrefix(s, drains, left, p, start);
      if left > |drains| {
        ReadyAfterTeardown(w, p, start);
        NothingIsStaging();
        TailPrefix(RunAll(Exec, s, drains), ForwardHead(p), [], left - |drains|, p, start);
      }
    }
  }

  lemma NothingIsStaging()
    ensures IsStaging([])
  {
  }

  /** A forward recovery that runs to its end leaves exactly the target world. */
  lemma ForwardIsExact(w: World, p: Plan, start: World)
    requires WellFormed(p) && Forward(w, p, start)
    ensures RunAll(Exec, w, ForwardOps(p, w)) == TargetWorld(start, p)
  {
    assert ForwardOps(p, w) == ForwardBody(p, w) + [ClearJournal];
    hide *;
    ForwardParts(p, w);
    var drains := TeardownOps(p, StillToDrain(p, w));
    var tail := ForwardHead(p) + (LaunchOps(p) + []);
    RunAllConcat(Exec, w, StagingOps(p) + (drains + tail), [ClearJournal]);
    RunAllConcat(Exec, w, StagingOps(p), drains + tail);
    StagingRun(w, p);
    RunAllConcat(Exec, Staged(w, p), drains, tail);
    ReadyAfterTeardown(w, p, start);
    NothingIsStaging();
    TailIsExact(RunAll(Exec, Staged(w, p), drains), ForwardHead(p), [], p, start);
    Clearing(RunAll(Exec, w, ForwardBody(p, w)), TargetWorld(start, p));
    TargetIsSettled(start, p);
  }

  lemma Clearing(w: World, goal: World)
    requires w == goal.(journal := w.journal)
    ensures RunAll(Exec, w, [ClearJournal]) == goal.(journal := None)
  {
    RunAllOne(Exec, w, ClearJournal);
  }

  lemma TargetIsSettled(start: World, p: Plan)
    ensures TargetWorld(start, p).journal == None
  {
  }

  lemma {:induction false} DrainsAreOfJobs(jobs: seq<Job>, name: string)
    ensures Drain(name) in DrainOps(jobs) <==> name in JobNames(jobs)
  {
    if jobs != [] {
      DrainsAreOfJobs(jobs[1..], name);
      assert jobs == [jobs[0]] + jobs[1..];
    }
  }

  lemma OnlyTeardownDrains(p: Plan, name: string)
    ensures Drain(name) !in StagingOps(p) && Drain(name) !in LaunchOps(p)
    ensures Drain(name) !in RemoveOps(ObsoleteUnits(p)) && Drain(name) !in StopOps(ChangedDirects(p))
  {
    hide RemovedJobs, UnitSpecs, DesiredSpecs, AutostartUnits, ObsoleteUnits, ChangedDirects;
  }

  lemma TeardownDrainsIff(p: Plan, jobs: seq<Job>, name: string)
    ensures Drain(name) in TeardownOps(p, jobs) <==> name in JobNames(jobs)
  {
    OnlyTeardownDrains(p, name);
    DrainsAreOfJobs(jobs, name);
    hide RemoveOps, DrainOps, StopOps, JobNames, ObsoleteUnits, ChangedDirects;
  }

  lemma StillToDrainIff(p: Plan, w: World, name: string)
    ensures name in JobNames(StillToDrain(p, w)) <==> name in w.jobs && name !in Jobs(p.target) && name in JobNames(p.previous.jobs)
  {
    hide Jobs;
  }

  lemma ForwardOpsDrain(p: Plan, w: World, name: string)
    ensures Drain(name) in ForwardOps(p, w) <==> Drain(name) in TeardownOps(p, StillToDrain(p, w))
  {
    OnlyTeardownDrains(p, name);
    hide StagingOps, LaunchOps, TeardownOps, StillToDrain;
  }

  /** A forward recovery drains exactly the removed jobs that are still in the table, so none after the commit. */
  lemma ForwardDrainsIff(p: Plan, w: World, name: string)
    ensures Drain(name) in ForwardOps(p, w) <==> name in w.jobs && name !in Jobs(p.target) && name in JobNames(p.previous.jobs)
  {
    hide *;
    ForwardOpsDrain(p, w, name);
    TeardownDrainsIff(p, StillToDrain(p, w), name);
    StillToDrainIff(p, w, name);
  }

  // ------------------------------------------------------------------- the first attempt

  /** The world once the journal row exists. */
  function Begun(start: World): World {
    start.(journal := Some(Prepared))
  }

  ghost predicate Unharmed(w: World, p: Plan, start: World) {
    Backward(w, p, start) && w.survivors == map[] && w.strays == {}
  }

  lemma UnharmedPrefix(w: World, ops: seq<Op>, budget: nat, p: Plan, start: World)
    requires WellFormed(p) && Agrees(start, p) && Unharmed(w, p, start)
    requires forall op :: op in ops ==> IsReversible(op, p)
    ensures Unharmed(RunFor(Exec, w, ops, budget), p, start)
  {
    hide Backward, IsReversible, WellFormed, Agrees;
    var kept := (s: World) => Unharmed(s, p, start);
    forall s, op | kept(s) && op in ops ensures kept(Exec(s, op)) {
      ReversibleStep(s, op, p, start);
      NoSurvivorNoStray(s, op, p);
    }
    RunForKeeps(Exec, kept, w, ops, budget);
  }

  lemma NoSurvivorNoStray(w: World, op: Op, p: Plan)
    requires IsReversible(op, p) && w.survivors == map[] && w.strays == {}
    ensures Exec(w, op).survivors == map[] && Exec(w, op).strays == {}
  {
    hide IsNewUnit;
  }

  function PreparationOps(p: Plan): seq<Op> {
    StagingOps(p) + [SetStage(SchedulerAndRegistrarStaged)]
  }

  function AfterPreparation(start: World, p: Plan): World {
    Staged(Begun(start), p).(journal := Some(SchedulerAndRegistrarStaged))
  }

  lemma PreparationIsReversible(p: Plan)
    ensures forall op :: op in PreparationOps(p) ==> IsReversible(op, p)
  {
    hide RemovedJobs;
  }

  lemma PreparationRun(start: World, p: Plan)
    ensures RunAll(Exec, Begun(start), PreparationOps(p)) == AfterPreparation(start, p)
  {
    hide RunAll, StagingOps, Staged;
    RunAllConcat(Exec, Begun(start), StagingOps(p), [SetStage(SchedulerAndRegistrarStaged)]);
    StagingRun(Begun(start), p);
    RunAllOne(Exec, Staged(Begun(start), p), SetStage(SchedulerAndRegistrarStaged));
  }

  lemma BegunIsUnharmed(start: World, p: Plan)
    requires Agrees(start, p)
    ensures Unharmed(Begun(start), p, start)
    ensures Begun(start).schedule.Keys <= JobNames(p.previous.jobs) + JobNames(p.target.jobs)
  {
    ScheduledNames(p.previous.jobs);
  }

  lemma PreparedFacts(start: World, p: Plan)
    requires WellFormed(p) && Agrees(start, p)
    ensures var w := AfterPreparation(start, p);
            && Unharmed(w, p, start) && IsStaged(w, p) && w.owned.Keys !! w.survivors.Keys
            && w.schedule.Keys <= JobNames(p.previous.jobs) + JobNames(p.target.jobs)
  {
    var b := Begun(start);
    assert AfterPreparation(start, p) == Staged(b, p).(journal := Some(SchedulerAndRegistrarStaged));
    BegunIsUnharmed(start, p);
    PreparationIsReversible(p);
    hide PreparationOps, Agrees, WellFormed, Unharmed, IsReversible, RunAll;
    UnharmedPrefix(b, PreparationOps(p), |PreparationOps(p)|, p, start);
    PreparationRun(start, p);
    RunAllIsRunFor(b, PreparationOps(p));
    StagingStages(b, p);
    ScheduledNames(p.target.jobs);
    hide Staged;
    assert Unharmed(AfterPreparation(start, p), p, start);
    StagedDisjoint(AfterPreparation(start, p), p, start);
  }

  lemma StagedDisjoint(w: World, p: Plan, start: World)
    requires Unharmed(w, p, start) && IsStaged(w, p)
    ensures w.owned.Keys !! w.survivors.Keys
    ensures w.schedule.Keys <= JobNames(p.previous.jobs) + JobNames(p.target.jobs)
  {
    ScheduledNames(p.target.jobs);
    hide UnitsBetween, RunsPrevious;
  }

  /** Once the stage heads for the target, the removed jobs drained or not, a staged world is a forward one. */
  lemma Crossed(w: World, p: Plan, start: World, stage: Stage)
    requires WellFormed(p) && Agrees(start, p) && Unharmed(w, p, start) && IsStaged(w, p) && HeadsForTarget(stage)
    ensures Forward(w.(journal := Some(stage)), p, start) && IsStaged(w.(journal := Some(stage)), p)
  {
    StagedDisjoint(w, p, start);
    hide Forward, WellFormed, Agrees;
    CrossingTheBoundary(w, p, start, stage);
  }

  function ApplyHead(p: Plan): seq<Op> {
    [SetStage(DirectProcessesStopped), CommitOp(p.target), SetStage(DatabaseCommitted)]
  }

  function ApplyEnd(): seq<Op> {
    [SetStage(NewProcessesStarted)]
  }

  lemma ApplyParts(p: Plan)
    ensures ApplyBody(p)
         == PreparationOps(p) + (BoundaryOps(p) + (TeardownOps(p, RemovedJobs(p)) + (ApplyHead(p) + (LaunchOps(p) + ApplyEnd()))))
  {
    hide StagingOps, LaunchOps, TeardownOps, BoundaryOps;
  }

  lemma ApplyHeadCommits(p: Plan)
    ensures IsCommitting(ApplyHead(p), p) && CommitOp(p.target) in ApplyHead(p) && IsStaging(ApplyEnd())
    ensures IsCommitting([CommitOp(p.target), SetStage(DatabaseCommitted)], p)
  {
  }

  /** Everything after the boundary: tear down, commit, launch. */
  function AfterBoundary(p: Plan): seq<Op> {
    TeardownOps(p, RemovedJobs(p)) + (ApplyHead(p) + (LaunchOps(p) + ApplyEnd()))
  }

  lemma AfterBoundaryIs(p: Plan)
    ensures AfterBoundary(p) == TeardownOps(p, RemovedJobs(p)) + (ApplyHead(p) + (LaunchOps(p) + ApplyEnd()))
  {
    hide TeardownOps, RemovedJobs, ApplyHead, LaunchOps, ApplyEnd;
  }

  lemma ReadyAfterDraining(f: World, p: Plan, start: World)
    requires WellFormed(p) && Forward(f, p, start) && IsStaged(f, p)
    ensures Ready(RunAll(Exec, f, TeardownOps(p, RemovedJobs(p))), p, start)
  {
    hide *;
    ForwardSchedule(f, p, start);
    DrainsAllOf(f, p);
    TeardownRun(f, p, RemovedJobs(p));
    TornDownIsReady(f, p, start, RemovedJobs(p));
  }

  lemma AfterBoundaryPrefix(f: World, p: Plan, start: World, budget: nat)
    requires WellFormed(p) && Forward(f, p, start) && IsStaged(f, p)
    ensures Forward(RunFor(Exec, f, AfterBoundary(p), budget), p, start)
  {
    hide *;
    AfterBoundaryIs(p);
    var drains, tail := TeardownOps(p, RemovedJobs(p)), ApplyHead(p) + (LaunchOps(p) + ApplyEnd());
    ApplyHeadCommits(p);
    DrainsAllOf(f, p);
    ReadyAfterDraining(f, p, start);
    RunForConcat(Exec, f, drains, tail, budget);
    TeardownIsTeardown(p, RemovedJobs(p));
    TeardownPrefix(f, drains, budget, p, start);
    if budget > |drains| {
      TailPrefix(RunAll(Exec, f, drains), ApplyHead(p), ApplyEnd(), budget - |drains|, p, start);
    }
  }

  lemma AfterBoundaryIsExact(f: World, p: Plan, start: World)
    requires WellFormed(p) && Forward(f, p, start) && IsStaged(f, p)
    ensures var r := RunAll(Exec, f, AfterBoundary(p)); r == TargetWorld(start, p).(journal := r.journal)
  {
    hide *;
    AfterBoundaryIs(p);
    var drains, tail := TeardownOps(p, RemovedJobs(p)), ApplyHead(p) + (LaunchOps(p) + ApplyEnd());
    ApplyHeadCommits(p);
    ReadyAfterDraining(f, p, start);
    RunAllConcat(Exec, f, drains, tail);
    TailIsExact(RunAll(Exec, f, drains), ApplyHead(p), ApplyEnd(), p, start);
  }

  lemma BoundaryIs(p: Plan)
    ensures IsIrreversible(p) ==> BoundaryOps(p) == [SetStage(ForwardRecovery)]
    ensures HeadsForTarget(ForwardRecovery) && HeadsForTarget(DirectProcessesStopped)
  {
    hide IsIrreversible;
  }

  /** A plan that destroys something persists its direction first. */
  lemma IrreversibleAttempt(p: Plan, start: World, budget: nat)
    requires WellFormed(p) && Agrees(start, p) && IsIrreversible(p)
    ensures var r := RunFor(Exec, AfterPreparation(start, p), BoundaryOps(p) + AfterBoundary(p), budget);
            if budget == 0 then Unharmed(r, p, start) else Forward(r, p, start)
    ensures var r := RunAll(Exec, AfterPreparation(start, p), BoundaryOps(p) + AfterBoundary(p));
            r == TargetWorld(start, p).(journal := r.journal)
  {
    hide *;
    BoundaryIs(p);
    var w := AfterPreparation(start, p);
    PreparedFacts(start, p);
    Crossed(w, p, start, ForwardRecovery);
    SetStageSets(w, ForwardRecovery);
    RunForCons(Exec, w, SetStage(ForwardRecovery), AfterBoundary(p), budget);
    RunAllCons(Exec, w, SetStage(ForwardRecovery), AfterBoundary(p));
    AfterBoundaryIsExact(Exec(w, SetStage(ForwardRecovery)), p, start);
    if budget > 0 {
      AfterBoundaryPrefix(Exec(w, SetStage(ForwardRecovery)), p, start, budget - 1);
    }
  }

  /** What stays to be done once the changed processes of a plan that destroys nothing are stopped. */
  function AfterStops(p: Plan): seq<Op> {
    [CommitOp(p.target), SetStage(DatabaseCommitted)] + (LaunchOps(p) + ApplyEnd())
  }

  lemma AfterStopsIs(p: Plan)
    ensures AfterStops(p) == [CommitOp(p.target), SetStage(DatabaseCommitted)] + (LaunchOps(p) + ApplyEnd())
    ensures CommitOp(p.target) in [CommitOp(p.target), SetStage(DatabaseCommitted)]
  {
    hide LaunchOps, ApplyEnd;
  }

  lemma AfterBoundaryParts(p: Plan)
    ensures AfterBoundary(p) == TeardownOps(p, RemovedJobs(p)) + ([SetStage(DirectProcessesStopped)] + AfterStops(p))
  {
    hide TeardownOps, LaunchOps, RemovedJobs;
    assert ApplyHead(p) == [SetStage(DirectProcessesStopped)] + [CommitOp(p.target), SetStage(DatabaseCommitted)];
  }

  /** The teardown of a plan that destroys nothing is reversible, and ends ready once its stage is persisted. */
  lemma ReversibleTeardown(p: Plan, start: World)
    requires WellFormed(p) && Agrees(start, p) && !IsIrreversible(p)
    ensures var w, drains := AfterPreparation(start, p), TeardownOps(p, RemovedJobs(p));
            var stopped := RunAll(Exec, w, drains);
            && Unharmed(stopped, p, start)
            && Ready(stopped.(journal := Some(DirectProcessesStopped)), p, start)
  {
    var w, drains := AfterPreparation(start, p), TeardownOps(p, RemovedJobs(p));
    var f := w.(journal := Some(DirectProcessesStopped));
    assert TornDown(f, p, RemovedJobs(p)) == TornDown(w, p, RemovedJobs(p)).(journal := Some(DirectProcessesStopped));
    assert HeadsForTarget(DirectProcessesStopped);
    hide *;
    NothingIsRemoved(p);
    PreparedFacts(start, p);
    UnharmedPrefix(w, drains, |drains|, p, start);
    RunAllIsRunFor(w, drains);
    Crossed(w, p, start, DirectProcessesStopped);
    DrainsAllOf(f, p);
    TeardownRun(w, p, RemovedJobs(p));
    TornDownIsReady(f, p, start, RemovedJobs(p));
  }

  lemma ReversibleAttempt(p: Plan, start: World, budget: nat)
    requires WellFormed(p) && Agrees(start, p) && !IsIrreversible(p)
    ensures var r := RunFor(Exec, AfterPreparation(start, p), BoundaryOps(p) + AfterBoundary(p), budget);
            if budget <= |TeardownOps(p, RemovedJobs(p))| then Unharmed(r, p, start) else Forward(r, p, start)
    ensures var r := RunAll(Exec, AfterPreparation(start, p), BoundaryOps(p) + AfterBoundary(p));
            r == TargetWorld(start, p).(journal := r.journal)
  {
    hide *;
    NothingIsRemoved(p);
    assert BoundaryOps(p) + AfterBoundary(p) == AfterBoundary(p);
    AfterBoundaryParts(p);
    AfterStopsIs(p);
    ApplyHeadCommits(p);
    var w, drains := AfterPreparation(start, p), TeardownOps(p, RemovedJobs(p));
    var stopped, rest := RunAll(Exec, w, drains), [SetStage(DirectProcessesStopped)] + AfterStops(p);
    PreparedFacts(start, p);
    ReversibleTeardown(p, start);
    var f := stopped.(journal := Some(DirectProcessesStopped));
    SetStageSets(stopped, DirectProcessesStopped);
    RunAllConcat(Exec, w, drains, rest);
    RunAllCons(Exec, stopped, SetStage(DirectProcessesStopped), AfterStops(p));
    TailIsExact(f, [CommitOp(p.target), SetStage(DatabaseCommitted)], ApplyEnd(), p, start);
    RunForConcat(Exec, w, drains, rest, budget);
    UnharmedPrefix(w, drains, budget, p, start);
    if budget > |drains| {
      RunForCons(Exec, stopped, SetStage(DirectProcessesStopped), AfterStops(p), budget - |drains|);
      TailPrefix(f, [CommitOp(p.target), SetStage(DatabaseCommitted)], ApplyEnd(), budget - |drains| - 1, p, start);
    }
  }

  /**
    The attempt has persisted the way forward: behind its staging and the stage write after it, at once if the plan
    destroys anything, and otherwise with the stage write behind its teardown.
   */
  ghost predicate Crosses(p: Plan, budget: nat) {
    var staged := |StagingOps(p)| + 1;
    budget > staged && (Destroys(p) || budget > staged + |TeardownOps(p, RemovedJobs(p))|)
  }

  lemma CrossesIff(p: Plan, budget: nat)
    ensures var left := budget - |PreparationOps(p)|;
            Crosses(p, budget) <==> left > 0 && (Destroys(p) || left > |TeardownOps(p, RemovedJobs(p))|)
  {
    hide Destroys, TeardownOps, StagingOps;
  }

  /** Wherever the first attempt stops, it can still be undone, or must be finished if it has crossed. */
  lemma AttemptPrefix(p: Plan, start: World, budget: nat)
    requires WellFormed(p) && Agrees(start, p)
    ensures var r := RunFor(Exec, Begun(start), ApplyBody(p), budget);
            if Crosses(p, budget) then Forward(r, p, start) else Unharmed(r, p, start)
  {
    hide *;
    CrossesIff(p, budget);
    DestroysIff(p);
    AfterBoundaryIs(p);
    ApplyParts(p);
    PreparationIsReversible(p);
    BegunIsUnharmed(start, p);
    PreparationRun(start, p);
    RunForConcat(Exec, Begun(start), PreparationOps(p), BoundaryOps(p) + AfterBoundary(p), budget);
    UnharmedPrefix(Begun(start), PreparationOps(p), budget, p, start);
    if budget > |PreparationOps(p)| {
      var left := budget - |PreparationOps(p)|;
      if IsIrreversible(p) {
        IrreversibleAttempt(p, start, left);
      } else {
        ReversibleAttempt(p, start, left);
      }
    }
  }

  /** An attempt that runs to its end leaves exactly the target world. */
  lemma AttemptIsExact(p: Plan, start: World)
    requires WellFormed(p) && Agrees(start, p)
    ensures RunAll(Exec, Begun(start), ApplyOps(p)) == TargetWorld(start, p)
  {
    assert ApplyOps(p) == ApplyBody(p) + [ClearJournal];
    hide *;
    AfterBoundaryIs(p);
    ApplyParts(p);
    PreparationRun(start, p);
    RunAllConcat(Exec, Begun(start), ApplyBody(p), [ClearJournal]);
    RunAllConcat(Exec, Begun(start), PreparationOps(p), BoundaryOps(p) + AfterBoundary(p));
    if IsIrreversible(p) {
      IrreversibleAttempt(p, start, 0);
    } else {
      ReversibleAttempt(p, start, 0);
    }
    Clearing(RunAll(Exec, Begun(start), ApplyBody(p)), TargetWorld(start, p));
    TargetIsSettled(start, p);
  }

  lemma DrainsAllOf(w: World, p: Plan)
    ensures JobNames(RemovedJobs(p)) <= w.drained + JobNames(RemovedJobs(p))
  {
  }

  lemma SetStageSets(w: World, stage: Stage)
    ensures Exec(w, SetStage(stage)) == w.(journal := Some(stage))
  {
  }

  /** A plan that destroys nothing may be undone until its changed processes are stopped. */
  lemma NothingIsRemoved(p: Plan)
    requires !IsIrreversible(p)
    ensures RemovedJobs(p) == [] && ObsoleteUnits(p) == [] && BoundaryOps(p) == []
    ensures forall op :: op in TeardownOps(p, RemovedJobs(p)) ==> IsReversible(op, p)
  {
    NoMembers(RemovedJobs(p));
    NoMembers(ObsoleteUnits(p));
    hide ChangedDirects;
  }

  lemma NoMembers<T>(items: seq<T>)
    ensures items == [] || exists item :: item in items
  {
    if items != [] {
      assert items[0] in items;
    }
  }
}
