/**
  The directly managed processes of a configuration apply: what runs in the target, and
  that a process the target leaves as it was is not touched, wherever anything stops.
 */
module ConfigProcesses {
  import opened Options
  import opened Crashes
  import opened Names
  import opened Definitions
  import opened ConfigPlan
  import opened ConfigApply
  import opened ConfigPhases
  import opened ConfigRecovery
  import opened ConfigForward
  import opened ConfigAttempts
  import opened ConfigLife

  /** What runs is exactly the direct processes of the target that start by themselves or ran before. */
  lemma TargetRuns(start: World, p: Plan, spec: ProcessSpec)
    requires WellFormed(p) && spec in p.target.processes
    ensures var owned := TargetWorld(start, p).owned;
            && (spec.name in owned <==> spec.mode.Direct? && (spec.autostart || spec.name in p.previous.running))
            && (spec.name in owned ==> owned[spec.name] == spec)
  {
    ListedIsNamed(p.target.processes, SpecName, spec);
    if spec.mode.Direct? {
      RunningStaysDesired(p.previous, p.target, spec);
    }
    hide WellFormed, Gone, UnitFiles, UnitSpecs, AutostartUnits, Jobs, Scheduled, JobNames, RemovedJobs, ByName;
  }

  /** A process the target leaves as it was. */
  predicate IsUnchanged(p: Plan, spec: ProcessSpec) {
    spec in p.previous.processes && spec in p.target.processes && spec.name in p.previous.running
  }

  predicate Runs(w: World, spec: ProcessSpec) {
    spec.name in w.owned && w.owned[spec.name] == spec
  }

  predicate Stops(op: Op, name: string) {
    op == StopDirect(name) || op == StopOwned(name)
  }

  lemma OthersKeepItRunning(w: World, op: Op, spec: ProcessSpec)
    requires Runs(w, spec) && !Stops(op, spec.name)
    ensures Runs(Exec(w, op), spec)
  {
    hide UnitOf, ByName;
  }

  ghost predicate Spare(ops: seq<Op>, name: string) {
    forall op :: op in ops ==> !Stops(op, name)
  }

  lemma SpareBoth(first: seq<Op>, second: seq<Op>, name: string)
    requires Spare(first, name) && Spare(second, name)
    ensures Spare(first + second, name)
  {
  }

  lemma SparedWhileRunning(w: World, ops: seq<Op>, budget: nat, spec: ProcessSpec)
    requires Runs(w, spec) && Spare(ops, spec.name)
    ensures Runs(RunFor(Exec, w, ops, budget), spec)
  {
    hide Runs, Stops, Exec;
    var kept := (s: World) => Runs(s, spec);
    forall s, op | kept(s) && op in ops ensures kept(Exec(s, op)) {
      OthersKeepItRunning(s, op, spec);
    }
    RunForKeeps(Exec, kept, w, ops, budget);
  }

  lemma StopsSpare(p: Plan, spec: ProcessSpec)
    requires WellFormed(p) && IsUnchanged(p, spec)
    ensures Spare(StopOps(ChangedDirects(p)), spec.name) && Spare(StopOwnedOps(NotRunningBefore(p)), spec.name)
  {
    ListedIsNamed(p.target.processes, SpecName, spec);
    forall other | other in ChangedDirects(p) ensures other.name != spec.name {
      ListedIsNamed(p.previous.processes, SpecName, spec);
      ListedIsNamed(p.previous.processes, SpecName, other);
    }
    hide WellFormed, ChangedDirects;
  }

  lemma {:induction false} DrainsSpare(jobs: seq<Job>, name: string)
    ensures Spare(DrainOps(jobs), name)
  {
    if jobs != [] {
      DrainsSpare(jobs[1..], name);
    }
  }

  lemma StagingSpares(p: Plan, name: string)
    ensures Spare(StagingOps(p), name) && Spare(LaunchOps(p), name) && Spare(RemoveOps(ObsoleteUnits(p)), name)
  {
    hide RemovedJobs, UnitSpecs, DesiredSpecs, AutostartUnits, ObsoleteUnits;
  }

  lemma RestoringSpares(p: Plan, entries: seq<ScheduledTrigger>, name: string)
    ensures Spare(RestoreScheduleOps(p, entries), name) && Spare(RestoreUnitsOps(p), name) && Spare(StartPreviousOps(p.previous.running), name)
  {
    hide NewUnits, UnitSpecs;
  }

  lemma MarksSpare(p: Plan, name: string)
    ensures Spare([ClearJournal], name) && Spare([CommitOp(p.previous)], name) && Spare(BoundaryOps(p), name)
    ensures Spare([SetStage(SchedulerAndRegistrarStaged)], name) && Spare(ApplyHead(p), name) && Spare(ApplyEnd(), name)
    ensures Spare([CommitOp(p.target), SetStage(NewProcessesStarted)], name)
  {
    hide IsIrreversible;
  }

  lemma TeardownSpares(p: Plan, spec: ProcessSpec, jobs: seq<Job>)
    requires WellFormed(p) && IsUnchanged(p, spec)
    ensures Spare(TeardownOps(p, jobs), spec.name)
  {
    StopsSpare(p, spec);
    DrainsSpare(jobs, spec.name);
    StagingSpares(p, spec.name);
    hide WellFormed, IsUnchanged, Spare, RemoveOps, DrainOps, StopOps;
    SpareBoth(DrainOps(jobs), StopOps(ChangedDirects(p)), spec.name);
    SpareBoth(RemoveOps(ObsoleteUnits(p)), DrainOps(jobs) + StopOps(ChangedDirects(p)), spec.name);
  }

  lemma CompensationSpares(p: Plan, spec: ProcessSpec, entries: seq<ScheduledTrigger>)
    requires WellFormed(p) && IsUnchanged(p, spec)
    ensures Spare(CompensateOps(p, entries), spec.name)
  {
    var n := spec.name;
    var stops, starts := StopOwnedOps(NotRunningBefore(p)), StartPreviousOps(p.previous.running);
    StopsSpare(p, spec);
    RestoringSpares(p, entries, n);
    MarksSpare(p, n);
    hide WellFormed, IsUnchanged, Spare, StopOwnedOps, StartPreviousOps, RestoreScheduleOps, RestoreUnitsOps, CommitOp;
    SpareBoth(stops, [CommitOp(p.previous)], n);
    SpareBoth(RestoreUnitsOps(p), starts, n);
    SpareBoth(RestoreScheduleOps(p, entries), RestoreUnitsOps(p) + starts, n);
    SpareBoth(stops + [CommitOp(p.previous)], RestoreScheduleOps(p, entries) + (RestoreUnitsOps(p) + starts), n);
    SpareBoth(CompensateBody(p, entries), [ClearJournal], n);
  }

  lemma ApplySpares(p: Plan, spec: ProcessSpec)
    requires WellFormed(p) && IsUnchanged(p, spec)
    ensures Spare(ApplyOps(p), spec.name)
  {
    var n, drains := spec.name, TeardownOps(p, RemovedJobs(p));
    ApplyParts(p);
    assert PreparationOps(p) == StagingOps(p) + [SetStage(SchedulerAndRegistrarStaged)];
    assert ApplyOps(p) == ApplyBody(p) + [ClearJournal];
    TeardownSpares(p, spec, RemovedJobs(p));
    StagingSpares(p, n);
    MarksSpare(p, n);
    hide *;
    SpareBoth(StagingOps(p), [SetStage(SchedulerAndRegistrarStaged)], n);
    SpareBoth(LaunchOps(p), ApplyEnd(), n);
    SpareBoth(ApplyHead(p), LaunchOps(p) + ApplyEnd(), n);
    SpareBoth(drains, ApplyHead(p) + (LaunchOps(p) + ApplyEnd()), n);
    SpareBoth(BoundaryOps(p), drains + (ApplyHead(p) + (LaunchOps(p) + ApplyEnd())), n);
    SpareBoth(PreparationOps(p), BoundaryOps(p) + (drains + (ApplyHead(p) + (LaunchOps(p) + ApplyEnd()))), n);
    SpareBoth(ApplyBody(p), [ClearJournal], n);
  }

  lemma ForwardSpares(p: Plan, w: World, spec: ProcessSpec)
    requires WellFormed(p) && IsUnchanged(p, spec)
    ensures Spare(ForwardOps(p, w), spec.name)
  {
    var n, drains, commit := spec.name, TeardownOps(p, StillToDrain(p, w)), [CommitOp(p.target), SetStage(NewProcessesStarted)];
    TeardownSpares(p, spec, StillToDrain(p, w));
    StagingSpares(p, n);
    MarksSpare(p, n);
    hide WellFormed, IsUnchanged, Spare, StagingOps, LaunchOps, TeardownOps, CommitOp, StillToDrain;
    SpareBoth(commit, LaunchOps(p), n);
    SpareBoth(drains, commit + LaunchOps(p), n);
    SpareBoth(StagingOps(p), drains + (commit + LaunchOps(p)), n);
    SpareBoth(ForwardBody(p, w), [ClearJournal], n);
  }

  lemma NotingKeepsItRunning(w: World, stage: Stage, spec: ProcessSpec)
    requires Runs(w, spec)
    ensures Runs(Exec(w, SetStage(stage)), spec)
  {
  }

  lemma StepKeepsItRunning(w: World, p: Plan, saved: seq<ScheduledTrigger>, event: Event, spec: ProcessSpec)
    requires WellFormed(p) && IsUnchanged(p, spec) && Runs(w, spec) && !event.Die?
    ensures Runs(Step(w, p, saved, event), spec)
  {
    hide WellFormed, IsUnchanged, ForwardOps, CompensateOps, Spare, Runs, RunFor, HeadsForTarget, EntriesOf, Exec;
    match event
    case Handle(budget, _) =>
      CompensationSpares(p, spec, saved);
      SparedWhileRunning(w, CompensateOps(p, saved), budget, spec);
      NotingKeepsItRunning(w, ForwardRecovery, spec);
      NotingKeepsItRunning(RunFor(Exec, w, CompensateOps(p, saved), budget), CompensationFailed, spec);
    case Recover(budget) =>
      ForwardSpares(p, w, spec);
      SparedWhileRunning(w, ForwardOps(p, w), budget, spec);
      CompensationSpares(p, spec, EntriesOf(p.previous.jobs));
      SparedWhileRunning(w, CompensateOps(p, EntriesOf(p.previous.jobs)), budget, spec);
  }

  lemma {:induction false} LifeKeepsItRunning(w: World, p: Plan, saved: seq<ScheduledTrigger>, events: seq<Event>, spec: ProcessSpec)
    requires WellFormed(p) && IsUnchanged(p, spec) && Runs(w, spec) && Die !in events
    ensures Runs(Life(w, p, saved, events), spec)
    decreases |events|
  {
    hide WellFormed, IsUnchanged, Runs, Step;
    if events != [] {
      assert events[0] != Die && events[0] in events;
      StepKeepsItRunning(w, p, saved, events[0], spec);
      LifeKeepsItRunning(Step(w, p, saved, events[0]), p, saved, events[1..], spec);
    }
  }

  lemma AttemptedIs(start: World, p: Plan, budget: nat)
    ensures Attempted(start, p, budget) == RunFor(Exec, Begun(start), ApplyOps(p), budget)
  {
  }

  lemma RunsAtTheStart(start: World, p: Plan, spec: ProcessSpec)
    requires WellFormed(p) && Agrees(start, p) && IsUnchanged(p, spec)
    ensures Runs(Begun(start), spec)
  {
    ListedIsNamed(p.previous.processes, SpecName, spec);
  }

  /**
    A running process that the target leaves as it was runs at every moment of the attempt and of everything that
    follows, rollback or recovery, as long as the daemon does not die.
   */
  lemma UnchangedRunsThroughout(start: World, p: Plan, saved: seq<ScheduledTrigger>, budget: nat, events: seq<Event>, spec: ProcessSpec)
    requires WellFormed(p) && Agrees(start, p) && IsUnchanged(p, spec) && Die !in events
    ensures Runs(Attempted(start, p, budget), spec)
    ensures Runs(Life(Attempted(start, p, budget), p, saved, events), spec)
  {
    hide *;
    RunsAtTheStart(start, p, spec);
    ApplySpares(p, spec);
    AttemptedIs(start, p, budget);
    SparedWhileRunning(Begun(start), ApplyOps(p), budget, spec);
    LifeKeepsItRunning(Attempted(start, p, budget), p, saved, events, spec);
  }
}
