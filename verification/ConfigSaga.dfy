/**
  The configuration saga as the facade runs it: loops that touch one store at a time
  and give up at the first effect that fails.  Each method carries out exactly the
  effects the convergence results are about.
 */
module ConfigSaga {
  import opened Options
  import opened Crashes
  import opened Names
  import opened Definitions
  import opened ConfigPlan
  import opened ConfigApply
  import opened ConfigLife

  lemma Chain(w: World, first: seq<Op>, rest: seq<Op>, budget: nat)
    ensures budget >= |first| ==>
      RunFor(Exec, w, first + rest, budget) == RunFor(Exec, RunFor(Exec, w, first, budget), rest, budget - |first|)
    ensures budget < |first| ==> RunFor(Exec, w, first + rest, budget) == RunFor(Exec, w, first, budget)
  {
    RunForConcat(Exec, w, first, rest, budget);
    if budget >= |first| {
      RunForSaturates(Exec, w, first, budget);
    }
  }

  class Saga {
    var world: World
    /** Effects left before one fails or the process dies. */
    var budget: nat

    constructor (world: World, budget: nat)
      ensures this.world == world && this.budget == budget
    {
      this.world, this.budget := world, budget;
    }

    method Do(op: Op) returns (ok: bool)
      modifies this
      ensures Ran([op], ok)
      ensures world == if ok then Exec(old(world), op) else old(world)
      ensures budget == if ok then old(budget) - 1 else 0
      ensures ok == (old(budget) > 0)
    {
      assert [op][1..] == [];
      if budget == 0 {
        return false;
      }
      world, budget := Exec(world, op), budget - 1;
      return true;
    }

    /** What carrying out these effects leaves behind. */
    twostate predicate Ran(ops: seq<Op>, ok: bool)
      reads this
    {
      && world == RunFor(Exec, old(world), ops, old(budget))
      && (ok <==> |ops| <= old(budget))
      && budget == if ok then old(budget) - |ops| else 0
    }

    /** `for item in items { if keep(item) { step(item)?; } }` */
    method ForEach<T(!new)>(items: seq<T>, keep: T -> bool, op: T -> Op) returns (ok: bool)
      modifies this
      ensures Ran(Each(Where(items, keep), op), ok)
    {
      ghost var all := Each(Where(items, keep), op);
      ghost var rest := all;
      assert items[0..] == items && items[|items|..] == [];
      NothingLeft(keep, op);
      hide Exec, Each, Where, RunFor;
      ok := true;
      for i := 0 to |items|
        invariant rest == Each(Where(items[i..], keep), op) && budget - |rest| == old(budget) - |all|
        invariant RunFor(Exec, world, rest, budget) == RunFor(Exec, old(world), all, old(budget))
      {
        hide Ran;
        NextItem(items, keep, op, i);
        if keep(items[i]) {
          rest := rest[1..];
          RunForCons(Exec, world, op(items[i]), rest, budget);
          ok := Do(op(items[i]));
          if !ok {
            break;
          }
        }
      }
      NothingToDo(world, budget);
    }

    method StageSchedulerAndTargetRegistrar(p: Plan) returns (ok: bool)
      modifies this
      ensures Ran(StagingOps(p), ok)
    {
      ghost var registers, unregisters, writes := RegisterOps(p.target.jobs), UnregisterOps(RemovedJobs(p)), WriteOps(UnitSpecs(p.target));
      KeepsAll(p.target.jobs);
      hide RunFor, Each, Where, Exec;
      Chain(world, registers, unregisters + writes, budget);
      ok := ForEach(p.target.jobs, (job: Job) => true, job => Register(job));
      if ok {
        Chain(world, unregisters, writes, budget);
        ok := ForEach(p.previous.jobs, (job: Job) => job.name !in Jobs(p.target), (job: Job) => Unregister(job.name));
      }
      if ok {
        ok := ForEach(p.target.processes, HasUnit, spec => WriteUnit(spec));
      }
    }

    method RemoveObsoleteSystemRegisteredUnits(p: Plan) returns (ok: bool)
      modifies this
      ensures Ran(RemoveOps(ObsoleteUnits(p)), ok)
    {
      ok := ForEach(p.previous.processes, (spec: ProcessSpec) => IsObsoleteUnit(p, spec), (spec: ProcessSpec) => RemoveUnit(UnitOf(spec)));
    }

    /** Dispatch is cut off before the job's runs are cancelled and awaited. */
    method DrainJobs(jobs: seq<Job>) returns (ok: bool)
      modifies this
      ensures Ran(DrainOps(jobs), ok)
    {
      ghost var all := DrainOps(jobs);
      ghost var rest := all;
      assert jobs[0..] == jobs && jobs[|jobs|..] == [];
      NothingToDrain();
      hide Exec, RunFor, DrainOps;
      ok := true;
      for i := 0 to |jobs|
        invariant rest == DrainOps(jobs[i..]) && budget - |rest| == old(budget) - |all|
        invariant RunFor(Exec, world, rest, budget) == RunFor(Exec, old(world), all, old(budget))
      {
        hide Ran;
        var name := jobs[i].name;
        NextDrain(jobs, i);
        rest := DrainOps(jobs[i + 1..]);
        RunForCons(Exec, world, Unregister(name), [Drain(name)] + rest, budget);
        ok := Do(Unregister(name));
        if !ok {
          break;
        }
        RunForCons(Exec, world, Drain(name), rest, budget);
        ok := Do(Drain(name));
        if !ok {
          break;
        }
      }
      NothingToDo(world, budget);
    }

    method StopChangedDirectProcesses(p: Plan) returns (ok: bool)
      modifies this
      ensures Ran(StopOps(ChangedDirects(p)), ok)
    {
      ok := ForEach(p.previous.processes, (spec: ProcessSpec) => IsChangedDirect(p, spec), (spec: ProcessSpec) => StopDirect(spec.name));
    }

    /** Old units, removed jobs, changed processes: in this order. */
    method TearDown(p: Plan, jobs: seq<Job>) returns (ok: bool)
      modifies this
      ensures Ran(TeardownOps(p, jobs), ok)
    {
      ghost var removes, drains, stops := RemoveOps(ObsoleteUnits(p)), DrainOps(jobs), StopOps(ChangedDirects(p));
      hide RunFor, RemoveOps, DrainOps, StopOps, Exec;
      Chain(world, removes, drains + stops, budget);
      ok := RemoveObsoleteSystemRegisteredUnits(p);
      if ok {
        Chain(world, drains, stops, budget);
        ok := DrainJobs(jobs);
      }
      if ok {
        ok := StopChangedDirectProcesses(p);
      }
    }

    method Launch(p: Plan) returns (ok: bool)
      modifies this
      ensures Ran(LaunchOps(p), ok)
    {
      ghost var starts, units := StartOps(DesiredSpecs(p)), StartUnitOps(AutostartUnits(p));
      hide RunFor, Exec, Each, Where;
      Chain(world, starts, units, budget);
      ok := ForEach(p.target.processes, (spec: ProcessSpec) => IsDesired(p, spec), spec => StartTarget(spec));
      if ok {
        ok := ForEach(p.target.processes, (spec: ProcessSpec) => HasUnit(spec) && spec.autostart, (spec: ProcessSpec) => StartUnit(UnitOf(spec)));
      }
    }

    /** The first attempt, from the freshly written journal to its removal. */
    method ApplyConfigInner(p: Plan) returns (ok: bool)
      modifies this
      ensures Ran(ApplyOps(p), ok)
    {
      ghost var clear := [SetStage(NewProcessesStarted)] + [ClearJournal];
      ghost var commit := [SetStage(DirectProcessesStopped)] + ([CommitOp(p.target)] + ([SetStage(DatabaseCommitted)] + (LaunchOps(p) + clear)));
      ghost var teardown := TeardownOps(p, RemovedJobs(p)) + commit;
      ghost var staged := [SetStage(SchedulerAndRegistrarStaged)] + (BoundaryOps(p) + teardown);
      ApplyShape(p);
      hide RunFor, Exec, StagingOps, TeardownOps, LaunchOps, ApplyOps;
      Chain(world, StagingOps(p), staged, budget);
      ok := StageSchedulerAndTargetRegistrar(p);
      if !ok {
        return;
      }
      Chain(world, [SetStage(SchedulerAndRegistrarStaged)], BoundaryOps(p) + teardown, budget);
      ok := Do(SetStage(SchedulerAndRegistrarStaged));
      if !ok {
        return;
      }
      Chain(world, BoundaryOps(p), teardown, budget);
      ok := CrossBoundary(p);
      if !ok {
        return;
      }
      Chain(world, TeardownOps(p, RemovedJobs(p)), commit, budget);
      ok := TearDown(p, RemovedJobs(p));
      if !ok {
        return;
      }
      ok := CommitAndLaunch(p);
    }

    /** The direction is persisted before anything is destroyed. */
    method CrossBoundary(p: Plan) returns (ok: bool)
      modifies this
      ensures Ran(BoundaryOps(p), ok)
    {
      if IsIrreversible(p) {
        ok := Do(SetStage(ForwardRecovery));
      } else {
        ok := true;
      }
    }

    method CommitAndLaunch(p: Plan) returns (ok: bool)
      modifies this
      ensures Ran([SetStage(DirectProcessesStopped)] + ([CommitOp(p.target)] + ([SetStage(DatabaseCommitted)]
                  + (LaunchOps(p) + ([SetStage(NewProcessesStarted)] + [ClearJournal])))), ok)
    {
      ghost var clear := [SetStage(NewProcessesStarted)] + [ClearJournal];
      ghost var launch := LaunchOps(p) + clear;
      hide RunFor, Exec, LaunchOps;
      Chain(world, [SetStage(DirectProcessesStopped)], [CommitOp(p.target)] + ([SetStage(DatabaseCommitted)] + launch), budget);
      ok := Do(SetStage(DirectProcessesStopped));
      if ok {
        Chain(world, [CommitOp(p.target)], [SetStage(DatabaseCommitted)] + launch, budget);
        ok := Do(CommitOp(p.target));
      }
      if ok {
        Chain(world, [SetStage(DatabaseCommitted)], launch, budget);
        ok := Do(SetStage(DatabaseCommitted));
      }
      if ok {
        Chain(world, LaunchOps(p), clear, budget);
        ok := Launch(p);
      }
      if ok {
        Chain(world, [SetStage(NewProcessesStarted)], [ClearJournal], budget);
        ok := Do(SetStage(NewProcessesStarted));
      }
      if ok {
        ok := Do(ClearJournal);
      }
    }

    method ForwardRecoverConfigApply(p: Plan) returns (ok: bool)
      modifies this
      ensures Ran(ForwardOps(p, old(world)), ok)
    {
      var jobs := StillToDrain(p, world);
      ghost var launch := LaunchOps(p) + [ClearJournal];
      ghost var commit := [CommitOp(p.target)] + ([SetStage(NewProcessesStarted)] + launch);
      ForwardShape(p, world);
      hide RunFor, Exec, StagingOps, TeardownOps, LaunchOps, ForwardOps, StillToDrain, CommitOp;
      Chain(world, StagingOps(p), TeardownOps(p, jobs) + commit, budget);
      ok := StageSchedulerAndTargetRegistrar(p);
      if ok {
        Chain(world, TeardownOps(p, jobs), commit, budget);
        ok := TearDown(p, jobs);
      }
      if ok {
        Chain(world, [CommitOp(p.target)], [SetStage(NewProcessesStarted)] + launch, budget);
        ok := Do(CommitOp(p.target));
      }
      if ok {
        Chain(world, [SetStage(NewProcessesStarted)], launch, budget);
        ok := Do(SetStage(NewProcessesStarted));
      }
      if ok {
        Chain(world, LaunchOps(p), [ClearJournal], budget);
        ok := Launch(p);
      }
      if ok {
        ok := Do(ClearJournal);
      }
    }

    method RestoreScheduler(p: Plan, saved: seq<ScheduledTrigger>) returns (ok: bool)
      modifies this
      ensures Ran(RestoreScheduleOps(p, saved), ok)
    {
      KeepsAll(saved);
      KeepsAll(p.previous.jobs);
      hide RunFor, Exec, Each, Where;
      Chain(world, [ClearSchedule], RestoreOps(saved) + RegisterOps(p.previous.jobs), budget);
      ok := Do(ClearSchedule);
      if ok {
        Chain(world, RestoreOps(saved), RegisterOps(p.previous.jobs), budget);
        ok := ForEach(saved, (entry: ScheduledTrigger) => true, (entry: ScheduledTrigger) => RegisterTrigger(entry.name, entry.trigger));
      }
      if ok {
        ok := ForEach(p.previous.jobs, (job: Job) => true, job => Register(job));
      }
    }

    method RestoreUnits(p: Plan) returns (ok: bool)
      modifies this
      ensures Ran(RestoreUnitsOps(p), ok)
    {
      hide RunFor, Exec, Each, Where;
      Chain(world, RemoveOps(NewUnits(p)), WriteOps(UnitSpecs(p.previous)), budget);
      ok := ForEach(p.target.processes, (spec: ProcessSpec) => IsNewUnit(p, spec), (spec: ProcessSpec) => RemoveUnit(UnitOf(spec)));
      if ok {
        ok := ForEach(p.previous.processes, HasUnit, spec => WriteUnit(spec));
      }
    }

    method CompensateConfigApply(p: Plan, saved: seq<ScheduledTrigger>) returns (ok: bool)
      modifies this
      ensures Ran(CompensateOps(p, saved), ok)
    {
      ghost var starts := StartPreviousOps(p.previous.running) + [ClearJournal];
      ghost var units := RestoreUnitsOps(p) + starts;
      ghost var schedule := RestoreScheduleOps(p, saved) + units;
      CompensateShape(p, saved);
      KeepsAll(p.previous.running);
      hide RunFor, Exec, Each, Where, RestoreUnitsOps, RestoreScheduleOps, CompensateOps;
      Chain(world, StopOwnedOps(NotRunningBefore(p)), [CommitOp(p.previous)] + schedule, budget);
      ok := ForEach(p.target.processes, (spec: ProcessSpec) => spec.mode.Direct? && spec.name !in p.previous.running,
                    (spec: ProcessSpec) => StopOwned(spec.name));
      if ok {
        Chain(world, [CommitOp(p.previous)], schedule, budget);
        ok := Do(CommitOp(p.previous));
      }
      if ok {
        Chain(world, RestoreScheduleOps(p, saved), units, budget);
        ok := RestoreScheduler(p, saved);
      }
      if ok {
        Chain(world, RestoreUnitsOps(p), starts, budget);
        ok := RestoreUnits(p);
      }
      if ok {
        Chain(world, StartPreviousOps(p.previous.running), [ClearJournal], budget);
        ok := ForEach(p.previous.running, (name: string) => true, name => StartPrevious(name));
      }
      if ok {
        ok := Do(ClearJournal);
      }
    }

    /** Recovery at start-up: the persisted stage picks the direction. */
    method RecoverIncompleteConfigApply(p: Plan, saved: seq<ScheduledTrigger>) returns (ok: bool)
      modifies this
      ensures world == Step(old(world), p, saved, Recover(old(budget)))
    {
      if world.journal.None? {
        return true;
      }
      hide ForwardOps, CompensateOps, RunFor;
      if HeadsForTarget(world.journal.value) {
        ok := ForwardRecoverConfigApply(p);
      } else {
        ok := CompensateConfigApply(p, EntriesOf(p.previous.jobs));
      }
    }

    /** The error path of the attempt itself; `noted` says whether the last stage write got through. */
    method ApplyFailed(p: Plan, saved: seq<ScheduledTrigger>, noted: bool) returns (recovered: bool)
      requires world.journal.Some?
      modifies this
      ensures world == Step(old(world), p, saved, Handle(old(budget), noted))
    {
      hide CompensateOps, RunFor;
      if HeadsForTarget(world.journal.value) {
        recovered := false;
        if noted {
          world := Exec(world, SetStage(ForwardRecovery));
        }
      } else {
        recovered := CompensateConfigApply(p, saved);
        if world.journal.Some? && noted {
          world := Exec(world, SetStage(CompensationFailed));
        }
      }
    }
  }

  lemma ApplyShape(p: Plan)
    ensures ApplyOps(p)
         == StagingOps(p) + ([SetStage(SchedulerAndRegistrarStaged)] + (BoundaryOps(p) + (TeardownOps(p, RemovedJobs(p))
            + ([SetStage(DirectProcessesStopped)] + ([CommitOp(p.target)] + ([SetStage(DatabaseCommitted)]
            + (LaunchOps(p) + ([SetStage(NewProcessesStarted)] + [ClearJournal]))))))))
  {
    hide StagingOps, BoundaryOps, TeardownOps, LaunchOps, RemovedJobs;
  }

  lemma ForwardShape(p: Plan, w: World)
    ensures ForwardOps(p, w)
         == StagingOps(p) + (TeardownOps(p, StillToDrain(p, w)) + ([CommitOp(p.target)] + ([SetStage(NewProcessesStarted)]
            + (LaunchOps(p) + [ClearJournal]))))
  {
    hide StagingOps, TeardownOps, LaunchOps, StillToDrain;
  }

  lemma CompensateShape(p: Plan, saved: seq<ScheduledTrigger>)
    ensures CompensateOps(p, saved)
         == StopOwnedOps(NotRunningBefore(p)) + ([CommitOp(p.previous)] + (RestoreScheduleOps(p, saved) + (RestoreUnitsOps(p)
            + (StartPreviousOps(p.previous.running) + [ClearJournal]))))
  {
    hide StopOwnedOps, NotRunningBefore, RestoreScheduleOps, RestoreUnitsOps, StartPreviousOps;
  }

  lemma NothingLeft<T(!new)>(keep: T -> bool, op: T -> Op)
    ensures Each(Where([], keep), op) == []
  {
  }

  lemma NothingToDrain()
    ensures DrainOps([]) == []
  {
  }

  lemma NextDrain(jobs: seq<Job>, i: nat)
    requires i < |jobs|
    ensures DrainOps(jobs[i..]) == [Unregister(jobs[i].name)] + ([Drain(jobs[i].name)] + DrainOps(jobs[i + 1..]))
  {
    assert jobs[i..][1..] == jobs[i + 1..];
  }

  lemma NothingToDo(w: World, budget: nat)
    ensures RunFor(Exec, w, [], budget) == w
  {
  }

  lemma NextItem<T(!new)>(items: seq<T>, keep: T -> bool, op: T -> Op, i: nat)
    requires i < |items|
    ensures var here, next := Each(Where(items[i..], keep), op), Each(Where(items[i + 1..], keep), op);
            here == if keep(items[i]) then [op(items[i])] + next else next
  {
    assert items[i..][1..] == items[i + 1..];
    if keep(items[i]) {
      assert Where(items[i..], keep)[1..] == Where(items[i + 1..], keep);
    } else {
      assert Where(items[i..], keep) == Where(items[i + 1..], keep);
    }
  }

  lemma {:induction false} KeepsAll<T(!new)>(items: seq<T>)
    ensures Where(items, (item: T) => true) == items
  {
    if items != [] {
      KeepsAll(items[1..]);
    }
  }
}
