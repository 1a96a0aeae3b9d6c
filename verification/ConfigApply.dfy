/**
  The configuration-apply saga: a staged journal over the definition tables, the
  scheduler, the service-manager units and the directly managed processes.
 */
module ConfigApply {
  import opened Options
  import opened Crashes
  import opened Names
  import opened Definitions
  import opened ConfigPlan

  datatype Stage =
    | Prepared
    | SchedulerAndRegistrarStaged
    | ForwardRecovery
    | DirectProcessesStopped
    | DatabaseCommitted
    | NewProcessesStarted
    | CompensationFailed

  /** The persisted stage alone decides the direction of recovery. */
  predicate HeadsForTarget(stage: Stage) {
    stage.ForwardRecovery? || stage.DirectProcessesStopped? || stage.DatabaseCommitted? || stage.NewProcessesStarted?
  }

  /** A schedule entry knows the whole job, or only its trigger after a plain restore. */
  datatype Entry = TriggerOnly(trigger: Trigger) | FullJob(job: Job)

  /**
    Everything the saga touches.  `schedule` and `owned` die with the daemon; a
    detached process it owned lives on as a survivor, known from its recorded
    handle.  A process that lost its record is a stray.
   */
  datatype World = World(
    specs: map<string, ProcessSpec>,
    jobs: map<string, Job>,
    journal: Option<Stage>,
    schedule: map<string, Entry>,
    units: map<string, ProcessSpec>,
    loaded: map<string, ProcessSpec>,
    owned: map<string, ProcessSpec>,
    survivors: map<string, ProcessSpec>,
    strays: set<string>,
    drained: set<string>)

  datatype Op =
    | Register(job: Job)
    | RegisterTrigger(name: string, trigger: Trigger)
    | Unregister(name: string)
    | ClearSchedule
    | WriteUnit(spec: ProcessSpec)
    | RemoveUnit(unit: string)
    | StartUnit(unit: string)
    | SetStage(stage: Stage)
    | ClearJournal
    | Drain(name: string)
    | StopDirect(name: string)
    | StopOwned(name: string)
    | CommitDefinitions(processes: seq<ProcessSpec>, jobs: seq<Job>)
    | StartTarget(spec: ProcessSpec)
    | StartPrevious(name: string)

  /** A start runs the stored definition and records the new handle over any older one. */
  function Spawn(w: World, name: string): World {
    if name !in w.specs then w
    else w.(owned := w.owned[name := w.specs[name]],
      strays := w.strays + (if name in w.survivors then {name} else {}),
      survivors := w.survivors - {name})
  }

  function Adopt(w: World, name: string): World
    requires name in w.survivors
  {
    w.(owned := w.owned[name := w.survivors[name]], survivors := w.survivors - {name})
  }

  function UnitOf(spec: ProcessSpec): string {
    if spec.mode.SystemRegistered? then spec.mode.unit else ""
  }

  function Exec(w: World, op: Op): World {
    match op
    case Register(job) => w.(schedule := w.schedule[job.name := FullJob(job)])
    case RegisterTrigger(name, trigger) => w.(schedule := w.schedule[name := TriggerOnly(trigger)])
    case Unregister(name) => w.(schedule := w.schedule - {name})
    case ClearSchedule => w.(schedule := map[])
    case WriteUnit(spec) => w.(units := w.units[UnitOf(spec) := spec])
    case RemoveUnit(unit) => w.(units := w.units - {unit}, loaded := w.loaded - {unit})
    case StartUnit(unit) => if unit in w.units then w.(loaded := w.loaded[unit := w.units[unit]]) else w
    case SetStage(stage) => w.(journal := Some(stage))
    case ClearJournal => w.(journal := None)
    case Drain(name) => w.(drained := w.drained + {name})
    case StopDirect(name) =>
      if name in w.owned then w.(owned := w.owned - {name}) else w.(survivors := w.survivors - {name})
    case StopOwned(name) => w.(owned := w.owned - {name})
    case CommitDefinitions(processes, jobs) =>
      w.(specs := ByName(processes, SpecName), jobs := ByName(jobs, JobName))
    case StartTarget(spec) =>
      if spec.name in w.owned then w
      else if spec.lifecycle.Detached? && spec.name in w.survivors then Adopt(w, spec.name)
      else Spawn(w, spec.name)
    case StartPrevious(name) => if name in w.owned then w else Spawn(w, name)
  }

  /** The daemon dies: its schedule and its tied children go with it. */
  function Crash(w: World): World {
    w.(schedule := map[], owned := map[],
      survivors := w.survivors + (map n | n in w.owned && w.owned[n].lifecycle.Detached? :: w.owned[n]))
  }

  // --------------------------------------------------------------- what a plan asks for

  datatype Plan = Plan(previous: ConfigSnapshot, target: ConfigSnapshot)

  function Where<T(!new)>(items: seq<T>, keep: T -> bool): (kept: seq<T>)
    ensures forall item :: item in kept <==> item in items && keep(item)
  {
    if items == [] then []
    else (if keep(items[0]) then [items[0]] else []) + Where(items[1..], keep)
  }

  function Specs(snapshot: ConfigSnapshot): map<string, ProcessSpec> {
    ByName(snapshot.processes, SpecName)
  }

  function Jobs(snapshot: ConfigSnapshot): map<string, Job> {
    ByName(snapshot.jobs, JobName)
  }

  predicate HasUnit(spec: ProcessSpec) {
    spec.mode.SystemRegistered?
  }

  function UnitSpecs(snapshot: ConfigSnapshot): seq<ProcessSpec> {
    Where(snapshot.processes, HasUnit)
  }

  function RemovedJobs(p: Plan): seq<Job> {
    Where(p.previous.jobs, (job: Job) => job.name !in Jobs(p.target))
  }

  /** No process of this name and unit in the target. */
  predicate IsObsoleteUnit(p: Plan, spec: ProcessSpec) {
    HasUnit(spec) && !exists other :: other in p.target.processes && other.name == spec.name && other.mode == spec.mode
  }

  predicate ReplacesUnit(p: Plan, spec: ProcessSpec) {
    HasUnit(spec)
    && exists other :: other in p.target.processes && other.name == spec.name && other.mode == spec.mode && other != spec
  }

  function ObsoleteUnits(p: Plan): seq<ProcessSpec> {
    Where(p.previous.processes, (spec: ProcessSpec) => IsObsoleteUnit(p, spec))
  }

  predicate IsIrreversible(p: Plan) {
    || (exists job :: job in p.previous.jobs && job.name !in Jobs(p.target))
    || (exists spec :: spec in p.previous.processes && (IsObsoleteUnit(p, spec) || ReplacesUnit(p, spec)))
  }

  predicate IsChangedDirect(p: Plan, spec: ProcessSpec) {
    spec.mode.Direct? && (spec.name !in Specs(p.target) || Specs(p.target)[spec.name] != spec)
  }

  function ChangedDirects(p: Plan): seq<ProcessSpec> {
    Where(p.previous.processes, (spec: ProcessSpec) => IsChangedDirect(p, spec))
  }

  predicate IsDesired(p: Plan, spec: ProcessSpec) {
    spec.mode.Direct? && spec.name in DesiredRunning(p.previous, p.target.processes)
  }

  function DesiredSpecs(p: Plan): seq<ProcessSpec> {
    Where(p.target.processes, (spec: ProcessSpec) => IsDesired(p, spec))
  }

  function AutostartUnits(p: Plan): seq<ProcessSpec> {
    Where(p.target.processes, (spec: ProcessSpec) => HasUnit(spec) && spec.autostart)
  }

  /** Units of the target that no previous process used. */
  predicate IsNewUnit(p: Plan, spec: ProcessSpec) {
    HasUnit(spec) && !exists other :: other in p.previous.processes && other.mode == spec.mode
  }

  function NewUnits(p: Plan): seq<ProcessSpec> {
    Where(p.target.processes, (spec: ProcessSpec) => IsNewUnit(p, spec))
  }

  /** Direct target processes that were not running before. */
  function NotRunningBefore(p: Plan): seq<ProcessSpec> {
    Where(p.target.processes, (spec: ProcessSpec) => spec.mode.Direct? && spec.name !in p.previous.running)
  }

  // ------------------------------------------------------------------- the programs

  function Each<T>(items: seq<T>, op: T -> Op): (ops: seq<Op>)
    ensures |ops| == |items|
    ensures forall o :: o in ops ==> exists item :: item in items && o == op(item)
  {
    if items == [] then [] else [op(items[0])] + Each(items[1..], op)
  }

  function RegisterOps(jobs: seq<Job>): seq<Op> {
    Each(jobs, job => Register(job))
  }

  function UnregisterOps(jobs: seq<Job>): seq<Op> {
    Each(jobs, (job: Job) => Unregister(job.name))
  }

  function WriteOps(specs: seq<ProcessSpec>): seq<Op> {
    Each(specs, spec => WriteUnit(spec))
  }

  function RemoveOps(specs: seq<ProcessSpec>): seq<Op> {
    Each(specs, (spec: ProcessSpec) => RemoveUnit(UnitOf(spec)))
  }

  function DrainOps(jobs: seq<Job>): seq<Op> {
    if jobs == [] then [] else [Unregister(jobs[0].name), Drain(jobs[0].name)] + DrainOps(jobs[1..])
  }

  function StopOps(specs: seq<ProcessSpec>): seq<Op> {
    Each(specs, (spec: ProcessSpec) => StopDirect(spec.name))
  }

  function StopOwnedOps(specs: seq<ProcessSpec>): seq<Op> {
    Each(specs, (spec: ProcessSpec) => StopOwned(spec.name))
  }

  function StartOps(specs: seq<ProcessSpec>): seq<Op> {
    Each(specs, spec => StartTarget(spec))
  }

  function StartUnitOps(specs: seq<ProcessSpec>): seq<Op> {
    Each(specs, (spec: ProcessSpec) => StartUnit(UnitOf(spec)))
  }

  function StartPreviousOps(names: seq<string>): seq<Op> {
    Each(names, name => StartPrevious(name))
  }

  datatype ScheduledTrigger = ScheduledTrigger(name: string, trigger: Trigger)

  function RestoreOps(entries: seq<ScheduledTrigger>): seq<Op> {
    Each(entries, (entry: ScheduledTrigger) => RegisterTrigger(entry.name, entry.trigger))
  }

  function EntriesOf(jobs: seq<Job>): seq<ScheduledTrigger> {
    seq(|jobs|, i requires 0 <= i < |jobs| => ScheduledTrigger(jobs[i].name, jobs[i].trigger))
  }

  function StagingOps(p: Plan): seq<Op> {
    RegisterOps(p.target.jobs) + (UnregisterOps(RemovedJobs(p)) + WriteOps(UnitSpecs(p.target)))
  }

  function TeardownOps(p: Plan, drained: seq<Job>): seq<Op> {
    RemoveOps(ObsoleteUnits(p)) + (DrainOps(drained) + StopOps(ChangedDirects(p)))
  }

  function LaunchOps(p: Plan): seq<Op> {
    StartOps(DesiredSpecs(p)) + StartUnitOps(AutostartUnits(p))
  }

  function CommitOp(snapshot: ConfigSnapshot): Op {
    CommitDefinitions(snapshot.processes, snapshot.jobs)
  }

  function BoundaryOps(p: Plan): seq<Op> {
    if IsIrreversible(p) then [SetStage(ForwardRecovery)] else []
  }

  /** The first attempt: stage, cross the boundary, tear down, commit, launch. */
  function ApplyBody(p: Plan): seq<Op> {
    (StagingOps(p) + [SetStage(SchedulerAndRegistrarStaged)])
    + (BoundaryOps(p)
       + (TeardownOps(p, RemovedJobs(p))
          + ([SetStage(DirectProcessesStopped), CommitOp(p.target), SetStage(DatabaseCommitted)]
             + (LaunchOps(p) + [SetStage(NewProcessesStarted)]))))
  }

  /** A removed job that is already gone from the table was drained by an earlier attempt. */
  function StillToDrain(p: Plan, w: World): seq<Job> {
    Where(RemovedJobs(p), (job: Job) => job.name in w.jobs)
  }

  function ForwardBody(p: Plan, w: World): seq<Op> {
    StagingOps(p)
    + (TeardownOps(p, StillToDrain(p, w)) + ([CommitOp(p.target), SetStage(NewProcessesStarted)] + LaunchOps(p)))
  }

  function RestoreScheduleOps(p: Plan, entries: seq<ScheduledTrigger>): seq<Op> {
    [ClearSchedule] + (RestoreOps(entries) + RegisterOps(p.previous.jobs))
  }

  function RestoreUnitsOps(p: Plan): seq<Op> {
    RemoveOps(NewUnits(p)) + WriteOps(UnitSpecs(p.previous))
  }

  function CompensateBody(p: Plan, entries: seq<ScheduledTrigger>): seq<Op> {
    (StopOwnedOps(NotRunningBefore(p)) + [CommitOp(p.previous)])
    + (RestoreScheduleOps(p, entries) + (RestoreUnitsOps(p) + StartPreviousOps(p.previous.running)))
  }

  /** Every direction ends by clearing the journal. */
  function ApplyOps(p: Plan): seq<Op> {
    ApplyBody(p) + [ClearJournal]
  }

  function ForwardOps(p: Plan, w: World): seq<Op> {
    ForwardBody(p, w) + [ClearJournal]
  }

  function CompensateOps(p: Plan, entries: seq<ScheduledTrigger>): seq<Op> {
    CompensateBody(p, entries) + [ClearJournal]
  }
}
