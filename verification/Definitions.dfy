/** Process and job definitions, and snapshots of all of them. */
module Definitions {

  datatype ManagementMode = Direct | SystemRegistered(unit: string)

  datatype Lifecycle = Tied | Detached

  /** `settings` stands for the fields no operation of this model looks at. */
  datatype ProcessSpec = ProcessSpec(
    name: string, mode: ManagementMode, lifecycle: Lifecycle, autostart: bool, settings: string)

  datatype Trigger = Cron(expression: string) | Interval(seconds: nat) | OneShot(at: int) | DependsOn(jobs: seq<string>)

  /** The nil identifier. */
  const NIL_ID := 0

  datatype Job = Job(id: nat, name: string, triggerId: nat, trigger: Trigger, settings: string)

  datatype ConfigSnapshot = ConfigSnapshot(processes: seq<ProcessSpec>, jobs: seq<Job>, running: seq<string>)

  datatype LoadedConfig = LoadedConfig(processes: seq<ProcessSpec>, jobs: seq<Job>)

  function SpecName(spec: ProcessSpec): string {
    spec.name
  }

  function JobName(job: Job): string {
    job.name
  }
}
