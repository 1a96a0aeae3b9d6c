/** The registry object: four tables and two sets changed in place under one lock. */
module ActiveRuns {
  import opened Options
  import opened RunRegistry

  function SlotHolders(s: Registry, job: nat): set<nat> {
    set run | run in RunsOf(s, job) && run in s.runs && OccupiesSlot(s.runs[run].phase)
  }

  lemma HoldersAreActive(s: Registry, job: nat)
    ensures |SlotHolders(s, job)| > 0 <==> HasActive(s, job)
  {
    if HasActive(s, job) {
      var run :| run in RunsOf(s, job) && run in s.runs && OccupiesSlot(s.runs[run].phase);
      assert run in SlotHolders(s, job);
    }
    if SlotHolders(s, job) != {} {
      var run :| run in SlotHolders(s, job);
    }
  }

  class ActiveRunRegistry {
    var born: nat
    var runs: map<nat, Record>
    var runsByJob: map<nat, set<nat>>
    var queuedByJob: map<nat, seq<nat>>
    var cleanupByJob: map<nat, set<nat>>
    var tombstonedJobs: set<nat>
    var frozenJobs: set<nat>

    constructor ()
      ensures Value() == EMPTY
    {
      born, runs, runsByJob, queuedByJob, cleanupByJob := 0, map[], map[], map[], map[];
      tombstonedJobs, frozenJobs := {}, {};
    }

    function Value(): Registry
      reads this
    {
      Registry(born, runs, runsByJob, queuedByJob, cleanupByJob, tombstonedJobs, frozenJobs)
    }

    method Register(job: nat, phase: Phase) returns (run: nat)
      modifies this
      ensures Value() == RunRegistry.Register(old(Value()), job, phase) && run == old(born)
    {
      run := born;
      born := born + 1;
      runsByJob := runsByJob[job := (if job in runsByJob then runsByJob[job] else {}) + {run}];
      runs := runs[run := Record(job, phase)];
    }

    /** The number of the job's runs that hold a slot. */
    method RunningCount(job: nat) returns (count: nat)
      ensures count == |SlotHolders(Value(), job)|
      ensures count > 0 <==> HasActive(Value(), job)
    {
      count := 0;
      var rest := RunsOf(Value(), job);
      ghost var seen := {};
      while rest != {}
        invariant rest <= RunsOf(Value(), job)
        invariant seen == SlotHolders(Value(), job) - rest && count == |seen|
        decreases |rest|
      {
        var run :| run in rest;
        if run in runs && OccupiesSlot(runs[run].phase) {
          count := count + 1;
          seen := seen + {run};
        }
        rest := rest - {run};
      }
      HoldersAreActive(Value(), job);
    }

    /** Counting, registering and queueing as one step. */
    method Dispatch(job: nat, policy: OverlapPolicy)
      modifies this
      ensures Value() == RunRegistry.Dispatch(old(Value()), job, policy)
    {
      if job in frozenJobs {
        return;
      }
      var count := RunningCount(job);
      if count > 0 && policy.Skip? {
        return;
      }
      if count > 0 && policy.Queue? {
        var run := Register(job, Queued);
        queuedByJob := queuedByJob[job := (if job in queuedByJob then queuedByJob[job] else []) + [run]];
        return;
      }
      var _ := Register(job, Starting);
    }

    method PublishChild(run: nat)
      modifies this
      ensures Value() == RunRegistry.PublishChild(old(Value()), run)
    {
      if run in runs && runs[run].phase != Tombstoned {
        runs := runs[run := runs[run].(phase := Running)];
      }
    }

    /** Take a run out of both tables. */
    method Unlink(run: nat) returns (job: nat)
      requires run in runs
      modifies this`runs, this`runsByJob
      ensures Value() == RunRegistry.Unlink(old(Value()), run) && job == old(runs)[run].job
    {
      job := runs[run].job;
      DropFromJob(job, {run});
      runs := runs - {run};
    }

    /** A job whose last run goes loses its entry. */
    method DropFromJob(job: nat, gone: set<nat>)
      modifies this`runsByJob
      ensures runsByJob == WithoutRuns(old(Value()), job, gone)
    {
      if job in runsByJob {
        runsByJob := runsByJob[job := runsByJob[job] - gone];
        if runsByJob[job] == {} {
          runsByJob := runsByJob - {job};
        }
      }
      assert runsByJob == WithoutRuns(old(Value()), job, gone);
    }

    method CancelOwned(job: nat, run: nat) returns (outcome: Cancelled)
      modifies this
      ensures Value() == RunRegistry.CancelOwned(old(Value()), job, run)
      ensures outcome == CancelOutcome(old(Value()), job, run)
    {
      if run !in runs || runs[run].job != job {
        return Missing;
      }
      if runs[run].phase != Queued {
        return WasActive;
      }
      var queue := if job in queuedByJob then queuedByJob[job] else [];
      queuedByJob := queuedByJob[job := Without(queue, run)];
      var _ := Unlink(run);
      return WasQueued;
    }

    /** Signal every run of the job; the started ones are tombstoned if asked for. */
    method StopRuns(job: nat, tombstone: bool) returns (queued: set<nat>, runners: set<nat>)
      modifies this`runs
      ensures queued == QueuedRuns(old(Value()), job) && runners == RunRegistry.ActiveRuns(old(Value()), job)
      ensures runs.Keys == old(runs).Keys
      ensures forall run :: run in runs ==>
        runs[run] == if tombstone && run in runners then old(runs)[run].(phase := Tombstoned) else old(runs)[run]
    {
      queued, runners := {}, {};
      var rest := if job in runsByJob then runsByJob[job] else {};
      ghost var all, was := rest, runs;
      while rest != {}
        invariant rest <= all
        invariant forall run :: run in queued <==> run in all && run !in rest && run in was && was[run].phase == Queued
        invariant forall run :: run in runners <==> run in all && run !in rest && run in was && was[run].phase != Queued
        invariant runs.Keys == was.Keys
        invariant forall run :: run in was ==>
          runs[run] == if tombstone && run in runners then was[run].(phase := Tombstoned) else was[run]
        decreases |rest|
      {
        var run :| run in rest;
        rest := rest - {run};
        if run !in runs {
          continue;
        }
        if runs[run].phase == Queued {
          queued := queued + {run};
          continue;
        }
        if tombstone {
          runs := runs[run := runs[run].(phase := Tombstoned)];
        }
        runners := runners + {run};
      }
    }

    method BeginDrain(job: nat, tombstone: bool) returns (queued: set<nat>, runners: set<nat>)
      modifies this
      ensures Value() == RunRegistry.BeginDrain(old(Value()), job, tombstone)
      ensures queued == QueuedRuns(old(Value()), job) && runners == RunRegistry.ActiveRuns(old(Value()), job)
    {
      if tombstone {
        tombstonedJobs := tombstonedJobs + {job};
      }
      queued, runners := StopRuns(job, tombstone);
      runs := runs - queued;
      assert runs == RunRegistry.BeginDrain(old(Value()), job, tombstone).runs;
      DropFromJob(job, queued);
      queuedByJob := queuedByJob - {job};
    }

    /** Hand the slot to the oldest waiting run. */
    method PromoteNext(job: nat) returns (next: Option<nat>)
      modifies this`runs, this`queuedByJob
      ensures Value() == Promote(old(Value()), job) && next == Promoted(old(Value()), job)
    {
      if job !in queuedByJob || queuedByJob[job] == [] {
        return None;
      }
      var run := queuedByJob[job][0];
      queuedByJob := queuedByJob[job := queuedByJob[job][1..]];
      if run !in runs {
        return None;
      }
      runs := runs[run := runs[run].(phase := Starting)];
      return Some(run);
    }

    method Finish(run: nat) returns (next: Option<nat>)
      modifies this
      ensures Value() == RunRegistry.Finish(old(Value()), run)
    {
      if run !in runs {
        return None;
      }
      var job := Unlink(run);
      var active := RunningCount(job);
      if active > 0 {
        return None;
      }
      next := PromoteNext(job);
    }

    method FinishUnreaped(run: nat) returns (next: Option<nat>)
      modifies this
      ensures Value() == RunRegistry.FinishUnreaped(old(Value()), run)
    {
      if run !in runs {
        return None;
      }
      var job := Unlink(run);
      cleanupByJob := cleanupByJob[job := (if job in cleanupByJob then cleanupByJob[job] else {}) + {run}];
      next := PromoteNext(job);
    }

    method FinishCleanup(job: nat, run: nat)
      modifies this`cleanupByJob
      ensures Value() == RunRegistry.FinishCleanup(old(Value()), job, run)
    {
      if job in cleanupByJob {
        cleanupByJob := cleanupByJob[job := cleanupByJob[job] - {run}];
        if cleanupByJob[job] == {} {
          cleanupByJob := cleanupByJob - {job};
        }
      }
      assert cleanupByJob == RunRegistry.FinishCleanup(old(Value()), job, run).cleanupByJob;
    }

    method FreezeDispatch(job: nat)
      modifies this`frozenJobs
      ensures Value() == Step(old(Value()), Freezes(job))
    {
      frozenJobs := frozenJobs + {job};
    }

    method ThawDispatch(job: nat)
      modifies this`frozenJobs
      ensures Value() == Step(old(Value()), Thaws(job))
    {
      frozenJobs := frozenJobs - {job};
    }
  }
}
