/** The resume of a job deletion as it runs: one effect at a time, each consuming one fault. */
module JobDeletionRun {
  import opened Options
  import opened JobDeletion

  class Deletion {
    var state: State
    var faults: seq<Fault>

    constructor (state: State, faults: seq<Fault>)
      ensures this.state == state && this.faults == faults
    {
      this.state, this.faults := state, faults;
    }

    method Effect() returns (fault: Fault)
      modifies this`faults
      ensures fault == First(old(faults)) && faults == Rest(old(faults))
    {
      if faults == [] {
        return Goes;
      }
      fault, faults := faults[0], faults[1..];
    }

    /** The effect did not go through: report it, or leave what a dead process leaves. */
    method Stop(fault: Fault) returns (result: Result)
      requires fault != Goes
      modifies this`state
      ensures Outcome(state, result) == if fault == Dies then Dead(old(state)) else Error(old(state))
    {
      if fault == Dies {
        state := Crash(state);
        return Died;
      }
      return Failed;
    }

    method CompleteJobDeletionRollback() returns (result: Result)
      modifies this
      ensures Outcome(state, result) == Rollback(old(state), old(faults))
    {
      var registered := Effect();
      if registered == Dies {
        result := Stop(Dies);
        return;
      }
      if registered == Goes {
        state := state.(armed := true);
      }
      state := state.(frozen := false);
      if registered == Fails {
        return Failed;
      }
      var cleared := Effect();
      if cleared != Goes {
        result := Stop(cleared);
        return;
      }
      state := state.(journal := None);
      return Done;
    }

    method RollbackPreCancellation() returns (result: Result)
      requires state.journal.Some?
      modifies this
      ensures Outcome(state, result) == JobDeletion.RollbackPreCancellation(old(state), old(faults))
    {
      var noted := Effect();
      if noted == Dies {
        result := Stop(Dies);
        return;
      }
      if noted == Goes {
        state := SetStage(state, RollbackRequired);
      }
      result := CompleteJobDeletionRollback();
      if result == Done {
        result := Failed;
      }
    }

    method Unregister() returns (result: Result)
      requires state.journal.Some?
      modifies this
      ensures Outcome(state, result) == FromFrozen(old(state), old(faults))
    {
      var fault := Effect();
      if fault == Dies {
        result := Stop(Dies);
        return;
      }
      if fault == Fails {
        result := RollbackPreCancellation();
        return;
      }
      state := state.(armed := false);
      fault := Effect();
      if fault != Goes {
        result := Stop(fault);
        return;
      }
      state := SetStage(state, SchedulerUnregistered);
      result := CancelQueuedRuns();
    }

    method CancelQueuedRuns() returns (result: Result)
      requires state.journal.Some?
      modifies this
      ensures Outcome(state, result) == FromUnregistered(old(state), old(faults))
    {
      var fault := Effect();
      if fault == Dies {
        result := Stop(Dies);
        return;
      }
      if fault == Fails || !AllPending(state) {
        result := RollbackPreCancellation();
        return;
      }
      state := SetStage(state.(rows := Cancelled(state.rows, state.queued)), CancellationStarted);
      result := Drain();
    }

    method Drain() returns (result: Result)
      requires state.journal.Some?
      modifies this
      ensures Outcome(state, result) == FromCancellation(old(state), old(faults))
    {
      var fault := Effect();
      if fault != Goes {
        result := Stop(fault);
        return;
      }
      state := SetStage(state, RunsDraining).(queued := {});
      fault := Effect();
      if fault != Goes {
        result := Stop(fault);
        return;
      }
      state := state.(rows := Cancelled(state.rows, state.settling), active := {}, settling := {});
      result := DeleteRows();
    }

    method DeleteRows() returns (result: Result)
      requires state.journal.Some?
      modifies this
      ensures Outcome(state, result) == FromDraining(old(state), old(faults))
    {
      var fault := Effect();
      if fault != Goes {
        result := Stop(fault);
        return;
      }
      state := RowsCommitted(state);
      result := RemoveLogs();
    }

    method RemoveLogs() returns (result: Result)
      requires state.journal.Some?
      modifies this
      ensures Outcome(state, result) == FromRows(old(state), old(faults))
    {
      var fault := Effect();
      if fault != Goes {
        result := Stop(fault);
        return;
      }
      state := SetStage(state, LogsCleaning);
      ghost var goal := FromRows(old(state), old(faults));
      var runs := state.journal.value.runIds;
      while runs != {}
        invariant state.journal.Some?
        invariant CleanLogs(state, runs, faults) == goal
        decreases |runs|
      {
        var run := Least(runs);
        fault := Effect();
        if fault != Goes {
          result := Stop(fault);
          return;
        }
        state := state.(logs := state.logs - {run});
        fault := Effect();
        if fault != Goes {
          result := Stop(fault);
          return;
        }
        state := state.(tickets := state.tickets - {run});
        runs := runs - {run};
      }
      fault := Effect();
      if fault != Goes {
        result := Stop(fault);
        return;
      }
      state := SetStage(state, Completed);
      result := ClearJournal();
    }

    method ClearJournal() returns (result: Result)
      modifies this
      ensures Outcome(state, result) == Finish(old(state), old(faults))
    {
      state := state.(frozen := false);
      var fault := Effect();
      if fault != Goes {
        result := Stop(fault);
        return;
      }
      state := state.(journal := None);
      return Done;
    }

    method ResumeJobDeletion(intent: Intent) returns (result: Result)
      requires state.journal.Some?
      modifies this
      ensures Outcome(state, result) == Resume(old(state), intent, old(faults))
    {
      var stage := state.journal.value.stage;
      if stage.RollbackRequired? || (intent.Recovery? && IsPreCancellation(stage)) {
        result := CompleteJobDeletionRollback();
        return;
      }
      state := state.(frozen := true);
      if stage.Prepared? {
        var fault := Effect();
        if fault != Goes {
          state := state.(frozen := false);
          result := Stop(fault);
          return;
        }
        state := SetStage(state, DispatchFrozen);
        stage := DispatchFrozen;
      }
      match stage
      case DispatchFrozen => result := Unregister();
      case SchedulerUnregistered => result := CancelQueuedRuns();
      case CancellationStarted => result := Drain();
      case RunsDraining => result := Drain();
      case RowsDeleted => result := RemoveLogs();
      case LogsCleaning => result := RemoveLogs();
      case Completed => result := ClearJournal();
    }
  }
}
