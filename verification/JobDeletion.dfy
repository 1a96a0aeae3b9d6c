/**
  Deleting a job: a journal whose stages lead to a cancellation boundary, a rollback
  before it and a resumable removal after it.  Every effect of a resume consumes one
  fault: it goes through, it fails, or the process dies there.
 */
module JobDeletion {
  import opened Options

  datatype Stage =
    | Prepared
    | DispatchFrozen
    | SchedulerUnregistered
    | RollbackRequired
    | CancellationStarted
    | RunsDraining
    | RowsDeleted
    | LogsCleaning
    | Completed

  predicate IsIrreversible(stage: Stage) {
    stage.CancellationStarted? || stage.RunsDraining? || stage.RowsDeleted? || stage.LogsCleaning? || stage.Completed?
  }

  predicate IsPreCancellation(stage: Stage) {
    stage.Prepared? || stage.DispatchFrozen? || stage.SchedulerUnregistered? || stage.RollbackRequired?
  }

  datatype RunState = Pending | Running | Ended

  datatype Journal = Journal(stage: Stage, runIds: set<nat>)

  /**
    One job: its row, its runs' rows, log files and clean-up tickets are durable; its
    trigger, the dispatch freeze and the in-memory queue and active runs are not.
    `settling` are the active runs whose terminal state will still be written: they were
    past the registry's check, or handed over to clean-up, before the job was tombstoned.
   */
  datatype State = State(
    definition: bool,
    rows: map<nat, RunState>,
    logs: set<nat>,
    tickets: set<nat>,
    journal: Option<Journal>,
    armed: bool,
    frozen: bool,
    queued: set<nat>,
    active: set<nat>,
    settling: set<nat>)

  datatype Fault = Goes | Fails | Dies

  datatype Result = Done | Failed | Died

  datatype Outcome = Outcome(state: State, result: Result)

  datatype Intent = Foreground | Recovery

  function First(faults: seq<Fault>): Fault {
    if faults == [] then Goes else faults[0]
  }

  function Rest(faults: seq<Fault>): seq<Fault> {
    if faults == [] then [] else faults[1..]
  }

  /** What a dead process leaves. */
  function Crash(s: State): State {
    s.(armed := false, frozen := false, queued := {}, active := {}, settling := {})
  }

  function Dead(s: State): Outcome {
    Outcome(Crash(s), Died)
  }

  function Error(s: State): Outcome {
    Outcome(s, Failed)
  }

  function SetStage(s: State, stage: Stage): State
    requires s.journal.Some?
  {
    s.(journal := Some(s.journal.value.(stage := stage)))
  }

  function Runs(s: State): set<nat> {
    if s.journal.Some? then s.journal.value.runIds else {}
  }

  // ------------------------------------------------------------------- rollback

  /** Restore the schedule, thaw dispatch whatever came of that, then clear the journal. */
  function Rollback(s: State, faults: seq<Fault>): Outcome {
    match First(faults)
    case Dies => Dead(s)
    case Fails => Error(s.(frozen := false))
    case Goes =>
      var restored := s.(armed := true, frozen := false);
      match First(Rest(faults))
      case Dies => Dead(restored)
      case Fails => Error(restored)
      case Goes => Outcome(restored.(journal := None), Done)
  }

  /** A failed write of the rollback direction is not an error: recovery rolls back from here anyway. */
  function RollbackPreCancellation(s: State, faults: seq<Fault>): Outcome
    requires s.journal.Some?
  {
    match First(faults)
    case Dies => Dead(s)
    case Fails => AfterRollback(Rollback(s, Rest(faults)))
    case Goes => AfterRollback(Rollback(SetStage(s, RollbackRequired), Rest(faults)))
  }

  /** The operation that was rolled back failed. */
  function AfterRollback(o: Outcome): Outcome {
    if o.result.Done? then Error(o.state) else o
  }

  // ------------------------------------------------------------------- the stages

  function FromPrepared(s: State, faults: seq<Fault>): Outcome
    requires s.journal.Some?
  {
    match First(faults)
    case Dies => Dead(s)
    case Fails => Error(s.(frozen := false))
    case Goes => FromFrozen(SetStage(s.(frozen := true), DispatchFrozen), Rest(faults))
  }

  function FromFrozen(s: State, faults: seq<Fault>): Outcome
    requires s.journal.Some?
  {
    match First(faults)
    case Dies => Dead(s)
    case Fails => RollbackPreCancellation(s, Rest(faults))
    case Goes =>
      var unregistered := s.(armed := false);
      match First(Rest(faults))
      case Dies => Dead(unregistered)
      case Fails => Error(unregistered)
      case Goes => FromUnregistered(SetStage(unregistered, SchedulerUnregistered), Rest(Rest(faults)))
  }

  function Cancelled(rows: map<nat, RunState>, runs: set<nat>): map<nat, RunState> {
    map run | run in rows :: if run in runs then Ended else rows[run]
  }

  predicate AllPending(s: State) {
    forall run :: run in s.queued ==> run in s.rows && s.rows[run] == Pending
  }

  /** The cancellation boundary: one transaction ends every queued run and moves the stage. */
  function FromUnregistered(s: State, faults: seq<Fault>): Outcome
    requires s.journal.Some?
  {
    match First(faults)
    case Dies => Dead(s)
    case Fails => RollbackPreCancellation(s, Rest(faults))
    case Goes =>
      if !AllPending(s) then RollbackPreCancellation(s, Rest(faults))
      else FromCancellation(SetStage(s.(rows := Cancelled(s.rows, s.queued)), CancellationStarted), Rest(faults))
  }

  /** Mark the drain, then wait for every active run; a tombstoned run that is not settling writes no terminal state. */
  function FromCancellation(s: State, faults: seq<Fault>): Outcome
    requires s.journal.Some?
  {
    match First(faults)
    case Dies => Dead(s)
    case Fails => Error(s)
    case Goes =>
      var draining := SetStage(s, RunsDraining).(queued := {});
      match First(Rest(faults))
      case Dies => Dead(draining)
      case Fails => Error(draining)
      case Goes => FromDraining(draining.(rows := Cancelled(s.rows, s.settling), active := {}, settling := {}), Rest(Rest(faults)))
  }

  /** One transaction: tickets for every run's log, then the rows and the definition go. */
  function RowsCommitted(s: State): State
    requires s.journal.Some?
  {
    s.(definition := false, rows := map[], tickets := s.tickets + s.rows.Keys,
      journal := Some(Journal(RowsDeleted, s.rows.Keys)))
  }

  function FromDraining(s: State, faults: seq<Fault>): Outcome
    requires s.journal.Some?
  {
    match First(faults)
    case Dies => Dead(s)
    case Fails => Error(s)
    case Goes => FromRows(RowsCommitted(s), Rest(faults))
  }

  function FromRows(s: State, faults: seq<Fault>): Outcome
    requires s.journal.Some?
  {
    match First(faults)
    case Dies => Dead(s)
    case Fails => Error(s)
    case Goes => CleanLogs(SetStage(s, LogsCleaning), s.journal.value.runIds, Rest(faults))
  }

  predicate IsLeast(r: nat, runs: set<nat>) {
    r in runs && forall x :: x in runs ==> r <= x
  }

  lemma {:induction false} LeastExists(runs: set<nat>)
    requires runs != {}
    ensures exists r :: IsLeast(r, runs)
    decreases |runs|
  {
    var r :| r in runs;
    var rest := runs - {r};
    if rest == {} {
      assert runs == rest + {r};
      assert IsLeast(r, runs);
    } else {
      LeastExists(rest);
      var l :| IsLeast(l, rest);
      LeastOfMore(r, l, rest, runs);
    }
  }

  lemma LeastOfMore(r: nat, l: nat, rest: set<nat>, runs: set<nat>)
    requires IsLeast(l, rest) && runs == rest + {r}
    ensures IsLeast(if r <= l then r else l, runs)
  {
  }

  /** Runs are listed in identifier order. */
  function Least(runs: set<nat>): (r: nat)
    requires runs != {}
    ensures IsLeast(r, runs)
  {
    LeastExists(runs);
    var r :| r in runs && IsLeast(r, runs);
    r
  }

  /** Remove a log, then its ticket, one run at a time. */
  function CleanLogs(s: State, runs: set<nat>, faults: seq<Fault>): Outcome
    requires s.journal.Some?
    decreases |runs|
  {
    if runs == {} then
      match First(faults)
      case Dies => Dead(s)
      case Fails => Error(s)
      case Goes => Finish(SetStage(s, Completed), Rest(faults))
    else
      var run := Least(runs);
      match First(faults)
      case Dies => Dead(s)
      case Fails => Error(s)
      case Goes =>
        var removed := s.(logs := s.logs - {run});
        match First(Rest(faults))
        case Dies => Dead(removed)
        case Fails => Error(removed)
        case Goes => CleanLogs(removed.(tickets := s.tickets - {run}), runs - {run}, Rest(Rest(faults)))
  }

  function Finish(s: State, faults: seq<Fault>): Outcome {
    var thawed := s.(frozen := false);
    match First(faults)
    case Dies => Dead(thawed)
    case Fails => Error(thawed)
    case Goes => Outcome(thawed.(journal := None), Done)
  }

  /** Resume a journal from its persisted stage. */
  function Resume(s: State, intent: Intent, faults: seq<Fault>): Outcome
    requires s.journal.Some?
  {
    var stage := s.journal.value.stage;
    if stage.RollbackRequired? || (intent.Recovery? && IsPreCancellation(stage)) then Rollback(s, faults)
    else
      match stage
      case Prepared => FromPrepared(s, faults)
      case DispatchFrozen => FromFrozen(s.(frozen := true), faults)
      case SchedulerUnregistered => FromUnregistered(s.(frozen := true), faults)
      case CancellationStarted => FromCancellation(s.(frozen := true), faults)
      case RunsDraining => FromCancellation(s.(frozen := true), faults)
      case RowsDeleted => FromRows(s.(frozen := true), faults)
      case LogsCleaning => FromRows(s.(frozen := true), faults)
      case Completed => Finish(s.(frozen := true), faults)
  }

  /** What only the process knew: its schedule, the freeze, who waits and who runs. */
  predicate IsForgotten(s: State) {
    !s.armed && !s.frozen && s.queued == {} && s.active == {} && s.settling == {}
  }

  lemma RollbackDies(s: State, faults: seq<Fault>)
    ensures Rollback(s, faults).result.Died? ==> IsForgotten(Rollback(s, faults).state)
    ensures s.journal.Some? ==> var o := RollbackPreCancellation(s, faults); o.result.Died? ==> IsForgotten(o.state)
  {
  }

  lemma {:induction false} CleaningDies(s: State, runs: set<nat>, faults: seq<Fault>)
    requires s.journal.Some?
    ensures CleanLogs(s, runs, faults).result.Died? ==> IsForgotten(CleanLogs(s, runs, faults).state)
    decreases |runs|
  {
    if runs != {} {
      var run := Least(runs);
      CleaningDies(s.(logs := s.logs - {run}, tickets := s.tickets - {run}), runs - {run}, Rest(Rest(faults)));
    }
  }

  lemma RowsDie(s: State, faults: seq<Fault>)
    requires s.journal.Some?
    ensures FromRows(s, faults).result.Died? ==> IsForgotten(FromRows(s, faults).state)
  {
    CleaningDies(SetStage(s, LogsCleaning), s.journal.value.runIds, Rest(faults));
    hide CleanLogs;
  }

  lemma DrainedDies(s: State, faults: seq<Fault>)
    requires s.journal.Some?
    ensures FromDraining(s, faults).result.Died? ==> IsForgotten(FromDraining(s, faults).state)
  {
    RowsDie(RowsCommitted(s), Rest(faults));
    hide FromRows;
  }

  lemma DrainingDies(s: State, faults: seq<Fault>)
    requires s.journal.Some?
    ensures FromCancellation(s, faults).result.Died? ==> IsForgotten(FromCancellation(s, faults).state)
  {
    var drained := SetStage(s, RunsDraining).(queued := {}, rows := Cancelled(s.rows, s.settling), active := {}, settling := {});
    DrainedDies(drained, Rest(Rest(faults)));
    hide FromDraining, Cancelled;
  }

  lemma CrossingDies(s: State, faults: seq<Fault>)
    requires s.journal.Some?
    ensures FromUnregistered(s, faults).result.Died? ==> IsForgotten(FromUnregistered(s, faults).state)
  {
    RollbackDies(s, Rest(faults));
    DrainingDies(SetStage(s.(rows := Cancelled(s.rows, s.queued)), CancellationStarted), Rest(faults));
    hide FromCancellation, RollbackPreCancellation, Cancelled, AllPending, Rollback;
  }

  lemma FreezingDies(s: State, faults: seq<Fault>)
    requires s.journal.Some?
    ensures FromFrozen(s, faults).result.Died? ==> IsForgotten(FromFrozen(s, faults).state)
    ensures FromPrepared(s, faults).result.Died? ==> IsForgotten(FromPrepared(s, faults).state)
  {
    var frozen := SetStage(s.(frozen := true), DispatchFrozen);
    RollbackDies(s, Rest(faults));
    RollbackDies(frozen, Rest(Rest(faults)));
    CrossingDies(SetStage(s.(armed := false), SchedulerUnregistered), Rest(Rest(faults)));
    CrossingDies(SetStage(frozen.(armed := false), SchedulerUnregistered), Rest(Rest(Rest(faults))));
    hide FromUnregistered, RollbackPreCancellation, Rollback;
  }

  /** Wherever the process dies in an attempt, the job is neither scheduled nor frozen afterwards, and nothing of it waits or runs. */
  lemma DeathForgets(s: State, intent: Intent, faults: seq<Fault>)
    requires s.journal.Some?
    ensures Resume(s, intent, faults).result.Died? ==> IsForgotten(Resume(s, intent, faults).state)
  {
    RollbackDies(s, faults);
    FreezingDies(s, faults);
    FreezingDies(s.(frozen := true), faults);
    CrossingDies(s.(frozen := true), faults);
    DrainingDies(s.(frozen := true), faults);
    RowsDie(s.(frozen := true), faults);
    hide FromPrepared, FromFrozen, FromUnregistered, FromCancellation, FromRows, Rollback, RollbackPreCancellation;
  }

  // ------------------------------------------------------------------- the invariant

  /** A deletion that is over, or still has its definition, or has removed rows, definition and (at the end) logs. */
  ghost predicate Inv(s: State) {
    && s.queued <= s.rows.Keys && s.active <= s.rows.Keys && s.queued !! s.active && s.settling <= s.active
    && (forall run :: run in s.active ==> s.rows[run] == Running)
    && s.logs <= s.rows.Keys + Runs(s)
    && (!s.definition ==> s.rows == map[])
    && (AllPending(s) || (s.journal.Some? && s.journal.value.stage == CancellationStarted))
    && match s.journal
       case None => !s.definition ==> s.logs == {}
       case Some(j) =>
         match j.stage
         case RowsDeleted => !s.definition
         case LogsCleaning => !s.definition
         case Completed => !s.definition && s.logs == {}
         case _ => s.definition && j.runIds == {}
  }

  predicate Restored(s: State) {
    s.journal.None? && s.definition
  }

  /** Restored with its schedule armed and its dispatch thawed. */
  predicate IsBack(s: State) {
    Restored(s) && s.armed && !s.frozen
  }

  predicate Removed(s: State) {
    s.journal.None? && !s.definition
  }

  /** Nothing a rollback must give back was touched. */
  predicate SameHistory(s: State, r: State) {
    s.definition == r.definition && s.rows == r.rows && s.logs == r.logs && s.tickets == r.tickets
  }

  predicate Removing(s: State) {
    Removed(s) || (s.journal.Some? && IsIrreversible(s.journal.value.stage))
  }

  lemma RollbackRestores(s: State, faults: seq<Fault>)
    requires Inv(s) && s.journal.Some? && IsPreCancellation(s.journal.value.stage)
    ensures var o := Rollback(s, faults);
            && Inv(o.state) && SameHistory(s, o.state)
            && (if o.result.Done? then IsBack(o.state) else !Restored(o.state)) && !o.state.frozen
            && (!o.result.Done? ==> o.state.journal == s.journal)
  {
  }

  /** A failed attempt to cross the boundary undoes itself, or leaves a journal that only rolls back. */
  lemma UndoRestores(s: State, faults: seq<Fault>)
    requires Inv(s) && s.journal.Some? && IsPreCancellation(s.journal.value.stage)
    ensures var o := RollbackPreCancellation(s, faults);
            && Inv(o.state) && SameHistory(s, o.state) && !o.result.Done?
            && (Restored(o.state) ==> IsBack(o.state))
            && (!Restored(o.state) ==> o.state.journal.Some? && IsPreCancellation(o.state.journal.value.stage))
  {
    RollbackRestores(s, Rest(faults));
    RollbackRestores(SetStage(s, RollbackRequired), Rest(faults));
  }

  /** From the boundary on, a resume only removes: it ends removed exactly when it reports success. */
  ghost predicate OnlyRemoves(o: Outcome) {
    && Inv(o.state) && Removing(o.state)
    && (o.result.Done? <==> Removed(o.state))
    && (o.result.Done? ==> !o.state.frozen)
  }

  lemma CleaningStops(s: State)
    requires Inv(s) && s.journal.Some? && s.journal.value.stage == LogsCleaning
    ensures OnlyRemoves(Dead(s)) && OnlyRemoves(Error(s))
  {
  }

  lemma FinishRemoves(s: State, faults: seq<Fault>)
    requires Inv(s) && s.journal.Some? && s.journal.value.stage == LogsCleaning && s.logs == {}
    ensures OnlyRemoves(CleanLogs(s, {}, faults))
  {
  }

  lemma LogRemoved(s: State, run: nat)
    requires Inv(s) && s.journal.Some? && s.journal.value.stage == LogsCleaning
    ensures Inv(s.(logs := s.logs - {run})) && Inv(s.(logs := s.logs - {run}, tickets := s.tickets - {run}))
  {
  }

  lemma {:induction false} CleaningRemoves(s: State, runs: set<nat>, faults: seq<Fault>)
    requires Inv(s) && s.journal.Some? && s.journal.value.stage == LogsCleaning && s.logs <= runs
    ensures OnlyRemoves(CleanLogs(s, runs, faults))
    decreases |runs|
  {
    CleaningStops(s);
    if runs == {} {
      FinishRemoves(s, faults);
    } else {
      var run := Least(runs);
      LogRemoved(s, run);
      CleaningStops(s.(logs := s.logs - {run}));
      hide Inv, OnlyRemoves;
      CleaningRemoves(s.(logs := s.logs - {run}, tickets := s.tickets - {run}), runs - {run}, Rest(Rest(faults)));
    }
  }

  lemma RowsRemoves(s: State, faults: seq<Fault>)
    requires Inv(s) && s.journal.Some? && (s.journal.value.stage == RowsDeleted || s.journal.value.stage == LogsCleaning)
    ensures OnlyRemoves(FromRows(s, faults))
  {
    CleaningRemoves(SetStage(s, LogsCleaning), s.journal.value.runIds, Rest(faults));
  }

  lemma DrainingRemoves(s: State, faults: seq<Fault>)
    requires Inv(s) && s.journal.Some? && s.journal.value.stage == RunsDraining && s.queued == {} && s.active == {}
    ensures OnlyRemoves(FromDraining(s, faults))
  {
    RowsRemoves(RowsCommitted(s), Rest(faults));
  }

  function Drained(s: State): State
    requires s.journal.Some?
  {
    SetStage(s, RunsDraining).(queued := {}, rows := Cancelled(s.rows, s.settling), active := {}, settling := {})
  }

  lemma DrainedKeepsInv(s: State)
    requires Inv(s) && s.journal.Some? && (s.journal.value.stage == CancellationStarted || s.journal.value.stage == RunsDraining)
    ensures Inv(Drained(s))
  {
    assert Cancelled(s.rows, s.settling).Keys == s.rows.Keys;
  }

  lemma MarkingKeepsInv(s: State)
    requires Inv(s) && s.journal.Some? && (s.journal.value.stage == CancellationStarted || s.journal.value.stage == RunsDraining)
    ensures var draining := SetStage(s, RunsDraining).(queued := {});
            OnlyRemoves(Dead(s)) && OnlyRemoves(Error(s)) && OnlyRemoves(Dead(draining)) && OnlyRemoves(Error(draining))
  {
  }

  lemma CancellationRemoves(s: State, faults: seq<Fault>)
    requires Inv(s) && s.journal.Some? && (s.journal.value.stage == CancellationStarted || s.journal.value.stage == RunsDraining)
    ensures OnlyRemoves(FromCancellation(s, faults))
  {
    DrainedKeepsInv(s);
    MarkingKeepsInv(s);
    hide Inv, OnlyRemoves, FromDraining, Cancelled;
    DrainingRemoves(Drained(s), Rest(Rest(faults)));
  }

  lemma IrreversibleRemoves(s: State, intent: Intent, faults: seq<Fault>)
    requires Inv(s) && s.journal.Some? && IsIrreversible(s.journal.value.stage)
    ensures OnlyRemoves(Resume(s, intent, faults))
  {
    var frozen := s.(frozen := true);
    hide FromRows, FromCancellation;
    match s.journal.value.stage
    case CancellationStarted => CancellationRemoves(frozen, faults);
    case RunsDraining => CancellationRemoves(frozen, faults);
    case RowsDeleted => RowsRemoves(frozen, faults);
    case LogsCleaning => RowsRemoves(frozen, faults);
    case Completed =>
  }

  /**
    A foreground resume before the boundary either stays before it, or undoes itself, with the history untouched;
    or it crosses, and then only removes.
   */
  ghost predicate CrossesOrKeeps(s: State, o: Outcome) {
    || OnlyRemoves(o)
    || (&& Inv(o.state) && SameHistory(s, o.state) && !o.result.Done?
        && (IsBack(o.state) || (o.state.journal.Some? && IsPreCancellation(o.state.journal.value.stage))))
  }

  lemma UnregisteredCrossesOrKeeps(s: State, faults: seq<Fault>)
    requires Inv(s) && s.journal.Some? && s.journal.value.stage == SchedulerUnregistered
    ensures CrossesOrKeeps(s, FromUnregistered(s, faults))
  {
    hide RollbackPreCancellation, FromCancellation;
    UndoRestores(s, Rest(faults));
    if First(faults).Goes? && AllPending(s) {
      var cancelled := SetStage(s.(rows := Cancelled(s.rows, s.queued)), CancellationStarted);
      assert cancelled.rows.Keys == s.rows.Keys;
      CancellationRemoves(cancelled, Rest(faults));
    }
  }

  lemma FrozenCrossesOrKeeps(s: State, faults: seq<Fault>)
    requires Inv(s) && s.journal.Some? && s.journal.value.stage == DispatchFrozen
    ensures CrossesOrKeeps(s, FromFrozen(s, faults))
  {
    hide RollbackPreCancellation, FromUnregistered;
    UndoRestores(s, Rest(faults));
    UnregisteredCrossesOrKeeps(SetStage(s.(armed := false), SchedulerUnregistered), Rest(Rest(faults)));
  }

  lemma ForegroundCrossesOrKeeps(s: State, faults: seq<Fault>)
    requires Inv(s) && s.journal.Some? && IsPreCancellation(s.journal.value.stage) && !s.journal.value.stage.RollbackRequired?
    ensures CrossesOrKeeps(s, Resume(s, Foreground, faults))
  {
    hide FromFrozen, FromUnregistered;
    match s.journal.value.stage
    case Prepared => FrozenCrossesOrKeeps(SetStage(s.(frozen := true), DispatchFrozen), Rest(faults));
    case DispatchFrozen => FrozenCrossesOrKeeps(s.(frozen := true), faults);
    case SchedulerUnregistered => UnregisteredCrossesOrKeeps(s.(frozen := true), faults);
  }

  // ------------------------------------------------------------------- whole lives

  datatype Event =
    | Attempt(intent: Intent, faults: seq<Fault>)
    | Kill
    | ArmAll(kept: bool, listed: set<nat>)
    | Dispatch(run: nat, starts: bool)
    | Settle(run: nat)
    | Exit(run: nat, next: Option<nat>)

  /** Open rows that no run of this process accounts for; pending ones count unless they are to be kept. */
  function LeftOver(s: State, kept: bool, listed: set<nat>): set<nat> {
    set run | run in s.rows && run in listed && run !in s.queued + s.active && !s.rows[run].Ended? && !(kept && s.rows[run].Pending?)
  }

  predicate IsTombstoned(s: State) {
    s.journal.Some? && s.journal.value.stage.RunsDraining?
  }

  /**
    `ArmAll` is the start-up loop over the job table: it ends the listed rows that are left over from before, except
    pending ones if start-up found a deletion before its boundary, and arms the job.  Dispatch needs a definition that
    is not frozen.  A run that finishes writes its terminal state and may hand its slot to a queued run, whose row is
    then written as running whatever it was.
   */
  function Step(s: State, event: Event): State {
    match event
    case Attempt(intent, faults) => if s.journal.None? then s else Resume(s, intent, faults).state
    case Kill => Crash(s)
    case ArmAll(kept, listed) =>
      if s.definition then s.(armed := true, rows := Cancelled(s.rows, LeftOver(s, kept, listed))) else s
    case Settle(run) => if run in s.active && !IsTombstoned(s) then s.(settling := s.settling + {run}) else s
    case Exit(run, next) => if run in s.settling then Exited(s, run, next) else s
    case Dispatch(run, starts) =>
      if !s.definition || s.frozen || run in s.rows || run in s.logs then s
      else
        s.(rows := s.rows[run := if starts then Running else Pending], logs := s.logs + {run},
        queued := if starts then s.queued else s.queued + {run},
        active := if starts then s.active + {run} else s.active)
  }

  function Exited(s: State, run: nat, next: Option<nat>): State
  {
    var rows := Cancelled(s.rows, {run});
    var left := s.(rows := rows, active := s.active - {run}, settling := s.settling - {run});
    if next.Some? && next.value in s.queued then
      left.(rows := rows[next.value := Running], queued := s.queued - {next.value}, active := left.active + {next.value})
    else left
  }

  function Life(s: State, events: seq<Event>): State
    decreases |events|
  {
    if events == [] then s else Life(Step(s, events[0]), events[1..])
  }

  lemma RecoveryRestores(s: State, faults: seq<Fault>)
    requires Inv(s) && s.journal.Some? && IsPreCancellation(s.journal.value.stage)
    ensures var o := Resume(s, Recovery, faults);
            && Inv(o.state) && SameHistory(s, o.state)
            && (if o.result.Done? then IsBack(o.state) else !Restored(o.state))
            && (!o.result.Done? ==> o.state.journal == s.journal)
  {
    RollbackRestores(s, faults);
  }

  /** What one attempt may do, by the stage it finds. */
  lemma AttemptOutcome(s: State, intent: Intent, faults: seq<Fault>)
    requires Inv(s) && s.journal.Some?
    ensures var o, stage := Resume(s, intent, faults), s.journal.value.stage;
            && Inv(o.state)
            && (IsIrreversible(stage) ==> OnlyRemoves(o))
            && (stage.RollbackRequired? || (intent.Recovery? && IsPreCancellation(stage)) ==>
                  SameHistory(s, o.state) && (if o.result.Done? then IsBack(o.state) else o.state.journal == s.journal))
            && (intent.Foreground? && IsPreCancellation(stage) && !stage.RollbackRequired? ==> CrossesOrKeeps(s, o))
  {
    hide Inv, OnlyRemoves, SameHistory, Resume;
    var stage := s.journal.value.stage;
    if IsIrreversible(stage) {
      IrreversibleRemoves(s, intent, faults);
      OnlyRemovesKeepsInv(Resume(s, intent, faults));
    } else if stage.RollbackRequired? || intent.Recovery? {
      RollbackRestores(s, faults);
      ResumeRollsBack(s, intent, faults);
    } else {
      ForegroundCrossesOrKeeps(s, faults);
      OnlyRemovesKeepsInv(Resume(s, intent, faults));
    }
  }

  lemma OnlyRemovesKeepsInv(o: Outcome)
    ensures OnlyRemoves(o) ==> Inv(o.state)
  {
  }

  lemma ResumeRollsBack(s: State, intent: Intent, faults: seq<Fault>)
    requires Inv(s) && s.journal.Some?
    requires s.journal.value.stage.RollbackRequired? || (intent.Recovery? && IsPreCancellation(s.journal.value.stage))
    ensures Resume(s, intent, faults) == Rollback(s, faults)
    ensures var o := Rollback(s, faults); o.state.journal == s.journal || o.state.journal.None?
  {
    RollbackRestores(s, faults);
  }

  /** Undone, or bound to be undone. */
  predicate RollingBack(s: State) {
    Restored(s) || (s.journal.Some? && s.journal.value.stage.RollbackRequired?)
  }

  lemma StepKeepsInv(s: State, event: Event)
    requires Inv(s)
    ensures Inv(Step(s, event))
  {
    if event.Attempt? && s.journal.Some? {
      AttemptOutcome(s, event.intent, event.faults);
    }
    hide Resume;
  }

  /** No trace revives a job whose cancellation has begun, and none cancels a job that is being rolled back. */
  lemma StepKeepsDirection(s: State, event: Event)
    requires Inv(s)
    ensures Removing(s) ==> Removing(Step(s, event))
    ensures RollingBack(s) ==> RollingBack(Step(s, event)) && (event.Attempt? ==> SameHistory(s, Step(s, event)))
    ensures s.journal.None? ==> Step(s, event).journal.None?
  {
    if event.Attempt? && s.journal.Some? {
      AttemptOutcome(s, event.intent, event.faults);
    }
    hide Resume, Inv;
  }

  lemma {:induction false} LifeKeepsDirection(s: State, events: seq<Event>)
    requires Inv(s)
    ensures Inv(Life(s, events))
    ensures Removing(s) ==> Removing(Life(s, events))
    ensures RollingBack(s) ==> RollingBack(Life(s, events))
    ensures s.journal.None? ==> Life(s, events).journal.None?
    decreases |events|
  {
    hide Inv, Removing, RollingBack, Step;
    if events != [] {
      StepKeepsInv(s, events[0]);
      StepKeepsDirection(s, events[0]);
      LifeKeepsDirection(Step(s, events[0]), events[1..]);
    }
  }

  /** Whether the start-up loop has run since the last kill, given whether it had before these events. */
  predicate IsUp(up: bool, events: seq<Event>)
    decreases |events|
  {
    if events == [] then up else IsUp(if events[0].Kill? then false else up || events[0].ArmAll?, events[1..])
  }

  lemma StepBringsBack(s: State, event: Event)
    requires Inv(s) && (Restored(s) ==> !s.frozen)
    ensures Restored(Step(s, event)) ==> !Step(s, event).frozen
    ensures Restored(Step(s, event)) && !event.Kill? && (event.ArmAll? || (Restored(s) ==> s.armed)) ==> Step(s, event).armed
  {
    hide Resume;
    if event.Attempt? && s.journal.Some? {
      AttemptOutcome(s, event.intent, event.faults);
    }
  }

  /** A restored job is thawed, and armed except between a kill and the next start-up. */
  lemma {:induction false} LifeBringsBack(s: State, events: seq<Event>, up: bool)
    requires Inv(s) && (Restored(s) ==> !s.frozen && (up ==> s.armed))
    ensures var r := Life(s, events); Restored(r) ==> !r.frozen && (IsUp(up, events) ==> r.armed)
    decreases |events|
  {
    hide Inv, Step, Restored;
    if events != [] {
      StepKeepsInv(s, events[0]);
      StepBringsBack(s, events[0]);
      LifeBringsBack(Step(s, events[0]), events[1..], if events[0].Kill? then false else up || events[0].ArmAll?);
    }
  }

  /** While dispatch is frozen, whatever is dispatched, settles or finishes, the job takes no further run. */
  lemma {:induction false} FrozenTakesNoRun(s: State, events: seq<Event>)
    requires s.frozen && s.queued + s.active <= s.rows.Keys
    requires forall e :: e in events ==> e.Dispatch? || e.Settle? || e.Exit?
    ensures var r := Life(s, events);
            r.rows.Keys == s.rows.Keys && r.logs == s.logs && r.queued + r.active <= s.queued + s.active
    decreases |events|
  {
    if events != [] {
      assert events[0] in events;
      FrozenStep(s, events[0]);
      hide Step;
      FrozenTakesNoRun(Step(s, events[0]), events[1..]);
    }
  }

  lemma FrozenStep(s: State, event: Event)
    requires s.frozen && s.queued + s.active <= s.rows.Keys && (event.Dispatch? || event.Settle? || event.Exit?)
    ensures var r := Step(s, event);
            && r.frozen && r.rows.Keys == s.rows.Keys && r.logs == s.logs && r.queued + r.active <= s.queued + s.active
  {
  }

  /** Once the job has its tombstone, no further run will write how it ended. */
  lemma SettlingShrinks(s: State, event: Event)
    requires s.journal.Some? && !event.Attempt? && IsTombstoned(s)
    ensures Step(s, event).settling <= s.settling && IsTombstoned(Step(s, event))
  {
  }

  lemma GoneStays(s: State, event: Event)
    requires Inv(s) && Removed(s)
    ensures var r := Step(s, event); Inv(r) && Removed(r) && (r.armed ==> s.armed)
  {
    StepKeepsInv(s, event);
    hide Resume;
  }

  /** A removed job comes back by nothing that happens to it, start-ups included: no row, no log, and no trigger it did not have left. */
  lemma {:induction false} RemovedForever(s: State, events: seq<Event>)
    requires Inv(s) && Removed(s)
    ensures var r := Life(s, events);
            && Removed(r) && r.rows == map[] && r.logs == {}
            && (r.armed ==> s.armed)
    decreases |events|
  {
    if events != [] {
      GoneStays(s, events[0]);
      hide Step;
      RemovedForever(Step(s, events[0]), events[1..]);
    }
  }

  /**
    Every life of a deletion ends, if its journal is cleared, either with the definition restored or with
    definition, run rows and run logs all gone; it is removed exactly when it ever crossed the boundary.
    Restored means thawed, and armed as well unless the process was killed later and has not started up again.
   */
  lemma DeletionConverges(s: State, events: seq<Event>, later: seq<Event>)
    requires Inv(s) && s.journal.Some?
    requires Life(Life(s, events), later).journal.None?
    ensures var reached, end := Life(s, events), Life(Life(s, events), later);
            && (Restored(end) || (Removed(end) && end.rows == map[] && end.logs == {}))
            && (Removing(reached) ==> Removed(end))
            && (RollingBack(reached) ==> Restored(end))
            && (Restored(end) ==> !end.frozen && (IsUp(IsUp(true, events), later) ==> end.armed))
  {
    LifeKeepsDirection(s, events);
    LifeKeepsDirection(Life(s, events), later);
    LifeBringsBack(s, events, true);
    LifeBringsBack(Life(s, events), later, IsUp(true, events));
    hide Life, IsUp;
  }

  predicate RecoversOnly(events: seq<Event>) {
    forall e :: e in events ==> e.Kill? || e.ArmAll? || (e.Attempt? && e.intent.Recovery?)
  }

  predicate StartsUp(events: seq<Event>, kept: bool) {
    exists e :: e in events && e.ArmAll? && e.kept == kept
  }

  /** What was there is back: definition, logs and tickets, and every row but those that a start-up found open and ended. */
  ghost predicate GivenBack(s: State, r: State, events: seq<Event>) {
    && s.definition == r.definition && s.logs == r.logs && s.tickets == r.tickets && s.rows.Keys == r.rows.Keys
    && forall run :: run in s.rows ==>
         || r.rows[run] == s.rows[run]
         || (r.rows[run] == Ended && (StartsUp(events, false) || (StartsUp(events, true) && s.rows[run] == Running)))
  }

  lemma OneEventGivesBack(s: State, e: Event)
    requires Inv(s) && (e.Kill? || e.ArmAll? || (e.Attempt? && e.intent.Recovery?))
    requires Restored(s) || (s.journal.Some? && IsPreCancellation(s.journal.value.stage))
    ensures var r := Step(s, e); GivenBack(s, r, [e]) && (Restored(r) || (r.journal == s.journal && s.journal.Some?))
  {
    assert e in [e];
    if e.Attempt? && s.journal.Some? {
      RecoveryRestores(s, e.faults);
    }
    hide Resume, Inv;
  }

  lemma GivenBackTwice(s: State, m: State, r: State, e: Event, rest: seq<Event>)
    requires GivenBack(s, m, [e]) && GivenBack(m, r, rest)
    ensures GivenBack(s, r, [e] + rest)
  {
    forall kept ensures StartsUp([e] + rest, kept) <==> StartsUp([e], kept) || StartsUp(rest, kept) {
    }
    hide StartsUp;
  }

  /**
    After a restart, recovery alone never goes beyond the boundary: it gives back what was there.  Only start-ups touch
    rows: they end running ones, and pending ones if they found no deletion before its boundary.
   */
  lemma {:induction false} RecoveryGivesBack(s: State, events: seq<Event>)
    requires Inv(s) && RecoversOnly(events)
    requires Restored(s) || (s.journal.Some? && IsPreCancellation(s.journal.value.stage))
    ensures var r := Life(s, events);
            GivenBack(s, r, events) && (Restored(r) || (r.journal == s.journal && s.journal.Some?))
    decreases |events|
  {
    hide Step, Inv;
    if events != [] {
      var e := events[0];
      assert e in events;
      StepKeepsInv(s, e);
      OneEventGivesBack(s, e);
      RecoveryGivesBack(Step(s, e), events[1..]);
      assert events == [e] + events[1..];
      hide GivenBack;
      GivenBackTwice(s, Step(s, e), Life(s, events), e, events[1..]);
    }
  }

  // ------------------------------------------------------------------- the rows of the runs

  /** No row comes or goes; exactly these runs are ended, and every other row is as it was. */
  ghost predicate RowsEnded(before: map<nat, RunState>, after: map<nat, RunState>, runs: set<nat>) {
    && after.Keys == before.Keys
    && forall run :: run in before ==> after[run] == if run in runs then Ended else before[run]
  }

  predicate IsAt(s: State, stage: Stage) {
    s.journal.Some? && s.journal.value.stage == stage
  }

  /** The attempt has waited for every active run and then stopped, with the rows still there. */
  predicate DrainIsOver(o: Outcome) {
    o.result.Failed? && IsAt(o.state, RunsDraining) && o.state.active == {}
  }

  lemma DrainingLeavesRows(s: State, faults: seq<Fault>)
    requires IsAt(s, RunsDraining)
    ensures var r := FromDraining(s, faults).state; !IsAt(r, CancellationStarted) && (IsAt(r, RunsDraining) ==> r.rows == s.rows)
  {
    RowsAdvance(RowsCommitted(s), Rest(faults));
    hide FromRows;
  }

  lemma DrainRows(s: State, faults: seq<Fault>)
    requires s.journal.Some? && s.journal.value.stage in {CancellationStarted, RunsDraining} && s.settling <= s.active
    ensures var o := FromCancellation(s, faults);
            && (IsAt(o.state, CancellationStarted) ==> RowsEnded(s.rows, o.state.rows, {}))
            && (IsAt(o.state, RunsDraining) ==>
                  RowsEnded(s.rows, o.state.rows, {}) || RowsEnded(s.rows, o.state.rows, s.settling))
            && (DrainIsOver(o) ==> RowsEnded(s.rows, o.state.rows, s.settling))
  {
    DrainingLeavesRows(Drained(s), Rest(Rest(faults)));
    hide FromDraining;
  }

  lemma EndedTwice(a: map<nat, RunState>, b: map<nat, RunState>, c: map<nat, RunState>, first: set<nat>, second: set<nat>)
    requires RowsEnded(a, b, first) && RowsEnded(b, c, second)
    ensures RowsEnded(a, c, first + second)
  {
  }

  /** What the stages behind the boundary left of the rows, given the runs ended at the boundary. */
  ghost predicate RowsOf(s: State, o: Outcome, crossing: set<nat>) {
    && (IsAt(o.state, CancellationStarted) ==> RowsEnded(s.rows, o.state.rows, crossing))
    && (IsAt(o.state, RunsDraining) ==>
          RowsEnded(s.rows, o.state.rows, crossing) || RowsEnded(s.rows, o.state.rows, crossing + s.settling))
    && (DrainIsOver(o) ==> RowsEnded(s.rows, o.state.rows, crossing + s.settling))
  }

  lemma BoundaryRows(s: State, faults: seq<Fault>)
    requires s.journal.Some? && IsPreCancellation(s.journal.value.stage) && s.settling <= s.active
    ensures RowsOf(s, FromUnregistered(s, faults), s.queued)
  {
    UndoAdvances(s, Rest(faults));
    if First(faults).Goes? && AllPending(s) {
      var c := SetStage(s.(rows := Cancelled(s.rows, s.queued)), CancellationStarted);
      var o := FromCancellation(c, Rest(faults));
      assert RowsEnded(s.rows, c.rows, s.queued);
      DrainRows(c, Rest(faults));
      hide FromCancellation, RollbackPreCancellation, RowsEnded, DrainIsOver, IsAt;
      assert s.queued + {} == s.queued;
      if RowsEnded(c.rows, o.state.rows, {}) {
        EndedTwice(s.rows, c.rows, o.state.rows, s.queued, {});
      }
      if RowsEnded(c.rows, o.state.rows, s.settling) {
        EndedTwice(s.rows, c.rows, o.state.rows, s.queued, s.settling);
      }
    } else {
      hide RollbackPreCancellation;
    }
  }

  /**
    The rows after any attempt in any life that leaves them: crossing the boundary ends exactly the queued runs, the
    drain exactly those that were settling, and every other row is as it was.
   */
  lemma AttemptRows(start: State, events: seq<Event>, intent: Intent, faults: seq<Fault>)
    requires Inv(start) && Life(start, events).journal.Some?
    ensures var s := Life(start, events);
            RowsOf(s, Resume(s, intent, faults), if IsPreCancellation(s.journal.value.stage) then s.queued else {})
  {
    var s := Life(start, events);
    LifeKeepsDirection(start, events);
    InvBounds(s);
    hide Life, Inv;
    ResumeRows(s, intent, faults);
  }

  lemma InvBounds(s: State)
    requires Inv(s)
    ensures s.settling <= s.active
  {
  }

  lemma FrozenRows(s: State, faults: seq<Fault>)
    requires s.journal.Some? && IsPreCancellation(s.journal.value.stage) && s.settling <= s.active
    ensures RowsOf(s, FromFrozen(s, faults), s.queued)
  {
    UndoAdvances(s, Rest(faults));
    BoundaryRows(SetStage(s.(armed := false), SchedulerUnregistered), Rest(Rest(faults)));
    hide FromUnregistered, RollbackPreCancellation, RowsEnded;
  }

  lemma RowsGone(s: State, faults: seq<Fault>)
    requires s.journal.Some? && s.journal.value.stage in {RowsDeleted, LogsCleaning}
    ensures RowsOf(s, FromRows(s, faults), {})
  {
    RowsAdvance(s, faults);
    hide FromRows, RowsEnded;
  }

  lemma UncrossedRows(s: State, faults: seq<Fault>)
    requires s.journal.Some? && IsPreCancellation(s.journal.value.stage)
    ensures RowsOf(s, Rollback(s, faults), s.queued) && RowsOf(s, Dead(s), s.queued) && RowsOf(s, Error(s), s.queued)
  {
    hide RowsEnded;
  }

  lemma ResumeRows(s: State, intent: Intent, faults: seq<Fault>)
    requires s.journal.Some? && s.settling <= s.active
    ensures RowsOf(s, Resume(s, intent, faults), if IsPreCancellation(s.journal.value.stage) then s.queued else {})
  {
    var stage, frozen := s.journal.value.stage, s.(frozen := true);
    if IsPreCancellation(stage) {
      UncrossedRows(s, faults);
      hide FromFrozen, FromUnregistered, Rollback, RowsOf;
      match stage
      case Prepared =>
        var f := SetStage(frozen, DispatchFrozen);
        FrozenRows(f, Rest(faults));
        SameRows(s, f, FromFrozen(f, Rest(faults)), s.queued);
        UncrossedRows(s.(frozen := false), faults);
        SameRows(s, s.(frozen := false), Error(s.(frozen := false)), s.queued);
      case DispatchFrozen =>
        FrozenRows(frozen, faults);
        SameRows(s, frozen, FromFrozen(frozen, faults), s.queued);
      case SchedulerUnregistered =>
        BoundaryRows(frozen, faults);
        SameRows(s, frozen, FromUnregistered(frozen, faults), s.queued);
      case RollbackRequired =>
    } else if stage in {CancellationStarted, RunsDraining} {
      DrainRows(frozen, faults);
      assert {} + s.settling == s.settling;
      hide FromCancellation, RowsEnded, DrainIsOver, IsAt;
    } else if stage != Completed {
      RowsGone(frozen, faults);
      hide FromRows, RowsEnded, DrainIsOver, IsAt;
    } else {
      hide RowsEnded;
    }
  }

  lemma SameRows(s: State, r: State, o: Outcome, crossing: set<nat>)
    requires RowsOf(r, o, crossing) && r.rows == s.rows && r.settling == s.settling
    ensures RowsOf(s, o, crossing)
  {
    hide RowsEnded;
  }

  /** Crossing the boundary, in any life, ends exactly the queued runs. */
  lemma BoundaryEndsTheQueued(start: State, events: seq<Event>, intent: Intent, faults: seq<Fault>)
    requires Inv(start) && Life(start, events).journal.Some? && IsPreCancellation(Life(start, events).journal.value.stage)
    requires IsAt(Resume(Life(start, events), intent, faults).state, CancellationStarted)
    ensures var s, r := Life(start, events), Resume(Life(start, events), intent, faults).state;
            && r.rows.Keys == s.rows.Keys
            && forall run :: run in s.rows ==> r.rows[run] == if run in s.queued then Ended else s.rows[run]
  {
    AttemptRows(start, events, intent, faults);
    hide Resume, Life;
  }

  /** A run dispatched just before is ended at the boundary if and only if it had to wait. */
  lemma DispatchedIsCancelledIff(s: State, run: nat, starts: bool, intent: Intent, faults: seq<Fault>)
    requires Inv(s) && s.definition && !s.frozen && run !in s.rows && run !in s.logs
    requires s.journal.Some? && IsPreCancellation(s.journal.value.stage)
    requires IsAt(Resume(Step(s, Dispatch(run, starts)), intent, faults).state, CancellationStarted)
    ensures var r := Resume(Step(s, Dispatch(run, starts)), intent, faults).state;
            run in r.rows && (r.rows[run] == Ended <==> !starts) && (r.rows[run] == Running <==> starts)
  {
    var after := Step(s, Dispatch(run, starts));
    assert Life(s, [Dispatch(run, starts)]) == Life(after, []) by {
      assert [Dispatch(run, starts)][1..] == [];
    }
    assert Life(after, []) == after;
    assert run in after.rows && (run in after.queued <==> !starts) && (starts ==> after.rows[run] == Running);
    hide Resume, Step, Life;
    BoundaryEndsTheQueued(s, [Dispatch(run, starts)], intent, faults);
  }

  /** A run that is started and finishes by itself, before its job is drained, has its row ended. */
  lemma StartedRunEnds(s: State, run: nat)
    requires s.definition && !s.frozen && run !in s.rows && run !in s.logs && !IsTombstoned(s)
    ensures var r := Step(Step(Step(s, Dispatch(run, true)), Settle(run)), Exit(run, None));
            && r.rows == s.rows[run := Ended] && r.logs == s.logs + {run}
            && r.active == s.active - {run} && r.settling == s.settling - {run}
  {
    var started := Step(s, Dispatch(run, true));
    var settled := Step(started, Settle(run));
    assert started.rows == s.rows[run := Running] && started.active == s.active + {run};
    assert settled == started.(settling := s.settling + {run});
  }

  /**
    When the drain is over no row is pending or running if and only if every open row was that of a settling run, or of
    a queued one at the boundary: a run that was still going when the drain began keeps its row running, and so does a
    row left over from an earlier process.
   */
  lemma NoRowIsOpenIff(start: State, events: seq<Event>, intent: Intent, faults: seq<Fault>)
    requires Inv(start) && Life(start, events).journal.Some? && DrainIsOver(Resume(Life(start, events), intent, faults))
    ensures var s, r := Life(start, events), Resume(Life(start, events), intent, faults).state;
            ((forall run :: run in r.rows ==> r.rows[run] == Ended)
             <==> (forall run :: run in s.rows && s.rows[run] != Ended ==>
                     run in s.settling || (IsPreCancellation(s.journal.value.stage) && run in s.queued)))
  {
    AttemptRows(start, events, intent, faults);
    hide Resume, Life, DrainIsOver;
  }

  const BUSY_DELETION := State(true, map[1 := Running, 2 := Pending], {1, 2}, {}, Some(Journal(Prepared, {})), true, false, {2}, {1}, {})

  /** A run that is cancelled by the drain is still recorded as running when the rows are about to go. */
  lemma DrainLeavesARowRunning()
    ensures Inv(BUSY_DELETION)
    ensures var o := Resume(BUSY_DELETION, Foreground, [Goes, Goes, Goes, Goes, Goes, Goes, Fails]);
            DrainIsOver(o) && o.state.rows == map[1 := Running, 2 := Ended]
  {
    var faults := [Goes, Goes, Goes, Goes, Goes, Goes, Fails];
    assert Rest(faults) == [Goes, Goes, Goes, Goes, Goes, Fails] && Rest(Rest(faults)) == [Goes, Goes, Goes, Goes, Fails];
    assert Rest(Rest(Rest(faults))) == [Goes, Goes, Goes, Fails] && Rest(Rest(Rest(Rest(faults)))) == [Goes, Goes, Fails];
    assert Rest([Goes, Goes, Fails]) == [Goes, Fails] && Rest([Goes, Fails]) == [Fails];
  }

  /** After a start-up a row is open if and only if it was, and was not looked at or is kept for the rollback of a deletion. */
  lemma StartUpLeavesOpenIff(s: State, kept: bool, listed: set<nat>, run: nat)
    requires Inv(s) && s.definition && run in s.rows
    ensures var r := Step(Crash(s), ArmAll(kept, listed));
            && r.rows.Keys == s.rows.Keys && r.armed
            && (r.rows[run] != s.rows[run] ==> r.rows[run] == Ended)
            && (r.rows[run] != Ended <==> s.rows[run] != Ended && (run !in listed || (kept && s.rows[run] == Pending)))
  {
    hide Inv;
  }

  /** An ended row is opened again by exactly one step: its run is still queued and is handed the slot of a run that finishes. */
  lemma EndedStaysIff(s: State, event: Event, run: nat)
    requires Inv(s) && run in s.rows && s.rows[run] == Ended && run in Step(s, event).rows
    ensures Step(s, event).rows[run] != Ended
       <==> event.Exit? && event.run in s.settling && event.next == Some(run) && run in s.queued
  {
    if event.Attempt? && s.journal.Some? {
      AttemptOutcome(s, event.intent, event.faults);
      ResumeRows(s, event.intent, event.faults);
    }
    hide Resume;
  }

  lemma RowsComeBackNever(s: State, event: Event, run: nat)
    requires Inv(s) && run !in s.rows && !s.definition
    ensures run !in Step(s, event).rows && !Step(s, event).definition
  {
    StepKeepsInv(s, event);
    if event.Attempt? && s.journal.Some? {
      AttemptOutcome(s, event.intent, event.faults);
      StageNeverRegresses(s, event.intent, event.faults);
    }
    hide Resume;
  }

  lemma RowsGoWithTheDefinition(s: State, event: Event, run: nat)
    requires Inv(s) && run in s.rows && run !in Step(s, event).rows
    ensures !Step(s, event).definition
  {
    if event.Attempt? && s.journal.Some? {
      AttemptOutcome(s, event.intent, event.faults);
      ResumeRows(s, event.intent, event.faults);
    }
    hide Resume;
  }

  /** So a run that was cancelled stays cancelled in every later state, unless it is handed a slot. */
  lemma {:induction false} CancelledStays(s: State, events: seq<Event>, run: nat)
    requires Inv(s) && (run in s.rows ==> s.rows[run] == Ended) && (run !in s.rows ==> !s.definition)
    requires forall e :: e in events && e.Exit? ==> e.next != Some(run)
    ensures run in Life(s, events).rows ==> Life(s, events).rows[run] == Ended
    decreases |events|
  {
    hide Step, Inv;
    if events != [] {
      var e, r := events[0], Step(s, events[0]);
      assert e in events;
      StepKeepsInv(s, e);
      if run !in s.rows {
        RowsComeBackNever(s, e, run);
      } else if run !in r.rows {
        RowsGoWithTheDefinition(s, e, run);
      } else {
        EndedStaysIff(s, e, run);
      }
      CancelledStays(r, events[1..], run);
    }
  }

  /**
    The write of the drain stage fails behind the boundary and the process lives on; the active run finishes and hands
    its slot to a run that has just been cancelled, which starts.
   */
  lemma CancelledRunStarts()
    ensures Inv(BUSY_DELETION)
    ensures var cancelled := Life(BUSY_DELETION, [Attempt(Foreground, [Goes, Goes, Goes, Goes, Fails])]);
            IsAt(cancelled, CancellationStarted) && cancelled.rows == map[1 := Running, 2 := Ended]
    ensures var s := Life(BUSY_DELETION, [Attempt(Foreground, [Goes, Goes, Goes, Goes, Fails]), Settle(1), Exit(1, Some(2))]);
            IsAt(s, CancellationStarted) && s.rows == map[1 := Ended, 2 := Running] && s.active == {2}
  {
    var first := Attempt(Foreground, [Goes, Goes, Goes, Goes, Fails]);
    var s1 := Step(BUSY_DELETION, first);
    StopsBehindTheBoundary();
    hide Resume;
    var s2 := Step(s1, Settle(1));
    var s3 := Step(s2, Exit(1, Some(2)));
    assert s3.rows == map[1 := Ended, 2 := Running];
    var events := [first, Settle(1), Exit(1, Some(2))];
    assert [first][1..] == [] && events[1..] == [Settle(1), Exit(1, Some(2))] && events[1..][1..] == [Exit(1, Some(2))];
    assert events[1..][1..][1..] == [];
    assert Life(BUSY_DELETION, [first]) == Life(s1, []);
    assert Life(BUSY_DELETION, events) == Life(s1, events[1..]) == Life(s2, events[1..][1..]) == Life(s3, []);
  }

  lemma StopsBehindTheBoundary()
    ensures var r := Resume(BUSY_DELETION, Foreground, [Goes, Goes, Goes, Goes, Fails]).state;
            && IsAt(r, CancellationStarted) && r.rows == map[1 := Running, 2 := Ended]
            && r.queued == {2} && r.active == {1} && r.settling == {}
  {
    var faults := [Goes, Goes, Goes, Goes, Fails];
    assert Rest(faults) == [Goes, Goes, Goes, Fails] && Rest(Rest(faults)) == [Goes, Goes, Fails];
    assert Rest(Rest(Rest(faults))) == [Goes, Fails] && Rest([Goes, Fails]) == [Fails];
  }

  // ------------------------------------------------------------------- progress

  function Rank(stage: Stage): nat {
    match stage
    case Prepared => 0
    case DispatchFrozen => 1
    case SchedulerUnregistered => 2
    case RollbackRequired => 3
    case CancellationStarted => 4
    case RunsDraining => 5
    case RowsDeleted => 6
    case LogsCleaning => 7
    case Completed => 8
  }

  lemma {:induction false} CleaningAdvances(s: State, runs: set<nat>, faults: seq<Fault>)
    requires s.journal.Some?
    ensures var r := CleanLogs(s, runs, faults).state;
            r.journal.Some? ==> r.journal.value.stage == s.journal.value.stage || r.journal.value.stage == Completed
    decreases |runs|
  {
    if runs != {} {
      var run := Least(runs);
      CleaningAdvances(s.(logs := s.logs - {run}, tickets := s.tickets - {run}), runs - {run}, Rest(Rest(faults)));
    }
  }

  lemma RowsAdvance(s: State, faults: seq<Fault>)
    requires s.journal.Some?
    ensures var r := FromRows(s, faults).state;
            r.journal.Some? ==> r.journal.value.stage in {s.journal.value.stage, LogsCleaning, Completed}
  {
    CleaningAdvances(SetStage(s, LogsCleaning), s.journal.value.runIds, Rest(faults));
    hide CleanLogs;
  }

  lemma DrainingAdvances(s: State, faults: seq<Fault>)
    requires s.journal.Some? && s.journal.value.stage == RunsDraining
    ensures var r := FromDraining(s, faults).state;
            r.journal.Some? ==> Rank(r.journal.value.stage) >= 5
  {
    RowsAdvance(RowsCommitted(s), Rest(faults));
    hide FromRows;
  }

  lemma CancellationAdvances(s: State, faults: seq<Fault>)
    requires s.journal.Some? && Rank(s.journal.value.stage) <= 5
    ensures var r := FromCancellation(s, faults).state;
            r.journal.Some? ==> r.journal.value.stage == s.journal.value.stage || Rank(r.journal.value.stage) >= 5
  {
    hide FromDraining, Cancelled;
    DrainingAdvances(Drained(s), Rest(Rest(faults)));
  }

  lemma UndoAdvances(s: State, faults: seq<Fault>)
    requires s.journal.Some?
    ensures var r := RollbackPreCancellation(s, faults).state;
            r.journal.Some? ==> r.journal.value.stage in {s.journal.value.stage, RollbackRequired}
    ensures RollbackPreCancellation(s, faults).result != Done
  {
  }

  lemma UnregisteredAdvances(s: State, faults: seq<Fault>)
    requires s.journal.Some? && Rank(s.journal.value.stage) <= 2
    ensures var r := FromUnregistered(s, faults).state;
            r.journal.Some? ==> Rank(r.journal.value.stage) >= Rank(s.journal.value.stage)
  {
    UndoAdvances(s, Rest(faults));
    hide FromCancellation, RollbackPreCancellation, Cancelled;
    CancellationAdvances(SetStage(s.(rows := Cancelled(s.rows, s.queued)), CancellationStarted), Rest(faults));
  }

  /** The persisted stage never goes back. */
  lemma StageNeverRegresses(s: State, intent: Intent, faults: seq<Fault>)
    requires s.journal.Some?
    ensures var r := Resume(s, intent, faults).state;
            r.journal.Some? ==> Rank(r.journal.value.stage) >= Rank(s.journal.value.stage)
  {
    var frozen := s.(frozen := true);
    hide FromUnregistered, FromCancellation, FromRows;
    match s.journal.value.stage
    case Prepared =>
      UnregisteredAdvances(SetStage(frozen.(armed := false), SchedulerUnregistered), Rest(Rest(Rest(faults))));
    case DispatchFrozen =>
      UnregisteredAdvances(SetStage(frozen.(armed := false), SchedulerUnregistered), Rest(Rest(faults)));
    case SchedulerUnregistered => UnregisteredAdvances(frozen, faults);
    case CancellationStarted => CancellationAdvances(frozen, faults);
    case RunsDraining => CancellationAdvances(frozen, faults);
    case RowsDeleted => RowsAdvance(frozen, faults);
    case LogsCleaning => RowsAdvance(frozen, faults);
    case _ =>
  }

  // ------------------------------------------------------------- success without failures

  lemma {:induction false} CleaningSucceeds(s: State, runs: set<nat>)
    requires s.journal.Some?
    ensures CleanLogs(s, runs, []).result == Done && CleanLogs(s, runs, []).state.armed == s.armed
    decreases |runs|
  {
    if runs != {} {
      var run := Least(runs);
      CleaningSucceeds(s.(logs := s.logs - {run}, tickets := s.tickets - {run}), runs - {run});
    }
  }

  lemma CancellationSucceeds(s: State)
    requires s.journal.Some?
    ensures FromCancellation(s, []).result == Done
  {
    var rows := RowsCommitted(Drained(s));
    CleaningSucceeds(SetStage(rows, LogsCleaning), rows.journal.value.runIds);
  }

  /** A resume that meets no failure always reports success. */
  lemma FaultlessResumeSucceeds(s: State, intent: Intent)
    requires Inv(s) && s.journal.Some?
    ensures Resume(s, intent, []).result == Done
    ensures Removed(Resume(s, intent, []).state)
       <==> IsIrreversible(s.journal.value.stage) || (intent.Foreground? && !s.journal.value.stage.RollbackRequired?)
  {
    var frozen := s.(frozen := true);
    var unregistered := SetStage(frozen.(armed := false), SchedulerUnregistered);
    CancellationSucceeds(SetStage(unregistered.(rows := Cancelled(s.rows, s.queued)), CancellationStarted));
    CancellationSucceeds(SetStage(frozen.(rows := Cancelled(s.rows, s.queued)), CancellationStarted));
    CancellationSucceeds(frozen);
    CleaningSucceeds(SetStage(frozen, LogsCleaning), s.journal.value.runIds);
    hide FromCancellation, CleanLogs;
    AttemptOutcome(s, intent, []);
  }

  // ------------------------------------------------------------- the trigger of a removed job

  lemma {:induction false} CleaningKeepsTrigger(s: State, runs: set<nat>, faults: seq<Fault>)
    requires s.journal.Some?
    ensures CleanLogs(s, runs, faults).result == Done ==> CleanLogs(s, runs, faults).state.armed == s.armed
    decreases |runs|
  {
    if runs != {} {
      var run := Least(runs);
      CleaningKeepsTrigger(s.(logs := s.logs - {run}, tickets := s.tickets - {run}), runs - {run}, Rest(Rest(faults)));
    }
  }

  lemma CancellationKeepsTrigger(s: State, faults: seq<Fault>)
    requires s.journal.Some?
    ensures FromCancellation(s, faults).result == Done ==> FromCancellation(s, faults).state.armed == s.armed
  {
    var rows := RowsCommitted(Drained(s));
    CleaningKeepsTrigger(SetStage(rows, LogsCleaning), rows.journal.value.runIds, Rest(Rest(Rest(Rest(faults)))));
    hide CleanLogs;
  }

  /**
    A resume takes the trigger out only on its way through `DispatchFrozen`.  A removal finished from a later
    stage leaves the schedule as it finds it.
   */
  lemma TriggerOfRemovedJob(s: State, intent: Intent, faults: seq<Fault>)
    requires Inv(s) && s.journal.Some? && Removed(Resume(s, intent, faults).state)
    ensures Resume(s, intent, faults).state.armed
       <==> s.armed && !s.journal.value.stage.Prepared? && !s.journal.value.stage.DispatchFrozen?
  {
    var frozen := s.(frozen := true);
    RemovedMeansDone(s, intent, faults);
    hide Inv, FromCancellation, FromFrozen, FromUnregistered, CleanLogs;
    match s.journal.value.stage
    case Prepared => FrozenDropsTrigger(SetStage(frozen, DispatchFrozen), Rest(faults));
    case DispatchFrozen => FrozenDropsTrigger(frozen, faults);
    case SchedulerUnregistered => UnregisteredKeepsTrigger(frozen, faults);
    case CancellationStarted => CancellationKeepsTrigger(frozen, faults);
    case RunsDraining => CancellationKeepsTrigger(frozen, faults);
    case RowsDeleted => CleaningKeepsTrigger(SetStage(frozen, LogsCleaning), s.journal.value.runIds, Rest(faults));
    case LogsCleaning => CleaningKeepsTrigger(SetStage(frozen, LogsCleaning), s.journal.value.runIds, Rest(faults));
    case _ =>
  }

  lemma RemovedMeansDone(s: State, intent: Intent, faults: seq<Fault>)
    requires Inv(s) && s.journal.Some? && Removed(Resume(s, intent, faults).state)
    ensures Resume(s, intent, faults).result == Done
    ensures !s.journal.value.stage.RollbackRequired? && (intent.Foreground? || IsIrreversible(s.journal.value.stage))
  {
    AttemptOutcome(s, intent, faults);
    StagesAreSplit(s.journal.value.stage);
    InvKeepsDefinition(s);
    hide Inv, Resume;
  }

  lemma StagesAreSplit(stage: Stage)
    ensures IsIrreversible(stage) <==> !IsPreCancellation(stage)
  {
  }

  lemma InvKeepsDefinition(s: State)
    requires Inv(s) && s.journal.Some?
    ensures IsPreCancellation(s.journal.value.stage) ==> s.definition
  {
  }

  lemma UnregisteredKeepsTrigger(s: State, faults: seq<Fault>)
    requires s.journal.Some?
    ensures FromUnregistered(s, faults).result == Done ==> FromUnregistered(s, faults).state.armed == s.armed
  {
    UndoAdvances(s, Rest(faults));
    CancellationKeepsTrigger(SetStage(s.(rows := Cancelled(s.rows, s.queued)), CancellationStarted), Rest(faults));
    hide FromCancellation, RollbackPreCancellation;
  }

  lemma FrozenDropsTrigger(s: State, faults: seq<Fault>)
    requires s.journal.Some?
    ensures FromFrozen(s, faults).result == Done ==> !FromFrozen(s, faults).state.armed
  {
    UndoAdvances(s, Rest(faults));
    UnregisteredKeepsTrigger(SetStage(s.(armed := false), SchedulerUnregistered), Rest(Rest(faults)));
    hide FromUnregistered, RollbackPreCancellation;
  }

  const FRESH_DELETION := State(true, map[], {}, {}, Some(Journal(Prepared, {})), true, false, {}, {}, {})

  /**
    Death after the boundary, a recovery at start-up that fails, start-up arming the job table, then a recovery that
    succeeds: the trigger outlives the job.
   */
  lemma StartUpLeavesAStaleTrigger()
    ensures Inv(FRESH_DELETION)
    ensures var events := [Attempt(Foreground, [Goes, Goes, Goes, Goes, Dies]), Attempt(Recovery, [Fails]), ArmAll(false, {}),
                           Attempt(Recovery, [])];
            var end := Life(FRESH_DELETION, events);
            Removed(end) && end.armed
  {
    var first, failed, arm, last := Attempt(Foreground, [Goes, Goes, Goes, Goes, Dies]), Attempt(Recovery, [Fails]), ArmAll(false, {}),
      Attempt(Recovery, []);
    var s0 := FRESH_DELETION;
    var s1 := Step(s0, first);
    DiesAfterTheBoundary(s0);
    var s2 := Step(s1, failed);
    assert s2 == s1.(frozen := true);
    var s3 := Step(s2, arm);
    assert s3.journal.Some? && s3.journal.value.stage == CancellationStarted && s3.armed;
    StepKeepsInv(s0, first);
    StepKeepsInv(s1, failed);
    StepKeepsInv(s2, arm);
    FaultlessResumeSucceeds(s3, Recovery);
    TriggerOfRemovedJob(s3, Recovery, []);
    var events := [first, failed, arm, last];
    assert events[1..] == [failed, arm, last] && events[1..][1..] == [arm, last] && events[1..][1..][1..] == [last];
    assert events[1..][1..][1..][1..] == [];
    hide Resume, Inv, LeftOver;
    assert Life(s0, events) == Life(s1, events[1..]) == Life(s2, events[1..][1..]) == Life(s3, events[1..][1..][1..]);
    assert Life(s3, events[1..][1..][1..]) == Resume(s3, Recovery, []).state;
  }

  lemma DiesAfterTheBoundary(s: State)
    requires s == FRESH_DELETION
    ensures var r := Resume(s, Foreground, [Goes, Goes, Goes, Goes, Dies]).state;
            r.journal == Some(Journal(CancellationStarted, {})) && r.definition && !r.armed
  {
    var faults := [Goes, Goes, Goes, Goes, Dies];
    assert Rest(faults) == [Goes, Goes, Goes, Dies] && Rest(Rest(faults)) == [Goes, Goes, Dies];
    assert Rest(Rest(Rest(faults))) == [Goes, Dies] && Rest(Rest(Rest(Rest(faults)))) == [Dies];
  }
}
