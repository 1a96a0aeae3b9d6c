/**
  What the registry keeps when checks and registrations interleave: exactly when a late
  registration strands a run, and exactly how long a drain holds.
 */
module RunRaces {
  import opened Options
  import opened RunRegistry

  /**
    Checking the freeze and counting the active runs, and registering the run they admit, take the lock separately.
    `Admits` is a registration whose check and count were made earlier, whatever has happened since.
   */
  datatype RacyEvent = Atomic(event: Event) | Admits(job: nat, queued: bool)

  function RacyStep(s: Registry, event: RacyEvent): Registry {
    match event
    case Atomic(e) => Step(s, e)
    case Admits(job, queued) => if queued then Enqueue(Register(s, job, Queued), job, s.born) else Register(s, job, Starting)
  }

  predicate MayHappen(s: Registry, event: RacyEvent) {
    event.Atomic? ==> IsPossible(s, event.event)
  }

  function RacyLife(s: Registry, events: seq<RacyEvent>): Registry
    decreases |events|
  {
    if events == [] then s else RacyLife(RacyStep(s, events[0]), events[1..])
  }

  predicate AllMayHappen(s: Registry, events: seq<RacyEvent>)
    decreases |events|
  {
    events == [] || (MayHappen(s, events[0]) && AllMayHappen(RacyStep(s, events[0]), events[1..]))
  }

  /** A history grows at its end: the next event happens in the state the others have led to, and must be possible there. */
  lemma {:induction false} RacyLifeSnoc(s: Registry, events: seq<RacyEvent>, event: RacyEvent)
    ensures RacyLife(s, events + [event]) == RacyStep(RacyLife(s, events), event)
    ensures AllMayHappen(s, events + [event]) <==> AllMayHappen(s, events) && MayHappen(RacyLife(s, events), event)
    decreases |events|
  {
    if events == [] {
      assert [] + [event] == [event] && [event][1..] == [];
    } else {
      assert (events + [event])[1..] == events[1..] + [event];
      RacyLifeSnoc(RacyStep(s, events[0]), events[1..], event);
    }
  }

  lemma SameButFrozen(s: Registry, job: nat)
    ensures var thawed := s.(frozen := s.frozen - {job});
            && (HasActive(thawed, job) <==> HasActive(s, job))
            && Enqueue(Register(thawed, job, Queued), job, s.born).(frozen := s.frozen) == Enqueue(Register(s, job, Queued), job, s.born)
            && Register(thawed, job, Starting).(frozen := s.frozen) == Register(s, job, Starting)
  {
    assert RunsOf(s.(frozen := s.frozen - {job}), job) == RunsOf(s, job);
  }

  lemma AdmittingWithSlotKeepsValid(s: Registry, job: nat, queued: bool)
    requires Valid(s) && (queued ==> HasActive(s, job))
    ensures Valid(RacyStep(s, Admits(job, queued)))
  {
    var thawed := s.(frozen := s.frozen - {job});
    FreezeKeepsValid(s, thawed);
    SameButFrozen(s, job);
    var policy := if queued then Queue else Parallel;
    DispatchKeepsValid(thawed, job, policy);
    var r := Dispatch(thawed, job, policy);
    hide Valid, HasActive, Register, Enqueue;
    FreezeKeepsValid(r, r.(frozen := s.frozen));
  }

  lemma StrandedRun(s: Registry, job: nat)
    requires Valid(s) && !HasActive(s, job)
    ensures var late := RacyStep(s, Admits(job, true)); s.born in QueueOf(late, job) && !HasActive(late, job)
  {
    var late := RacyStep(s, Admits(job, true));
    assert QueueOf(late, job) == QueueOf(s, job) + [s.born];
    assert RunsOf(late, job) == RunsOf(s, job) + {s.born};
    hide QueuesMatch, QueuesMove, CleanupsAreOver;
  }

  /** A late registration keeps the registry valid exactly when it starts its run or some active run still holds a slot; otherwise the run is stranded. */
  lemma LateAdmissionIsValidIff(s: Registry, job: nat, queued: bool)
    requires Valid(s)
    ensures Valid(RacyStep(s, Admits(job, queued))) <==> !queued || HasActive(s, job)
  {
    if !queued || HasActive(s, job) {
      AdmittingWithSlotKeepsValid(s, job, queued);
    } else {
      StrandedRun(s, job);
    }
  }

  /** What even the races keep: links, queues and clean-ups. */
  ghost predicate Sound(s: Registry) {
    Linked(s) && QueuesMatch(s) && CleanupsAreOver(s)
  }

  lemma UnlinkKeepsSound(s: Registry, run: nat)
    requires Sound(s) && run in s.runs && s.runs[run].phase != Queued
    ensures Sound(Unlink(s, run)) && forall j :: QueueOf(Unlink(s, run), j) == QueueOf(s, j)
  {
    var r := Unlink(s, run);
    UnlinkKeepsLinks(s, run);
    CleanupsStay(s, r);
    hide Linked, CleanupsAreOver;
    forall j ensures QueueOf(r, j) == QueueOf(s, j) && Ascending(QueueOf(r, j)) {
      assert Ascending(QueueOf(s, j));
    }
    forall j, other ensures other in QueueOf(r, j) <==> other in r.runs && r.runs[other] == Record(j, Queued) {
      assert other in QueueOf(s, j) <==> other in s.runs && s.runs[other] == Record(j, Queued);
    }
  }

  lemma PromoteKeepsSound(s: Registry, job: nat)
    requires Sound(s)
    ensures Sound(Promote(s, job))
  {
    if QueueOf(s, job) != [] {
      var r := Promote(s, job);
      PromoteShape(s, job);
      hide Promote, Linked, QueuesMatch, CleanupsAreOver;
      RephasingKeepsLinks(s, r);
      CleanupsStay(s, r);
      PromoteKeepsQueues(s, job);
    }
  }

  lemma OwingKeepsSound(s: Registry, job: nat, run: nat)
    requires Sound(s) && run !in s.runs && run < s.born
    ensures var owing := s.(cleanupByJob := s.cleanupByJob[job := CleanupOf(s, job) + {run}]);
            Sound(owing) && forall j :: QueueOf(owing, j) == QueueOf(s, j)
  {
    var owing := s.(cleanupByJob := s.cleanupByJob[job := CleanupOf(s, job) + {run}]);
    forall j ensures OwesOnlyOver(owing, CleanupOf(owing, j)) {
      assert OwesOnlyOver(s, CleanupOf(s, j));
    }
    hide QueuesMatch, Linked;
    RephasingKeepsLinks(s, owing);
    RephasedKeepsQueues(s, owing);
  }

  lemma FinishKeepsSound(s: Registry, run: nat)
    requires Sound(s) && IsPossible(s, Finishes(run))
    ensures Sound(Finish(s, run)) && Sound(FinishUnreaped(s, run))
  {
    if run in s.runs {
      var job, rest := s.runs[run].job, Unlink(s, run);
      assert run < s.born && run !in rest.runs && rest.born == s.born && rest.cleanupByJob == s.cleanupByJob;
      UnlinkKeepsSound(s, run);
      hide Sound, HasActive, Unlink;
      PromoteKeepsSound(rest, job);
      OwingKeepsSound(rest, job, run);
      PromoteKeepsSound(rest.(cleanupByJob := s.cleanupByJob[job := CleanupOf(s, job) + {run}]), job);
    }
  }

  lemma CancelKeepsSound(s: Registry, job: nat, run: nat)
    requires Sound(s)
    ensures Sound(CancelOwned(s, job, run))
  {
    if CancelOutcome(s, job, run) == WasQueued {
      var r := CancelOwned(s, job, run);
      UnlinkKeepsLinks(s, run);
      CancelKeepsQueues(s, job, run);
      CleanupsStay(s, r);
      assert forall j :: RunsOf(r, j) == RunsOf(Unlink(s, run), j);
      hide QueuesMatch, CleanupsAreOver, Without;
      assert Linked(r);
    }
  }

  lemma DispatchKeepsSound(s: Registry, job: nat, policy: OverlapPolicy)
    requires Sound(s)
    ensures Sound(Dispatch(s, job, policy))
  {
    if job !in s.frozen {
      hide Dispatch, Linked, QueuesMatch, CleanupsAreOver;
      DispatchKeepsLinks(s, job, policy);
      DispatchKeepsCleanups(s, job, policy);
      DispatchKeepsQueues(s, job, policy);
    }
  }

  lemma RephasedKeepsSound(s: Registry, r: Registry)
    requires Sound(s) && Rephased(s, r) && r.cleanupByJob == s.cleanupByJob && r.born == s.born
    ensures Sound(r)
  {
    RephasingKeepsLinks(s, r);
    RephasedKeepsQueues(s, r);
    CleanupsStay(s, r);
    hide Linked, QueuesMatch, CleanupsAreOver;
  }

  lemma CleanKeepsSound(s: Registry, job: nat, run: nat)
    requires Sound(s)
    ensures Sound(FinishCleanup(s, job, run))
  {
    var r := FinishCleanup(s, job, run);
    CleanShrinks(s, job, run);
    RephasingKeepsLinks(s, r);
    RephasedKeepsQueues(s, r);
    hide Linked, QueuesMatch, CleanupsAreOver;
  }

  lemma AdmitKeepsQueues(s: Registry, job: nat, queued: bool)
    requires Linked(s) && QueuesMatch(s)
    ensures QueuesMatch(RacyStep(s, Admits(job, queued)))
  {
    var r := RacyStep(s, Admits(job, queued));
    assert s.born !in s.runs;
    forall i | 0 <= i < |QueueOf(s, job)| ensures QueueOf(s, job)[i] < s.born {
      assert QueueOf(s, job)[i] in QueueOf(s, job);
      assert QueueOf(s, job)[i] in s.runs;
    }
    hide Linked;
    forall j ensures Ascending(QueueOf(r, j)) {
      assert Ascending(QueueOf(s, j));
    }
    forall j, run ensures run in QueueOf(r, j) <==> run in r.runs && r.runs[run] == Record(j, Queued) {
      assert run in QueueOf(s, j) <==> run in s.runs && s.runs[run] == Record(j, Queued);
    }
  }

  lemma AdmitKeepsSound(s: Registry, job: nat, queued: bool)
    requires Sound(s)
    ensures Sound(RacyStep(s, Admits(job, queued)))
  {
    var r := RacyStep(s, Admits(job, queued));
    var registered := Register(s, job, if queued then Queued else Starting);
    RegisterKeepsLinks(s, job, if queued then Queued else Starting);
    AdmitKeepsQueues(s, job, queued);
    CleanupsStay(s, r);
    hide Linked, QueuesMatch, CleanupsAreOver;
    RephasingKeepsLinks(registered, r);
  }

  lemma DrainKeepsSound(s: Registry, job: nat, tombstone: bool)
    requires Sound(s)
    ensures Sound(BeginDrain(s, job, tombstone))
  {
    DrainKeepsLinks(s, job, tombstone);
    DrainKeepsQueues(s, job, tombstone);
    CleanupsStay(s, BeginDrain(s, job, tombstone));
    hide Linked, QueuesMatch, CleanupsAreOver;
  }

  lemma PublishKeepsSound(s: Registry, run: nat)
    requires Sound(s) && IsPossible(s, Publishes(run))
    ensures Sound(PublishChild(s, run))
  {
    PublishRephases(s, run);
    hide Sound;
    RephasedKeepsSound(s, PublishChild(s, run));
  }

  /** Every operation, late registrations included, keeps links, queues and clean-ups exact. */
  lemma RacyStepKeepsSound(s: Registry, event: RacyEvent)
    requires Sound(s) && MayHappen(s, event)
    ensures Sound(RacyStep(s, event)) && s.born <= RacyStep(s, event).born
  {
    hide Sound, HasActive;
    match event
    case Admits(job, queued) => AdmitKeepsSound(s, job, queued);
    case Atomic(e) =>
      match e
      case Dispatches(job, policy) => DispatchKeepsSound(s, job, policy);
      case Publishes(run) => PublishKeepsSound(s, run);
      case Cancels(job, run) => CancelKeepsSound(s, job, run);
      case Drains(job, tombstone) => DrainKeepsSound(s, job, tombstone);
      case Finishes(run) => FinishKeepsSound(s, run);
      case FinishesUnreaped(run) => FinishKeepsSound(s, run);
      case Cleans(job, run) => CleanKeepsSound(s, job, run);
      case Freezes(job) => RephasedKeepsSound(s, Step(s, e));
      case Thaws(job) => RephasedKeepsSound(s, Step(s, e));
  }

  // ------------------------------------------------------------------- behind a drain

  /** Of the tombstoned job only these former runs are left, nothing waits, and none of them may report. */
  ghost predicate OnlyFormer(s: Registry, job: nat, former: set<nat>) {
    && job in s.tombstoned && RunsOf(s, job) <= former && QueueOf(s, job) == []
    && forall run :: run in RunsOf(s, job) && run in s.runs ==> s.runs[run].phase == Tombstoned
  }

  /** The step gives the job a new run: a dispatch that is not skipped, or a late registration. */
  predicate RegistersFor(s: Registry, event: RacyEvent, job: nat) {
    match event
    case Admits(j, _) => j == job
    case Atomic(Dispatches(j, policy)) => j == job && job !in s.frozen && !(HasActive(s, job) && policy.Skip?)
    case Atomic(_) => false
  }

  lemma RegisteringAddsRun(s: Registry, event: RacyEvent, job: nat)
    requires RegistersFor(s, event, job)
    ensures s.born in RunsOf(RacyStep(s, event), job)
  {
    hide HasActive;
  }

  lemma FinishKeepsFormer(s: Registry, run: nat, job: nat, former: set<nat>)
    requires Sound(s) && IsPossible(s, Finishes(run)) && OnlyFormer(s, job, former)
    ensures OnlyFormer(Finish(s, run), job, former) && OnlyFormer(FinishUnreaped(s, run), job, former)
  {
    if run in s.runs {
      var j, rest := s.runs[run].job, Unlink(s, run);
      var owing := rest.(cleanupByJob := s.cleanupByJob[j := CleanupOf(s, j) + {run}]);
      assert run < s.born && run !in rest.runs && rest.born == s.born && rest.cleanupByJob == s.cleanupByJob;
      UnlinkKeepsLinks(s, run);
      UnlinkKeepsSound(s, run);
      OwingKeepsSound(rest, j, run);
      assert RunsOf(owing, job) == RunsOf(rest, job) <= RunsOf(s, job) && QueueOf(rest, job) == QueueOf(s, job) == QueueOf(owing, job);
      assert OnlyFormer(rest, job, former) && OnlyFormer(owing, job, former);
      hide OnlyFormer, Sound, HasActive, Unlink;
      PromoteKeepsFormer(rest, j, job, former);
      PromoteKeepsFormer(owing, j, job, former);
    }
  }

  lemma PromoteKeepsFormer(s: Registry, j: nat, job: nat, former: set<nat>)
    requires Sound(s) && OnlyFormer(s, job, former)
    ensures OnlyFormer(Promote(s, j), job, former)
  {
    if QueueOf(s, j) != [] {
      PromoteShape(s, j);
      assert RunsOf(Promote(s, j), job) == RunsOf(s, job);
      assert QueueOf(s, j)[0] in RunsOf(s, j);
      assert j != job;
      assert QueueOf(s, j)[0] in RunsOf(s, job) <==> s.runs[QueueOf(s, j)[0]].job == job;
      hide Promote, QueuesMatch, CleanupsAreOver, Linked;
    }
  }

  lemma CancelKeepsFormer(s: Registry, j: nat, run: nat, job: nat, former: set<nat>)
    requires Sound(s) && OnlyFormer(s, job, former)
    ensures OnlyFormer(CancelOwned(s, j, run), job, former)
  {
    if CancelOutcome(s, j, run) == WasQueued {
      UnlinkKeepsLinks(s, run);
      CancelShape(s, j, run);
      assert RunsOf(CancelOwned(s, j, run), job) == RunsOf(Unlink(s, run), job);
      hide Linked, QueuesMatch, CleanupsAreOver, Without;
    }
  }

  lemma DrainKeepsFormer(s: Registry, j: nat, tombstone: bool, job: nat, former: set<nat>)
    requires Sound(s) && OnlyFormer(s, job, former)
    ensures OnlyFormer(BeginDrain(s, j, tombstone), job, former)
  {
    DrainKeepsLinks(s, j, tombstone);
    hide Linked, QueuesMatch, CleanupsAreOver;
  }

  lemma DispatchKeepsFormer(s: Registry, j: nat, policy: OverlapPolicy, job: nat, former: set<nat>)
    requires Sound(s) && OnlyFormer(s, job, former) && !RegistersFor(s, Atomic(Dispatches(j, policy)), job)
    ensures OnlyFormer(Dispatch(s, j, policy), job, former)
  {
    var r := Dispatch(s, j, policy);
    assert s.born !in s.runs && s.born !in RunsOf(s, job);
    hide Linked, QueuesMatch, CleanupsAreOver;
    assert RunsOf(r, job) == RunsOf(s, job) && QueueOf(r, job) == QueueOf(s, job);
    hide HasActive;
  }

  lemma StepKeepsFormer(s: Registry, event: RacyEvent, job: nat, former: set<nat>)
    requires Sound(s) && MayHappen(s, event) && OnlyFormer(s, job, former) && !RegistersFor(s, event, job)
    ensures OnlyFormer(RacyStep(s, event), job, former)
  {
    match event
    case Admits(j, queued) =>
      assert s.born !in s.runs && s.born !in RunsOf(s, job);
      hide Sound;
    case Atomic(Dispatches(j, policy)) =>
      DispatchKeepsFormer(s, j, policy, job, former);
      hide *;
      StepIs(s, event.event);
    case Atomic(Finishes(run)) => FinishKeepsFormer(s, run, job, former);
    case Atomic(FinishesUnreaped(run)) => FinishKeepsFormer(s, run, job, former);
    case Atomic(Cancels(j, run)) => CancelKeepsFormer(s, j, run, job, former);
    case Atomic(Drains(j, tombstone)) => DrainKeepsFormer(s, j, tombstone, job, former);
    case Atomic(_) => hide Sound;
  }

  ghost predicate AlwaysOnlyFormer(s: Registry, events: seq<RacyEvent>, job: nat, former: set<nat>)
    decreases |events|
  {
    OnlyFormer(s, job, former) && (events == [] || AlwaysOnlyFormer(RacyStep(s, events[0]), events[1..], job, former))
  }

  predicate NeverRegistersFor(s: Registry, events: seq<RacyEvent>, job: nat)
    decreases |events|
  {
    events == [] || (!RegistersFor(s, events[0], job) && NeverRegistersFor(RacyStep(s, events[0]), events[1..], job))
  }

  lemma {:induction false} OnlyFormerIff(s: Registry, events: seq<RacyEvent>, job: nat, former: set<nat>)
    requires Sound(s) && AllMayHappen(s, events) && OnlyFormer(s, job, former) && forall run :: run in former ==> run < s.born
    ensures AlwaysOnlyFormer(s, events, job, former) <==> NeverRegistersFor(s, events, job)
    decreases |events|
  {
    hide Sound, RacyStep, RegistersFor;
    if events != [] {
      var next := RacyStep(s, events[0]);
      RacyStepKeepsSound(s, events[0]);
      if RegistersFor(s, events[0], job) {
        RegisteringAddsRun(s, events[0], job);
        assert !OnlyFormer(next, job, former);
      } else {
        StepKeepsFormer(s, events[0], job, former);
        OnlyFormerIff(next, events[1..], job, former);
      }
    }
  }

  lemma DrainLeavesFormer(s: Registry, job: nat)
    requires Sound(s)
    ensures var drained := BeginDrain(s, job, true);
            Sound(drained) && OnlyFormer(drained, job, ActiveRuns(s, job)) && forall run :: run in ActiveRuns(s, job) ==> run < drained.born
  {
    DrainKeepsSound(s, job, true);
    DrainKeepsLinks(s, job, true);
    hide QueuesMatch, CleanupsAreOver;
    assert RunsOf(s, job) - QueuedRuns(s, job) == ActiveRuns(s, job);
  }

  /**
    After a draining cut-off with a tombstone, frozen or not and whatever else happens: the job keeps only its former
    active runs for as long as nothing registers a run for it, and no longer.  A freeze leaves late registrations only.
   */
  lemma DrainHoldsIff(s: Registry, job: nat, events: seq<RacyEvent>)
    requires Sound(s) && AllMayHappen(BeginDrain(s, job, true), events)
    ensures AlwaysOnlyFormer(BeginDrain(s, job, true), events, job, ActiveRuns(s, job))
       <==> NeverRegistersFor(BeginDrain(s, job, true), events, job)
  {
    DrainLeavesFormer(s, job);
    hide Sound, OnlyFormer, BeginDrain, ActiveRuns;
    OnlyFormerIff(BeginDrain(s, job, true), events, job, ActiveRuns(s, job));
  }

  lemma FrozenStays(s: Registry, event: RacyEvent, job: nat)
    requires job in s.frozen && event != Atomic(Thaws(job))
    ensures job in RacyStep(s, event).frozen
  {
    hide HasActive;
  }

  /** While a job stays frozen only an admission that passed the freeze check before can register a run for it. */
  lemma {:induction false} FrozenRegistersIff(s: Registry, events: seq<RacyEvent>, job: nat)
    requires job in s.frozen && Atomic(Thaws(job)) !in events
    ensures NeverRegistersFor(s, events, job) <==> forall i :: 0 <= i < |events| ==> !(events[i].Admits? && events[i].job == job)
    decreases |events|
  {
    hide RacyStep;
    if events != [] {
      assert events[0] in events;
      FrozenStays(s, events[0], job);
      FrozenRegistersIff(RacyStep(s, events[0]), events[1..], job);
      assert forall i :: 0 < i < |events| ==> events[i] == events[1..][i - 1];
    }
  }

  /** A run registered late, like every other run of a tombstoned job, may never persist a terminal state. */
  lemma {:induction false} LateRunsNeverReport(s: Registry, events: seq<RacyEvent>, job: nat)
    requires job in s.tombstoned
    ensures var r := RacyLife(s, events);
            job in r.tombstoned && forall run :: run in r.runs && r.runs[run].job == job ==> !ShouldPersistTerminal(r, run)
    decreases |events|
  {
    if events != [] {
      assert job in RacyStep(s, events[0]).tombstoned by { hide HasActive; }
      hide RacyStep;
      LateRunsNeverReport(RacyStep(s, events[0]), events[1..], job);
    }
  }

  lemma StepIs(s: Registry, event: Event)
    ensures RacyStep(s, Atomic(event)) == Step(s, event)
    ensures event.Dispatches? ==> Step(s, event) == Dispatch(s, event.job, event.policy)
  {
    hide Dispatch, Finish, FinishUnreaped, CancelOwned, BeginDrain, FinishCleanup, PublishChild;
  }

  // ------------------------------------------------------------------- two short runs

  /** Counting and registering take the lock separately: a finish in between strands the queued run. */
  lemma StaleCountStrandsARun()
    ensures var s := Dispatch(EMPTY, 0, Queue);
            var finished := Finish(s, 0);
            var late := Enqueue(Register(finished, 0, Queued), 0, finished.born);
            && HasActive(s, 0)
            && QueueOf(late, 0) == [1] && !HasActive(late, 0) && !QueuesMove(late)
  {
    var s := Dispatch(EMPTY, 0, Queue);
    assert {} + {0} == {0};
    assert s == Register(EMPTY, 0, Starting) && s.runsByJob == map[0 := {0}] && s.runs == map[0 := Record(0, Starting)];
    assert 0 in RunsOf(s, 0);
    var finished := Finish(s, 0);
    assert {0} - {0} == {};
    assert finished.runs == map[] && finished.runsByJob == map[] && finished.queuedByJob == map[];
    var late := Enqueue(Register(finished, 0, Queued), 0, finished.born);
    assert late.runs == map[1 := Record(0, Queued)] && late.runsByJob == map[0 := {} + {1}];
    assert QueueOf(late, 0) == [] + [1];
  }

  /** Asking for the freeze and registering take the lock separately: a run admitted before the freeze appears behind the drain. */
  lemma LateAdmissionEscapesTheDrain()
    ensures var frozen := EMPTY.(frozen := {0});
            var drained := BeginDrain(frozen, 0, true);
            var late := Register(drained, 0, Starting);
            && 0 !in EMPTY.frozen && !HasRuns(drained, 0)
            && HasRuns(late, 0) && !ShouldPersistTerminal(late, 0)
  {
    var drained := BeginDrain(EMPTY.(frozen := {0}), 0, true);
    assert RunsOf(drained, 0) == {};
    assert 0 in RunsOf(Register(drained, 0, Starting), 0);
  }
}
