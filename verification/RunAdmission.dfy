/**
  What the registry's admission, its overlap policies and its tombstones are for, stated
  on the runs themselves and over whole lives.
 */
module RunAdmission {
  import opened Options
  import opened RunRegistry
  import opened RunRaces

  /** The run is one of the job and has been started, without a tombstone. */
  predicate HoldsSlot(s: Registry, job: nat, run: nat) {
    run in s.runs && (s.runs[run] == Record(job, Starting) || s.runs[run] == Record(job, Running))
  }

  ghost predicate IsBusy(s: Registry, job: nat) {
    exists run :: HoldsSlot(s, job, run)
  }

  lemma BusyIff(s: Registry, job: nat)
    requires Linked(s)
    ensures HasActive(s, job) <==> IsBusy(s, job)
  {
    hide RunsOf;
    if HasActive(s, job) {
      var run :| run in RunsOf(s, job) && run in s.runs && OccupiesSlot(s.runs[run].phase);
      assert HoldsSlot(s, job, run);
    }
    if run :| HoldsSlot(s, job, run) {
      assert run in RunsOf(s, job) && OccupiesSlot(s.runs[run].phase);
    }
  }

  /**
    What becomes of a dispatch: a frozen job, and a busy one that skips, takes no run; a busy one that queues takes it
    as the last to wait; in every other case the run starts.
   */
  lemma AdmissionIsExact(s: Registry, job: nat, policy: OverlapPolicy)
    requires Valid(s)
    ensures var r, waits := Step(s, Dispatches(job, policy)), IsBusy(s, job) && policy.Queue?;
            if job in s.frozen || (IsBusy(s, job) && policy.Skip?) then r == s
            else
              && r.runs == s.runs[s.born := Record(job, if waits then Queued else Starting)] && s.born !in s.runs
              && (forall j :: QueueOf(r, j) == if j == job && waits then QueueOf(s, j) + [s.born] else QueueOf(s, j))
  {
    BusyIff(s, job);
    hide HasActive, IsBusy, QueuesMatch, QueuesMove, CleanupsAreOver;
  }

  // ------------------------------------------------------------------- one run at a time

  /** At most one run of the job holds a slot, and none of its runs has a tombstone. */
  ghost predicate OneSlot(s: Registry, job: nat) {
    && (forall a, b :: HoldsSlot(s, job, a) && HoldsSlot(s, job, b) ==> a == b)
    && (forall run :: run in s.runs && s.runs[run].job == job ==> s.runs[run].phase != Tombstoned)
  }

  /** Nothing that admits a second run of the job beside a started one. */
  predicate IsSerial(event: Event, job: nat) {
    !(event.Dispatches? && event.job == job && event.policy.Parallel?) && event != Drains(job, true)
  }

  lemma DispatchKeepsOneSlot(s: Registry, j: nat, policy: OverlapPolicy, job: nat)
    requires Valid(s) && OneSlot(s, job) && (j == job ==> !policy.Parallel?)
    ensures OneSlot(Step(s, Dispatches(j, policy)), job)
  {
    AdmissionIsExact(s, j, policy);
    var r := Step(s, Dispatches(j, policy));
    hide Step, Valid;
    if r != s {
      forall run | HoldsSlot(r, job, run) ensures HoldsSlot(s, job, run) || (run == s.born && j == job && !IsBusy(s, job)) {
      }
    }
  }

  /** A slot that a run gives up is held by at most one other run afterwards. */
  lemma PromoteKeepsOneSlot(s: Registry, j: nat, job: nat)
    requires Linked(s) && QueuesMatch(s) && OneSlot(s, job) && (j == job ==> !IsBusy(s, job))
    ensures OneSlot(Promote(s, j), job)
  {
    if QueueOf(s, j) != [] {
      PromoteShape(s, j);
      hide Promote, Linked, QueuesMatch;
      var first, r := QueueOf(s, j)[0], Promote(s, j);
      forall run | HoldsSlot(r, job, run) ensures HoldsSlot(s, job, run) || (run == first && j == job) {
      }
    }
  }

  lemma UnlinkKeepsOneSlot(s: Registry, r: Registry, run: nat, job: nat)
    requires OneSlot(s, job) && run in s.runs && s.runs[run].phase != Queued && r.runs == s.runs - {run}
    ensures OneSlot(r, job) && (s.runs[run].job == job ==> !IsBusy(r, job))
  {
    if s.runs[run].job == job {
      assert HoldsSlot(s, job, run);
    }
    forall other | HoldsSlot(r, job, other) ensures HoldsSlot(s, job, other) && other != run {
    }
  }

  lemma FinishKeepsOneSlot(s: Registry, run: nat, job: nat)
    requires Valid(s) && OneSlot(s, job) && run in s.runs && s.runs[run].phase != Queued
    ensures OneSlot(Finish(s, run), job) && OneSlot(FinishUnreaped(s, run), job)
  {
    var j, rest := s.runs[run].job, Unlink(s, run);
    var owing := rest.(cleanupByJob := s.cleanupByJob[j := CleanupOf(s, j) + {run}]);
    UnlinkKeepsRest(s, run);
    UnlinkKeepsOneSlot(s, rest, run, job);
    OwingIsLinked(rest, owing);
    OneSlotDependsOn(rest, owing, job);
    PromoteKeepsOneSlot(owing, j, job);
    if !HasActive(rest, j) {
      PromoteKeepsOneSlot(rest, j, job);
    }
    hide Promote, Unlink, OneSlot, HasActive, Valid;
  }

  lemma OwingIsLinked(s: Registry, r: Registry)
    requires Linked(s) && QueuesMatch(s) && r == s.(cleanupByJob := r.cleanupByJob)
    ensures Linked(r) && QueuesMatch(r)
  {
    assert forall j :: RunsOf(r, j) == RunsOf(s, j) && QueueOf(r, j) == QueueOf(s, j);
  }

  lemma OneSlotDependsOn(s: Registry, r: Registry, job: nat)
    requires OneSlot(s, job) && r.runs == s.runs
    ensures OneSlot(r, job) && (IsBusy(r, job) <==> IsBusy(s, job))
  {
    assert forall run :: HoldsSlot(r, job, run) <==> HoldsSlot(s, job, run);
  }

  lemma FewerKeepOneSlot(s: Registry, r: Registry, job: nat)
    requires OneSlot(s, job)
    requires forall run :: run in r.runs && r.runs[run].job == job ==> run in s.runs && r.runs[run] == s.runs[run]
    ensures OneSlot(r, job)
  {
    assert forall run :: HoldsSlot(r, job, run) ==> HoldsSlot(s, job, run);
  }

  lemma PublishKeepsOneSlot(s: Registry, run: nat, job: nat)
    requires OneSlot(s, job) && IsPossible(s, Publishes(run))
    ensures OneSlot(PublishChild(s, run), job)
  {
    var r := PublishChild(s, run);
    forall other | HoldsSlot(r, job, other) ensures HoldsSlot(s, job, other) {
    }
  }

  lemma StepKeepsOneSlot(s: Registry, event: Event, job: nat)
    requires Valid(s) && IsPossible(s, event) && OneSlot(s, job) && IsSerial(event, job)
    ensures OneSlot(Step(s, event), job)
  {
    match event
    case Dispatches(j, policy) => DispatchKeepsOneSlot(s, j, policy, job);
    case Publishes(run) => PublishKeepsOneSlot(s, run, job);
    case Cancels(j, run) => FewerKeepOneSlot(s, CancelOwned(s, j, run), job);
    case Drains(j, tombstone) =>
      if j != job {
        OwnActive(s, j, job);
      }
      FewerKeepOneSlot(s, BeginDrain(s, j, tombstone), job);
    case Finishes(run) =>
      if run in s.runs {
        FinishKeepsOneSlot(s, run, job);
      }
    case FinishesUnreaped(run) =>
      if run in s.runs {
        FinishKeepsOneSlot(s, run, job);
      }
    case Cleans(j, run) => FewerKeepOneSlot(s, FinishCleanup(s, j, run), job);
    case Freezes(j) => FewerKeepOneSlot(s, s.(frozen := s.frozen + {j}), job);
    case Thaws(j) => FewerKeepOneSlot(s, s.(frozen := s.frozen - {j}), job);
  }

  lemma OwnActive(s: Registry, j: nat, job: nat)
    requires Linked(s) && j != job
    ensures forall run :: run in ActiveRuns(s, j) ==> s.runs[run].job != job
  {
  }

  /**
    What the overlap policies promise: a job whose dispatches all skip or queue never has two started runs at once,
    however its runs finish, are cancelled, drained for a configuration apply or left behind by a child nobody reaped.
   */
  lemma {:induction false} OneAtATime(s: Registry, events: seq<Event>, job: nat)
    requires Valid(s) && ArePossible(s, events) && OneSlot(s, job)
    requires forall e :: e in events ==> IsSerial(e, job)
    ensures OneSlot(Life(s, events), job)
    decreases |events|
  {
    hide Valid, Step, OneSlot, IsPossible;
    if events != [] {
      assert events[0] in events && forall e :: e in events[1..] ==> e in events;
      StepKeepsOneSlot(s, events[0], job);
      StepKeepsValid(s, events[0]);
      OneAtATime(Step(s, events[0]), events[1..], job);
    }
  }

  /** With counting and registering apart, exactly a start that finds the slot taken since breaks the promise. */
  lemma LateAdmissionKeepsOneSlotIff(s: Registry, job: nat, queued: bool)
    requires Valid(s) && OneSlot(s, job)
    ensures OneSlot(RacyStep(s, Admits(job, queued)), job) <==> queued || !IsBusy(s, job)
  {
    var r := RacyStep(s, Admits(job, queued));
    assert s.born !in s.runs;
    hide Valid;
    assert queued ==> !HoldsSlot(r, job, s.born);
    assert !queued ==> HoldsSlot(r, job, s.born);
    forall run | run != s.born ensures HoldsSlot(r, job, run) <==> HoldsSlot(s, job, run) {
    }
    hide RacyStep;
    if run :| HoldsSlot(s, job, run) && !queued {
      assert HoldsSlot(r, job, run) && run != s.born;
    }
  }

  // ------------------------------------------------------------------- who may report

  /** A run has a tombstone only in a job that has one. */
  ghost predicate TombstonesMatch(s: Registry) {
    forall run :: run in s.runs && s.runs[run].phase == Tombstoned ==> s.runs[run].job in s.tombstoned
  }

  lemma StepKeepsTombstones(s: Registry, event: Event)
    requires Linked(s) && TombstonesMatch(s)
    ensures TombstonesMatch(Step(s, event))
    ensures Step(s, event).tombstoned == if event.Drains? && event.tombstone then s.tombstoned + {event.job} else s.tombstoned
  {
    hide HasActive;
  }

  lemma {:induction false} LifeKeepsTombstones(s: Registry, events: seq<Event>, job: nat)
    requires Valid(s) && ArePossible(s, events) && TombstonesMatch(s)
    ensures TombstonesMatch(Life(s, events))
    ensures job in Life(s, events).tombstoned <==> job in s.tombstoned || Drains(job, true) in events
    decreases |events|
  {
    hide Valid, Step, TombstonesMatch, IsPossible;
    if events != [] {
      StepKeepsValid(s, events[0]);
      ValidIsLinked(s);
      StepKeepsTombstones(s, events[0]);
      LifeKeepsTombstones(Step(s, events[0]), events[1..], job);
      assert events == [events[0]] + events[1..];
    }
  }

  lemma ValidIsLinked(s: Registry)
    requires Valid(s)
    ensures Linked(s)
  {
  }

  /** In every life a registered run may persist how it ended if and only if its job has never been drained for deletion. */
  lemma MayReportIff(events: seq<Event>, run: nat)
    requires ArePossible(EMPTY, events) && run in Life(EMPTY, events).runs
    ensures ShouldPersistTerminal(Life(EMPTY, events), run) <==> Drains(Life(EMPTY, events).runs[run].job, true) !in events
  {
    EmptyIsValid();
    LifeKeepsTombstones(EMPTY, events, Life(EMPTY, events).runs[run].job);
    hide Life;
  }
}
