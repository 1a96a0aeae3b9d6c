/**
  Whole lives of a configuration apply: the first attempt stopped anywhere, then any
  number of crashes, error handlers and recoveries, each stopped anywhere.
 */
module ConfigLife {
  import opened Options
  import opened Crashes
  import opened Names
  import opened Definitions
  import opened ConfigPlan
  import opened ConfigApply
  import opened ConfigPhases
  import opened ConfigRecovery
  import opened ConfigForward
  import opened ConfigAttempts

  datatype Event =
    | Die
    | Handle(budget: nat, noted: bool)
    | Recover(budget: nat)

  /**
    `Handle` is the error path of the process that ran the attempt: it reads the persisted stage, then either notes
    the forward direction or compensates with the schedule it saved, noting a failure if the store lets it.
    `Recover` is a later start.  A settled apply is over.
   */
  function Step(w: World, p: Plan, saved: seq<ScheduledTrigger>, event: Event): World {
    if w.journal.None? then w
    else
      match event
      case Die => Crash(w)
      case Handle(budget, noted) =>
        if HeadsForTarget(w.journal.value) then if noted then Exec(w, SetStage(ForwardRecovery)) else w
        else
          var r := RunFor(Exec, w, CompensateOps(p, saved), budget);
          if r.journal.Some? && noted then Exec(r, SetStage(CompensationFailed)) else r
      case Recover(budget) =>
        if HeadsForTarget(w.journal.value) then RunFor(Exec, w, ForwardOps(p, w), budget)
        else RunFor(Exec, w, CompensateOps(p, EntriesOf(p.previous.jobs)), budget)
  }

  function Life(w: World, p: Plan, saved: seq<ScheduledTrigger>, events: seq<Event>): World
    decreases |events|
  {
    if events == [] then w else Life(Step(w, p, saved, events[0]), p, saved, events[1..])
  }

  predicate GoesForward(w: World) {
    w.journal.Some? && HeadsForTarget(w.journal.value)
  }

  /** Detached processes that a crash cut off while the previous snapshot was still to be restored. */
  function CutOff(w: World, event: Event): set<string> {
    if event.Die? && w.journal.Some? && !GoesForward(w) then set n | n in w.owned && w.owned[n].lifecycle.Detached?
    else {}
  }

  function AllCutOff(w: World, p: Plan, saved: seq<ScheduledTrigger>, events: seq<Event>): set<string>
    decreases |events|
  {
    if events == [] then {}
    else CutOff(w, events[0]) + AllCutOff(Step(w, p, saved, events[0]), p, saved, events[1..])
  }

  lemma CrashStaysBackward(w: World, p: Plan, start: World)
    requires Backward(w, p, start)
    ensures Backward(Crash(w), p, start) && Lost(Crash(w)) == Lost(w) + CutOff(w, Die)
  {
    hide UnitsBetween;
    assert UnitsBetween(Crash(w), p, start) by { SameBetween(w, Crash(w), p, start); }
  }

  lemma SameBetween(w: World, r: World, p: Plan, start: World)
    requires UnitsBetween(w, p, start) && r.units == w.units && r.loaded == w.loaded
    ensures UnitsBetween(r, p, start)
  {
  }

  lemma CrashStaysForward(w: World, p: Plan, start: World)
    requires Forward(w, p, start)
    ensures Forward(Crash(w), p, start)
  {
    SameUnits(w, Crash(w), p, start);
    assert RunsEither(Crash(w), p) by { CrashKeepsEither(w, p); }
    hide UnitsToward, RunsEither;
  }

  lemma CrashKeepsEither(w: World, p: Plan)
    requires RunsEither(w, p)
    ensures RunsEither(Crash(w), p)
  {
    hide IsEither;
  }

  // ------------------------------------------------------------------- convergence

  /** The starting world with the journal cleared; processes that were cut off are still there, unrecorded. */
  function PreviousWorld(start: World, strays: set<string>): World {
    start.(journal := None, strays := strays)
  }

  lemma PreviousIsSettled(start: World, strays: set<string>)
    ensures PreviousWorld(start, strays).journal == None
  {
  }

  lemma CompensationOutcome(w: World, p: Plan, entries: seq<ScheduledTrigger>, start: World, budget: nat)
    requires WellFormed(p) && Agrees(start, p) && Backward(w, p, start) && NamesPreviousJobs(p, entries)
    ensures var r := RunFor(Exec, w, CompensateOps(p, entries), budget);
            if budget < |CompensateOps(p, entries)| then Backward(r, p, start) && Lost(r) == Lost(w)
            else r == PreviousWorld(start, Lost(w))
  {
    assert CompensateOps(p, entries) == CompensateBody(p, entries) + [ClearJournal];
    hide Backward, WellFormed, Agrees, CompensateBody, CompensateOps, Lost, RunFor, RunAll, NamesPreviousJobs;
    RunForConcat(Exec, w, CompensateBody(p, entries), [ClearJournal], budget);
    CompensationPrefix(w, p, entries, start, budget);
    CompensationIsExact(w, p, entries, start);
    if budget >= |CompensateOps(p, entries)| {
      RunForSaturates(Exec, w, CompensateOps(p, entries), budget);
    }
  }

  lemma ForwardOutcome(w: World, p: Plan, start: World, budget: nat)
    requires WellFormed(p) && Forward(w, p, start)
    ensures var r := RunFor(Exec, w, ForwardOps(p, w), budget);
            if budget < |ForwardOps(p, w)| then Forward(r, p, start) else r == TargetWorld(start, p)
  {
    assert ForwardOps(p, w) == ForwardBody(p, w) + [ClearJournal];
    hide *;
    RunForConcat(Exec, w, ForwardBody(p, w), [ClearJournal], budget);
    ForwardPrefix(w, p, start, budget);
    ForwardIsExact(w, p, start);
    if budget >= |ForwardOps(p, w)| {
      RunForSaturates(Exec, w, ForwardOps(p, w), budget);
    }
  }

  lemma Directions(w: World, p: Plan, start: World)
    ensures Backward(w, p, start) ==> w.journal.Some? && !GoesForward(w)
    ensures Forward(w, p, start) ==> GoesForward(w)
  {
  }

  lemma NotingAFailure(w: World, p: Plan, start: World)
    requires Backward(w, p, start)
    ensures Backward(Exec(w, SetStage(CompensationFailed)), p, start) && Lost(Exec(w, SetStage(CompensationFailed))) == Lost(w)
  {
    var r := Exec(w, SetStage(CompensationFailed));
    SameBetween(w, r, p, start);
    hide UnitsBetween;
  }

  lemma NotingTheDirection(w: World, p: Plan, start: World)
    requires Forward(w, p, start)
    ensures Forward(Exec(w, SetStage(ForwardRecovery)), p, start)
  {
    assert IsTeardown(SetStage(ForwardRecovery), p);
    hide Forward, IsTeardown;
    TeardownStep(w, SetStage(ForwardRecovery), p, start);
  }

  lemma OwnEntries(p: Plan)
    ensures NamesPreviousJobs(p, EntriesOf(p.previous.jobs))
  {
  }

  lemma BackwardHandle(w: World, p: Plan, saved: seq<ScheduledTrigger>, budget: nat, noted: bool, start: World)
    requires WellFormed(p) && Agrees(start, p) && NamesPreviousJobs(p, saved) && Backward(w, p, start)
    ensures var r := Step(w, p, saved, Handle(budget, noted));
            (Backward(r, p, start) && Lost(r) == Lost(w)) || r == PreviousWorld(start, Lost(w))
  {
    Directions(w, p, start);
    assert PreviousWorld(start, Lost(w)).journal == None;
    hide Backward, WellFormed, Agrees, Lost, CompensateOps, RunFor, NamesPreviousJobs, PreviousWorld, Exec;
    CompensationOutcome(w, p, saved, start, budget);
    var r := RunFor(Exec, w, CompensateOps(p, saved), budget);
    if budget < |CompensateOps(p, saved)| {
      NotingAFailure(r, p, start);
    }
  }

  /** Before the boundary a step either leaves the apply undoable or settles it in the previous world. */
  lemma BackwardStep(w: World, p: Plan, saved: seq<ScheduledTrigger>, event: Event, start: World)
    requires WellFormed(p) && Agrees(start, p) && NamesPreviousJobs(p, saved) && Backward(w, p, start)
    ensures var r := Step(w, p, saved, event);
            || (Backward(r, p, start) && Lost(r) == Lost(w) + CutOff(w, event))
            || (r == PreviousWorld(start, Lost(w)) && CutOff(w, event) == {})
  {
    Directions(w, p, start);
    hide Backward, WellFormed, Agrees, Lost, CompensateOps, RunFor, NamesPreviousJobs, PreviousWorld, Exec;
    match event
    case Die => CrashStaysBackward(w, p, start);
    case Handle(budget, noted) =>
      BackwardHandle(w, p, saved, budget, noted, start);
      hide Step;
    case Recover(budget) =>
      OwnEntries(p);
      CompensationOutcome(w, p, EntriesOf(p.previous.jobs), start, budget);
  }

  /** After the boundary a step either leaves the apply to be finished or settles it in the target world. */
  lemma ForwardStep(w: World, p: Plan, saved: seq<ScheduledTrigger>, event: Event, start: World)
    requires WellFormed(p) && Forward(w, p, start)
    ensures var r := Step(w, p, saved, event); Forward(r, p, start) || r == TargetWorld(start, p)
  {
    Directions(w, p, start);
    hide Forward, WellFormed, ForwardOps, RunFor, TargetWorld;
    match event
    case Die => CrashStaysForward(w, p, start);
    case Handle(budget, noted) => NotingTheDirection(w, p, start);
    case Recover(budget) => ForwardOutcome(w, p, start, budget);
  }

  lemma {:induction false} SettledStays(w: World, p: Plan, saved: seq<ScheduledTrigger>, events: seq<Event>)
    requires w.journal.None?
    ensures Life(w, p, saved, events) == w && AllCutOff(w, p, saved, events) == {}
    decreases |events|
  {
    if events != [] {
      SettledStays(w, p, saved, events[1..]);
    }
  }

  lemma {:induction false} BackwardLife(w: World, p: Plan, saved: seq<ScheduledTrigger>, events: seq<Event>, start: World)
    requires WellFormed(p) && Agrees(start, p) && NamesPreviousJobs(p, saved) && Backward(w, p, start)
    ensures var r, lost := Life(w, p, saved, events), Lost(w) + AllCutOff(w, p, saved, events);
            (Backward(r, p, start) && Lost(r) == lost) || r == PreviousWorld(start, lost)
    decreases |events|
  {
    hide Backward, WellFormed, Agrees, Lost, NamesPreviousJobs, Step, CutOff;
    if events != [] {
      BackwardStep(w, p, saved, events[0], start);
      var next := Step(w, p, saved, events[0]);
      var later := AllCutOff(next, p, saved, events[1..]);
      Directions(next, p, start);
      if Backward(next, p, start) {
        BackwardLife(next, p, saved, events[1..], start);
        assert Lost(next) + later == Lost(w) + (CutOff(w, events[0]) + later);
      } else {
        SettledStays(next, p, saved, events[1..]);
        assert Lost(w) + (CutOff(w, events[0]) + later) == Lost(w);
      }
    } else {
      assert Lost(w) + {} == Lost(w);
    }
  }

  lemma {:induction false} ForwardLife(w: World, p: Plan, saved: seq<ScheduledTrigger>, events: seq<Event>, start: World)
    requires WellFormed(p) && Forward(w, p, start)
    ensures var r := Life(w, p, saved, events); Forward(r, p, start) || r == TargetWorld(start, p)
    decreases |events|
  {
    TargetIsSettled(start, p);
    hide Forward, WellFormed, TargetWorld, Step;
    if events != [] {
      ForwardStep(w, p, saved, events[0], start);
      var next := Step(w, p, saved, events[0]);
      if Forward(next, p, start) {
        ForwardLife(next, p, saved, events[1..], start);
      } else {
        SettledStays(next, p, saved, events[1..]);
      }
    }
  }

  /** The world the first attempt leaves when it stops after `budget` effects. */
  function Attempted(start: World, p: Plan, budget: nat): World {
    RunFor(Exec, Begun(start), ApplyOps(p), budget)
  }

  lemma AttemptOutcome(start: World, p: Plan, budget: nat)
    requires WellFormed(p) && Agrees(start, p)
    ensures var w := Attempted(start, p, budget);
            if budget < |ApplyOps(p)| then (if Crosses(p, budget) then Forward(w, p, start) else Unharmed(w, p, start))
            else w == TargetWorld(start, p)
  {
    assert ApplyOps(p) == ApplyBody(p) + [ClearJournal];
    hide Forward, WellFormed, Agrees, Unharmed, ApplyBody, ApplyOps, RunFor, RunAll, TargetWorld, Crosses;
    RunForConcat(Exec, Begun(start), ApplyBody(p), [ClearJournal], budget);
    AttemptPrefix(p, start, budget);
    AttemptIsExact(p, start);
    if budget >= |ApplyOps(p)| {
      RunForSaturates(Exec, Begun(start), ApplyOps(p), budget);
    }
  }

  /**
    Wherever the attempt stops and whatever happens afterwards: an apply that settles is exactly the
    target world if the attempt had persisted a forward stage (or finished), and exactly the starting
    world, up to the processes crashes cut off, if it had not.  An unsettled one keeps its direction.
   */
  lemma ConfigApplyConverges(start: World, p: Plan, saved: seq<ScheduledTrigger>, budget: nat, events: seq<Event>)
    requires WellFormed(p) && Agrees(start, p) && NamesPreviousJobs(p, saved)
    ensures var w := Attempted(start, p, budget);
            var r := Life(w, p, saved, events);
            if w.journal.None? || GoesForward(w) then (if r.journal.None? then r == TargetWorld(start, p) else GoesForward(r))
            else if r.journal.None? then r == PreviousWorld(start, AllCutOff(w, p, saved, events))
            else !GoesForward(r)
  {
    var w := Attempted(start, p, budget);
    TargetIsSettled(start, p);
    AttemptOutcome(start, p, budget);
    var r := Life(w, p, saved, events);
    assert w.journal.None? ==> !GoesForward(w);
    assert Unharmed(w, p, start) ==> Backward(w, p, start) && Lost(w) == {};
    hide *;
    Directions(w, p, start);
    Directions(r, p, start);
    PreviousIsSettled(start, AllCutOff(w, p, saved, events));
    if w.journal.None? {
      SettledStays(w, p, saved, events);
    } else if Forward(w, p, start) {
      ForwardLife(w, p, saved, events, start);
    } else {
      BackwardLife(w, p, saved, events, start);
      assert {} + AllCutOff(w, p, saved, events) == AllCutOff(w, p, saved, events);
    }
  }

  /**
    An attempt that has not finished must be finished if and only if it has crossed: never up to its staging and the
    stage write after it, always behind the teardown and the stage write after that, and in between if and only if a
    previous job's name or a previous system-registered process, as it was, is missing from the target.
   */
  lemma GoesForwardIff(start: World, p: Plan, budget: nat)
    requires WellFormed(p) && Agrees(start, p) && budget < |ApplyOps(p)|
    ensures var w, staged, torn := Attempted(start, p, budget), |StagingOps(p)| + 1, |TeardownOps(p, RemovedJobs(p))|;
            && (budget <= staged ==> !GoesForward(w))
            && (staged < budget <= staged + torn ==> (GoesForward(w) <==> Destroys(p)))
            && (staged + torn < budget ==> GoesForward(w))
  {
    AttemptOutcome(start, p, budget);
    var w := Attempted(start, p, budget);
    Directions(w, p, start);
    assert Unharmed(w, p, start) ==> Backward(w, p, start);
    hide Forward, Backward, WellFormed, Agrees, Unharmed, Attempted, ApplyOps, StagingOps, TeardownOps, Destroys, GoesForward;
  }

  /** Whatever happens after an attempt that stopped: it settles in the target if and only if it had crossed. */
  lemma SettlesInTargetIff(start: World, p: Plan, saved: seq<ScheduledTrigger>, budget: nat, events: seq<Event>)
    requires WellFormed(p) && Agrees(start, p) && NamesPreviousJobs(p, saved) && budget < |ApplyOps(p)|
    requires Life(Attempted(start, p, budget), p, saved, events).journal.None?
    ensures var w, staged, torn := Attempted(start, p, budget), |StagingOps(p)| + 1, |TeardownOps(p, RemovedJobs(p))|;
            var r, goal := Life(w, p, saved, events), budget > staged && (Destroys(p) || budget > staged + torn);
            r == if goal then TargetWorld(start, p) else PreviousWorld(start, AllCutOff(w, p, saved, events))
  {
    var w := Attempted(start, p, budget);
    AttemptOutcome(start, p, budget);
    Directions(w, p, start);
    assert Unharmed(w, p, start) ==> Backward(w, p, start);
    hide WellFormed, Agrees, NamesPreviousJobs, Attempted, ApplyOps, StagingOps, TeardownOps, Destroys, Forward, Backward, Unharmed,
      Life, AllCutOff, TargetWorld, PreviousWorld, GoesForward;
    GoesForwardIff(start, p, budget);
    ConfigApplyConverges(start, p, saved, budget, events);
  }

  /** A recovery settles the apply exactly when nothing cuts it short. */
  lemma RecoverySettlesIff(start: World, p: Plan, saved: seq<ScheduledTrigger>, budget: nat, events: seq<Event>, enough: nat)
    requires WellFormed(p) && Agrees(start, p) && NamesPreviousJobs(p, saved)
    requires Life(Attempted(start, p, budget), p, saved, events).journal.Some?
    ensures var r := Life(Attempted(start, p, budget), p, saved, events);
            var ops := if GoesForward(r) then ForwardOps(p, r) else CompensateOps(p, EntriesOf(p.previous.jobs));
            Step(r, p, saved, Recover(enough)).journal.None? <==> enough >= |ops|
  {
    var r := Life(Attempted(start, p, budget), p, saved, events);
    ReachedIsKnown(start, p, saved, budget, events);
    hide *;
    OneRecoverySettlesIff(r, p, saved, start, enough);
  }

  lemma OneRecoverySettlesIff(w: World, p: Plan, saved: seq<ScheduledTrigger>, start: World, enough: nat)
    requires WellFormed(p) && Agrees(start, p) && (Backward(w, p, start) || Forward(w, p, start))
    ensures var ops := if GoesForward(w) then ForwardOps(p, w) else CompensateOps(p, EntriesOf(p.previous.jobs));
            Step(w, p, saved, Recover(enough)).journal.None? <==> enough >= |ops|
  {
    TargetIsSettled(start, p);
    PreviousIsSettled(start, Lost(w));
    OwnEntries(p);
    hide WellFormed, Agrees, TargetWorld, PreviousWorld, NamesPreviousJobs, Forward, Backward, ForwardOps, CompensateOps, Lost, RunFor,
      EntriesOf;
    Directions(w, p, start);
    if Forward(w, p, start) {
      ForwardOutcome(w, p, start, enough);
      Directions(RunFor(Exec, w, ForwardOps(p, w), enough), p, start);
    } else {
      CompensationOutcome(w, p, EntriesOf(p.previous.jobs), start, enough);
      Directions(RunFor(Exec, w, CompensateOps(p, EntriesOf(p.previous.jobs)), enough), p, start);
    }
  }

  lemma ReachedIsKnown(start: World, p: Plan, saved: seq<ScheduledTrigger>, budget: nat, events: seq<Event>)
    requires WellFormed(p) && Agrees(start, p) && NamesPreviousJobs(p, saved)
    requires Life(Attempted(start, p, budget), p, saved, events).journal.Some?
    ensures var r := Life(Attempted(start, p, budget), p, saved, events); Backward(r, p, start) || Forward(r, p, start)
  {
    var w := Attempted(start, p, budget);
    TargetIsSettled(start, p);
    AttemptOutcome(start, p, budget);
    hide WellFormed, Agrees, Attempted, TargetWorld, NamesPreviousJobs, Life, AllCutOff, Forward, Backward, Lost;
    if w.journal.None? {
      SettledStays(w, p, saved, events);
    } else if Forward(w, p, start) {
      ForwardLife(w, p, saved, events, start);
    } else {
      BackwardLife(w, p, saved, events, start);
    }
  }

  /** Once a job was drained, a unit file removed or a live unit replaced, the journal heads for the target. */
  lemma DestructionCommitsToTarget(start: World, p: Plan, saved: seq<ScheduledTrigger>, budget: nat, events: seq<Event>, spec: ProcessSpec)
    requires WellFormed(p) && Agrees(start, p) && NamesPreviousJobs(p, saved)
    requires var r := Life(Attempted(start, p, budget), p, saved, events);
             && r.journal.Some?
             && (r.drained != {} || r.loaded != start.loaded
                 || (spec in p.previous.processes && HasUnit(spec) && UnitOf(spec) !in r.units))
    ensures GoesForward(Life(Attempted(start, p, budget), p, saved, events))
  {
    var r := Life(Attempted(start, p, budget), p, saved, events);
    ReachedIsKnown(start, p, saved, budget, events);
    Directions(r, p, start);
    hide WellFormed, Agrees, Attempted, Life, Forward, Backward, NamesPreviousJobs;
    if Backward(r, p, start) {
      BackwardDestroysNothing(r, p, start);
    }
  }

  /** A settled rollback is exactly the starting world if and only if no crash cut off a running detached process. */
  lemma RollbackIsExactIff(start: World, p: Plan, saved: seq<ScheduledTrigger>, budget: nat, events: seq<Event>)
    requires WellFormed(p) && Agrees(start, p) && NamesPreviousJobs(p, saved)
    requires Attempted(start, p, budget).journal.Some? && !GoesForward(Attempted(start, p, budget))
    requires Life(Attempted(start, p, budget), p, saved, events).journal.None?
    ensures Life(Attempted(start, p, budget), p, saved, events) == start.(journal := None)
       <==> AllCutOff(Attempted(start, p, budget), p, saved, events) == {}
  {
    var strays := start.strays;
    assert Agrees(start, p) ==> strays == {};
    hide WellFormed, Agrees, Attempted, Life, NamesPreviousJobs, AllCutOff;
    ConfigApplyConverges(start, p, saved, budget, events);
  }

  // ------------------------------------------------------------------- a crash that duplicates

  const SURVIVOR := ProcessSpec("p", Direct, Detached, false, "")
  const RUNNING_SNAPSHOT := ConfigSnapshot([SURVIVOR], [], ["p"])
  const REAPPLY := Plan(RUNNING_SNAPSHOT, RUNNING_SNAPSHOT)
  const RUNNING_WORLD := World(map["p" := SURVIVOR], map[], None, map[], map[], map[], map["p" := SURVIVOR], map[], {}, {})

  lemma RunningWorldAgrees()
    ensures WellFormed(REAPPLY) && Agrees(RUNNING_WORLD, REAPPLY) && NamesPreviousJobs(REAPPLY, [])
  {
    var specs := [SURVIVOR];
    assert specs[..0] == [] && ByName([], SpecName) == map[];
    assert ByName(specs, SpecName) == map["p" := SURVIVOR];
    assert Specs(REAPPLY.previous) == map["p" := SURVIVOR];
  }

  /**
    The daemon dies in the middle of an apply while a detached process runs; the compensation after the restart
    starts a second copy and the first one is no longer recorded anywhere.
   */
  lemma CrashDuplicatesADetachedProcess() returns (enough: nat)
    ensures Life(Attempted(RUNNING_WORLD, REAPPLY, 0), REAPPLY, [], [Die, Recover(enough)])
         == RUNNING_WORLD.(journal := None, strays := {"p"})
  {
    var w := Attempted(RUNNING_WORLD, REAPPLY, 0);
    enough := |CompensateOps(REAPPLY, EntriesOf(REAPPLY.previous.jobs))|;
    CrashCutsOff();
    hide *;
    RunningWorldAgrees();
    DieThenRecover(w, REAPPLY, [], enough);
    RecoverySettlesIff(RUNNING_WORLD, REAPPLY, [], 0, [Die], enough);
    ConfigApplyConverges(RUNNING_WORLD, REAPPLY, [], 0, [Die, Recover(enough)]);
    PreviousWorldIs(RUNNING_WORLD, {"p"});
  }

  lemma PreviousWorldIs(start: World, strays: set<string>)
    ensures PreviousWorld(start, strays) == start.(journal := None, strays := strays)
  {
  }

  lemma CrashCutsOff()
    ensures var w := Attempted(RUNNING_WORLD, REAPPLY, 0);
            && w.journal == Some(Prepared) && !GoesForward(w) && !GoesForward(Crash(w)) && Crash(w).journal == Some(Prepared)
            && CutOff(w, Die) == {"p"}
  {
    hide ApplyOps;
  }

  lemma DieThenRecover(w: World, p: Plan, saved: seq<ScheduledTrigger>, enough: nat)
    requires w.journal.Some?
    ensures Life(w, p, saved, [Die]) == Crash(w)
    ensures Life(w, p, saved, [Die, Recover(enough)]) == Step(Crash(w), p, saved, Recover(enough))
    ensures AllCutOff(w, p, saved, [Die, Recover(enough)]) == CutOff(w, Die)
  {
    var events := [Die, Recover(enough)];
    var crashed := Crash(w);
    var last := Step(crashed, p, saved, Recover(enough));
    assert Step(w, p, saved, Die) == crashed;
    hide Step, CutOff, Crash;
    assert [Die][1..] == [] && events[1..] == [Recover(enough)] && [Recover(enough)][1..] == [];
    assert Life(crashed, p, saved, [Recover(enough)]) == Life(last, p, saved, []) == last;
    assert AllCutOff(crashed, p, saved, [Recover(enough)]) == CutOff(crashed, Recover(enough)) + {};
    RecoveringCutsOffNothing(crashed, enough);
  }

  lemma RecoveringCutsOffNothing(w: World, enough: nat)
    ensures CutOff(w, Recover(enough)) == {}
  {
  }
}
