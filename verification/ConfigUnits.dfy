/**
  The live service units after a settled apply: rewriting a unit's file does not replace
  the unit that runs.
 */
module ConfigUnits {
  import opened Options
  import opened Names
  import opened Definitions
  import opened ConfigPlan
  import opened ConfigApply
  import opened ConfigPhases
  import opened ConfigRecovery
  import opened ConfigForward
  import opened ConfigAttempts
  import opened ConfigLife

  /** Every live unit of a snapshot runs the snapshot's definition. */
  ghost predicate AreLive(w: World, snapshot: ConfigSnapshot) {
    forall spec :: spec in snapshot.processes && HasUnit(spec) && UnitOf(spec) in w.loaded ==> w.loaded[UnitOf(spec)] == spec
  }

  /** The target replaces the definition of a unit that is live and that nothing restarts. */
  predicate ReplacesLive(p: Plan, start: World, former: ProcessSpec, spec: ProcessSpec) {
    && former in p.previous.processes && spec in p.target.processes
    && HasUnit(spec) && former.name == spec.name && former.mode == spec.mode && former != spec
    && UnitOf(spec) in start.loaded && !spec.autostart
  }

  lemma SameUnitSameSpec(p: Plan, spec: ProcessSpec, other: ProcessSpec)
    requires WellFormed(p) && spec in p.target.processes && other in p.target.processes && HasUnit(spec) && HasUnit(other)
    requires UnitOf(spec) == UnitOf(other)
    ensures spec == other
  {
    assert spec.mode == other.mode && spec.name == other.name;
    ListedIsNamed(p.target.processes, SpecName, spec);
    ListedIsNamed(p.target.processes, SpecName, other);
  }

  /** What is live under a target unit at the end: its target definition if it is started, what was live before if not. */
  lemma LiveInTarget(start: World, p: Plan, spec: ProcessSpec)
    requires WellFormed(p) && spec in p.target.processes && HasUnit(spec)
    ensures var u, loaded := UnitOf(spec), TargetWorld(start, p).loaded;
            && (spec.autostart ==> u in loaded && loaded[u] == spec)
            && (!spec.autostart ==> (u in loaded <==> u in start.loaded) && (u in loaded ==> loaded[u] == start.loaded[u]))
  {
    var u := UnitOf(spec);
    GoneIsGone(p);
    UnitFilesHold(AutostartUnits(p));
    assert spec in UnitSpecs(p.target);
    assert u in UnitNames(UnitSpecs(p.target));
    hide Gone, UnitSpecs, UnitFiles, Specs, Jobs, Scheduled, RunningTarget, JobNames, RemovedJobs;
    if u in UnitFiles(AutostartUnits(p)) {
      SameUnitSameSpec(p, spec, UnitFiles(AutostartUnits(p))[u]);
    }
    hide WellFormed;
    if spec.autostart {
      assert spec in AutostartUnits(p);
    }
  }

  lemma FileInTarget(start: World, p: Plan, spec: ProcessSpec)
    requires WellFormed(p) && spec in p.target.processes && HasUnit(spec)
    ensures var units := TargetWorld(start, p).units; UnitOf(spec) in units && units[UnitOf(spec)] == spec
  {
    UnitFilesHold(UnitSpecs(p.target));
    assert spec in UnitSpecs(p.target) && UnitOf(spec) in UnitNames(UnitSpecs(p.target));
    hide Gone, UnitFiles, Specs, Jobs, Scheduled, RunningTarget, JobNames, RemovedJobs;
    SameUnitSameSpec(p, spec, UnitFiles(UnitSpecs(p.target))[UnitOf(spec)]);
  }

  /**
    Whatever was live before: at the end every live unit of the target runs its target definition exactly when every
    live unit that the target does not start ran that definition already.
   */
  lemma TargetIsLiveIffNothingStale(start: World, p: Plan)
    requires WellFormed(p)
    ensures AreLive(TargetWorld(start, p), p.target)
       <==> forall spec :: spec in p.target.processes && HasUnit(spec) && !spec.autostart && UnitOf(spec) in start.loaded ==>
              start.loaded[UnitOf(spec)] == spec
  {
    hide TargetWorld, WellFormed;
    forall spec | spec in p.target.processes && HasUnit(spec)
      ensures (UnitOf(spec) in TargetWorld(start, p).loaded ==> TargetWorld(start, p).loaded[UnitOf(spec)] == spec)
         <==> (!spec.autostart && UnitOf(spec) in start.loaded ==> start.loaded[UnitOf(spec)] == spec)
    {
      LiveInTarget(start, p, spec);
    }
  }

  /** Of a unit that was live before, only the definition the previous snapshot had. */
  lemma LiveBefore(start: World, p: Plan, spec: ProcessSpec) returns (former: ProcessSpec)
    requires WellFormed(p) && Agrees(start, p) && AreLive(start, p.previous)
    requires spec in p.target.processes && HasUnit(spec) && UnitOf(spec) in start.loaded
    ensures former in p.previous.processes && former.name == spec.name && former.mode == spec.mode && start.loaded[UnitOf(spec)] == former
  {
    assert !IsNewUnit(p, spec);
    former :| former in p.previous.processes && former.mode == spec.mode;
  }

  /** In the target world every live unit runs its target definition exactly when no unit was live whose definition the target replaces without starting it. */
  lemma TargetIsLiveIff(start: World, p: Plan)
    requires WellFormed(p) && Agrees(start, p) && AreLive(start, p.previous)
    ensures AreLive(TargetWorld(start, p), p.target) <==> !exists former, spec :: ReplacesLive(p, start, former, spec)
  {
    hide TargetWorld;
    forall spec | spec in p.target.processes && HasUnit(spec) && UnitOf(spec) in TargetWorld(start, p).loaded
      ensures TargetWorld(start, p).loaded[UnitOf(spec)] == spec <==> !exists former :: ReplacesLive(p, start, former, spec)
    {
      LiveInTarget(start, p, spec);
      if !spec.autostart {
        var former := LiveBefore(start, p, spec);
        OnlyOneOld(p, start, former, spec);
      }
    }
    if former, spec :| ReplacesLive(p, start, former, spec) {
      LiveInTarget(start, p, spec);
    }
  }

  lemma OnlyOneOld(p: Plan, start: World, former: ProcessSpec, spec: ProcessSpec)
    requires WellFormed(p) && former in p.previous.processes && spec in p.target.processes && HasUnit(spec)
    requires former.name == spec.name && former.mode == spec.mode && UnitOf(spec) in start.loaded && !spec.autostart
    ensures (exists o :: ReplacesLive(p, start, o, spec)) <==> former != spec
  {
    ListedIsNamed(p.previous.processes, SpecName, former);
    if o :| ReplacesLive(p, start, o, spec) {
      ListedIsNamed(p.previous.processes, SpecName, o);
      assert o == former;
    }
    if former != spec {
      assert ReplacesLive(p, start, former, spec);
    }
  }

  /** The same for every apply that settles in the target, however often it was interrupted. */
  lemma SettledTargetIsLiveIff(start: World, p: Plan, saved: seq<ScheduledTrigger>, budget: nat, events: seq<Event>)
    requires WellFormed(p) && Agrees(start, p) && NamesPreviousJobs(p, saved) && AreLive(start, p.previous)
    requires Attempted(start, p, budget).journal.None? || GoesForward(Attempted(start, p, budget))
    requires Life(Attempted(start, p, budget), p, saved, events).journal.None?
    ensures AreLive(Life(Attempted(start, p, budget), p, saved, events), p.target)
       <==> !exists former, spec :: ReplacesLive(p, start, former, spec)
  {
    hide WellFormed, Agrees, NamesPreviousJobs, Attempted, Life, TargetWorld, AreLive, ReplacesLive;
    ConfigApplyConverges(start, p, saved, budget, events);
    TargetIsLiveIff(start, p);
  }

  /** A settled rollback leaves every unit live as it was. */
  lemma RollbackKeepsLive(start: World, p: Plan, saved: seq<ScheduledTrigger>, budget: nat, events: seq<Event>)
    requires WellFormed(p) && Agrees(start, p) && NamesPreviousJobs(p, saved) && AreLive(start, p.previous)
    requires Attempted(start, p, budget).journal.Some? && !GoesForward(Attempted(start, p, budget))
    requires Life(Attempted(start, p, budget), p, saved, events).journal.None?
    ensures AreLive(Life(Attempted(start, p, budget), p, saved, events), p.previous)
  {
    hide WellFormed, Agrees, NamesPreviousJobs, Attempted, Life, AllCutOff;
    ConfigApplyConverges(start, p, saved, budget, events);
  }

  // ------------------------------------------------------------------- the target world, entry by entry

  lemma UnitIsGoneIff(p: Plan, u: string)
    requires WellFormed(p)
    ensures u in Gone(p) <==> PreviousUnit(p, u) && !TargetUnit(p, u)
  {
    if u in Gone(p) {
      var spec :| spec in ObsoleteUnits(p) && UnitOf(spec) == u;
      forall other | other in p.target.processes && HasUnit(other) ensures UnitOf(other) != u {
        assert other.mode == spec.mode ==> other.name == spec.name;
      }
    }
    if PreviousUnit(p, u) && !TargetUnit(p, u) {
      var spec :| spec in p.previous.processes && HasUnit(spec) && UnitOf(spec) == u;
      assert IsObsoleteUnit(p, spec);
      assert spec in ObsoleteUnits(p);
    }
  }

  lemma UnitIsWrittenIff(specs: seq<ProcessSpec>, keep: ProcessSpec -> bool, u: string)
    ensures u in UnitNames(Where(specs, keep)) <==> exists spec :: spec in specs && keep(spec) && UnitOf(spec) == u
  {
  }

  ghost predicate StartedUnit(p: Plan, u: string) {
    exists spec :: spec in p.target.processes && HasUnit(spec) && spec.autostart && UnitOf(spec) == u
  }

  /** Unit files are those of the target and those of no process; live are those that are started, and what was live and is not removed. */
  lemma TargetUnitsAre(start: World, p: Plan, u: string)
    requires WellFormed(p)
    ensures var goal := TargetWorld(start, p);
            && (u in goal.units <==> TargetUnit(p, u) || (u in start.units && !PreviousUnit(p, u)))
            && (u in goal.units && !TargetUnit(p, u) ==> goal.units[u] == start.units[u])
            && (u in goal.loaded <==> StartedUnit(p, u) || (u in start.loaded && (TargetUnit(p, u) || !PreviousUnit(p, u))))
            && (u in goal.loaded && !StartedUnit(p, u) ==> goal.loaded[u] == start.loaded[u])
  {
    UnitIsGoneIff(p, u);
    UnitFilesHold(UnitSpecs(p.target));
    UnitFilesHold(AutostartUnits(p));
    UnitIsWrittenIff(p.target.processes, HasUnit, u);
    UnitIsWrittenIff(p.target.processes, (spec: ProcessSpec) => HasUnit(spec) && spec.autostart, u);
    hide WellFormed, Gone, UnitFiles, Where, Specs, Jobs, Scheduled, RunningTarget, JobNames, RemovedJobs;
  }

  // ------------------------------------------------------------------- a stale unit

  const OLD_UNIT := ProcessSpec("p", SystemRegistered("u"), Tied, false, "old")
  const NEW_UNIT := ProcessSpec("p", SystemRegistered("u"), Tied, false, "new")
  const REPLACE_UNIT := Plan(ConfigSnapshot([OLD_UNIT], [], []), ConfigSnapshot([NEW_UNIT], [], []))
  const LIVE_WORLD := World(map["p" := OLD_UNIT], map[], None, map[], map["u" := OLD_UNIT], map["u" := OLD_UNIT], map[], map[], {}, {})

  /** An apply that completes without any failure and leaves the former definition live under the new file. */
  lemma StaleUnitStaysLive()
    ensures WellFormed(REPLACE_UNIT) && Agrees(LIVE_WORLD, REPLACE_UNIT) && AreLive(LIVE_WORLD, REPLACE_UNIT.previous)
    ensures var r := Attempted(LIVE_WORLD, REPLACE_UNIT, |ApplyOps(REPLACE_UNIT)|);
            r.journal.None? && "u" in r.loaded && r.loaded["u"] == OLD_UNIT && "u" in r.units && r.units["u"] == NEW_UNIT
  {
    LiveWorldAgrees();
    hide *;
    AttemptOutcome(LIVE_WORLD, REPLACE_UNIT, |ApplyOps(REPLACE_UNIT)|);
    TargetIsSettled(LIVE_WORLD, REPLACE_UNIT);
    UnitIsNamed();
    LiveInTarget(LIVE_WORLD, REPLACE_UNIT, NEW_UNIT);
    FileInTarget(LIVE_WORLD, REPLACE_UNIT, NEW_UNIT);
  }

  lemma UnitIsNamed()
    ensures NEW_UNIT in REPLACE_UNIT.target.processes && HasUnit(NEW_UNIT) && UnitOf(NEW_UNIT) == "u"
    ensures !NEW_UNIT.autostart && LIVE_WORLD.loaded == map["u" := OLD_UNIT]
  {
  }

  lemma LiveWorldAgrees()
    ensures WellFormed(REPLACE_UNIT) && Agrees(LIVE_WORLD, REPLACE_UNIT) && AreLive(LIVE_WORLD, REPLACE_UNIT.previous)
  {
    var olds, news := [OLD_UNIT], [NEW_UNIT];
    assert olds[..0] == [] && news[..0] == [] && ByName([], SpecName) == map[];
    assert ByName(olds, SpecName) == map["p" := OLD_UNIT];
    assert Specs(REPLACE_UNIT.previous) == map["p" := OLD_UNIT];
  }
}
