/**
  Whole lives of a journal: any sequence of appends, seals, crashes and restarts,
  each stopped after any number of file operations, against one append-only log.
 */
module LogHistory {
  import opened Options
  import opened Crashes
  import opened LogFiles
  import opened LogInvariant
  import opened LogRetention
  import opened LogRecovery

  datatype Journal = Up(disk: Disk, manifest: Manifest) | Down(disk: Disk)

  datatype Event =
    | Append(line: Line, now: int, budget: nat)
    | Seal(now: int, budget: nat)
    | Kill
    | Restart(listing: seq<nat>, now: int, budget: nat)

  datatype Setup = Setup(policy: Policy, isRun: bool)

  function Stopped(disk: Disk, plan: Plan, budget: nat): Journal {
    var reached := RunFor(Exec, disk, plan.ops, budget);
    if |plan.ops| <= budget then Up(reached, plan.manifest) else Down(reached)
  }

  /** A sealed journal refuses appends; an operation the journal is not ready for changes nothing. */
  function Step(j: Journal, event: Event, setup: Setup): Journal {
    match event
    case Append(line, now, budget) =>
      if j.Down? || j.manifest.isSealed then j
      else Stopped(j.disk, AppendPlan(j.disk, j.manifest, setup.policy, now, setup.isRun, line), budget)
    case Seal(now, budget) =>
      if j.Down? then j else Stopped(j.disk, SealPlan(j.manifest, setup.policy, now), budget)
    case Kill => Down(j.disk)
    case Restart(listing, now, budget) =>
      if j.Up? || !IsListing(listing, SurvivingFiles(j.disk, StoredManifest(j.disk, now))) then j
      else Stopped(j.disk, InitializePlan(j.disk, listing, setup.policy, now, setup.isRun), budget)
  }

  /** The plain log: an append that got through adds its line under the next number, nothing else does anything. */
  function LogStep(log: seq<Line>, j: Journal, event: Event, setup: Setup): seq<Line> {
    if event.Append? && j.Up? && !j.manifest.isSealed then
      AppendedLog(log, event.line, AppendPlan(j.disk, j.manifest, setup.policy, event.now, setup.isRun, event.line), event.budget)
    else log
  }

  predicate HitsWindow(j: Journal, event: Event, setup: Setup) {
    && event.Append? && j.Up? && !j.manifest.isSealed
    && ShouldRollover(j.manifest, setup.policy, event.now)
    && event.budget == 3
  }

  ghost predicate Consistent(j: Journal, log: seq<Line>, expired: nat) {
    if j.Up? then Live(j.disk, j.manifest, log, expired)
    else Recoverable(j.disk, log, expired) && !InWindow(j.disk)
  }

  function Run(j: Journal, events: seq<Event>, setup: Setup): Journal
    decreases |events|
  {
    if events == [] then j else Run(Step(j, events[0], setup), events[1..], setup)
  }

  function LogRun(log: seq<Line>, j: Journal, events: seq<Event>, setup: Setup): seq<Line>
    decreases |events|
  {
    if events == [] then log
    else LogRun(LogStep(log, j, events[0], setup), Step(j, events[0], setup), events[1..], setup)
  }

  predicate AvoidsWindow(j: Journal, events: seq<Event>, setup: Setup)
    decreases |events|
  {
    events == [] || (!HitsWindow(j, events[0], setup) && AvoidsWindow(Step(j, events[0], setup), events[1..], setup))
  }

  /** A history grows at its end: the next event happens in the state the others have led to, and must avoid the window there. */
  lemma {:induction false} RunSnoc(j: Journal, events: seq<Event>, setup: Setup, event: Event)
    ensures Run(j, events + [event], setup) == Step(Run(j, events, setup), event, setup)
    ensures AvoidsWindow(j, events + [event], setup) <==> AvoidsWindow(j, events, setup) && !HitsWindow(Run(j, events, setup), event, setup)
    decreases |events|
  {
    if events == [] {
      assert [] + [event] == [event] && [event][1..] == [];
    } else {
      assert (events + [event])[1..] == events[1..] + [event];
      RunSnoc(Step(j, events[0], setup), events[1..], setup, event);
    }
  }

  /** The last line given up once a step is over. */
  function Expires(j: Journal, event: Event, setup: Setup, expired: nat): nat {
    match event
    case Append(line, now, budget) =>
      if j.Down? || j.manifest.isSealed then expired
      else AppendExpires(j.disk, j.manifest, setup.policy, now, setup.isRun, expired, budget)
    case Seal(now, budget) => if j.Down? then expired else SealExpires(j.manifest, setup.policy, now, expired, budget)
    case Kill => expired
    case Restart(listing, now, budget) =>
      if j.Up? || !IsListing(listing, SurvivingFiles(j.disk, StoredManifest(j.disk, now))) then expired
      else InitializeExpires(j.disk, listing, setup.policy, now, setup.isRun, expired, budget)
  }

  function ExpiredRun(expired: nat, j: Journal, events: seq<Event>, setup: Setup): nat
    decreases |events|
  {
    if events == [] then expired
    else ExpiredRun(Expires(j, events[0], setup, expired), Step(j, events[0], setup), events[1..], setup)
  }

  /** An empty directory is a journal of no lines. */
  lemma NewJournalIsConsistent()
    ensures Consistent(Down(EMPTY_DISK), [], 0)
  {
  }

  lemma StepKeepsConsistency(j: Journal, event: Event, setup: Setup, log: seq<Line>, expired: nat)
    requires Consistent(j, log, expired) && !HitsWindow(j, event, setup)
    ensures expired <= Expires(j, event, setup, expired)
    ensures Consistent(Step(j, event, setup), LogStep(log, j, event, setup), Expires(j, event, setup, expired))
  {
    hide Live, Recoverable, InWindow, AppendExpires, SealExpires, InitializeExpires;
    match event
    case Append(line, now, budget) =>
      if j.Up? && !j.manifest.isSealed {
        AppendIsCrashSafe(j.disk, j.manifest, setup.policy, now, setup.isRun, line, log, expired, budget);
      }
    case Seal(now, budget) =>
      if j.Up? {
        SealIsCrashSafe(j.disk, j.manifest, setup.policy, now, log, expired, budget);
      }
    case Kill =>
      if j.Up? {
        LiveIsRecoverable(j.disk, j.manifest, log, expired);
      }
    case Restart(listing, now, budget) =>
      if j.Down? && IsListing(listing, SurvivingFiles(j.disk, StoredManifest(j.disk, now))) {
        InitializeIsCrashSafe(j.disk, listing, setup.policy, now, setup.isRun, log, expired, budget);
      }
  }

  /** The window that histories avoid is exactly the one on disk: no other step leaves it open. */
  lemma HitsWindowIff(j: Journal, event: Event, setup: Setup, log: seq<Line>, expired: nat)
    requires Consistent(j, log, expired)
    ensures HitsWindow(j, event, setup) <==> InWindow(Step(j, event, setup).disk)
  {
    hide Live, Recoverable, InWindow, AppendExpires, SealExpires, InitializeExpires;
    if HitsWindow(j, event, setup) {
      AppendIsCrashSafe(j.disk, j.manifest, setup.policy, event.now, setup.isRun, event.line, log, expired, event.budget);
    } else {
      hide HitsWindow;
      var r := Step(j, event, setup);
      StepKeepsConsistency(j, event, setup, log, expired);
      hide Step, LogStep, Expires;
      if r.Up? {
        LiveIsRecoverable(r.disk, r.manifest, LogStep(log, j, event, setup), Expires(j, event, setup, expired));
      }
    }
  }

  /** Every history that does not stop inside the rollover window agrees with the plain append-only log. */
  lemma {:induction false} HistoryAgreesWithLog(j: Journal, events: seq<Event>, setup: Setup, log: seq<Line>, expired: nat)
    requires Consistent(j, log, expired) && AvoidsWindow(j, events, setup)
    ensures expired <= ExpiredRun(expired, j, events, setup)
    ensures log <= LogRun(log, j, events, setup)
    ensures Consistent(Run(j, events, setup), LogRun(log, j, events, setup), ExpiredRun(expired, j, events, setup))
    decreases |events|
  {
    hide Consistent, HitsWindow, Expires, Step;
    if events != [] {
      StepKeepsConsistency(j, events[0], setup, log, expired);
      HistoryAgreesWithLog(Step(j, events[0], setup), events[1..], setup, LogStep(log, j, events[0], setup),
                           Expires(j, events[0], setup, expired));
    }
  }

  /** The manifest a step applies retention to, and the file operations left for it; none where no retention is reached. */
  function Pass(j: Journal, event: Event, setup: Setup): Option<(Manifest, nat)> {
    match event
    case Append(line, now, budget) =>
      if j.Down? || j.manifest.isSealed || !ShouldRollover(j.manifest, setup.policy, now) || setup.isRun || budget < 3 then None
      else Some((RolledManifest(j.manifest, ActiveLines(j.disk), now), budget - 3))
    case Seal(now, budget) => if j.Down? || budget < 2 then None else Some((j.manifest.(isSealed := true), budget - 2))
    case Kill => None
    case Restart(listing, now, budget) =>
      if j.Up? || !IsListing(listing, SurvivingFiles(j.disk, StoredManifest(j.disk, now))) then None
      else
        var repaired, first := RepairedManifest(j.disk, listing, now), |StoredManifest(j.disk, now).tombstones|;
        if budget <= first || (setup.isRun && !repaired.isSealed) then None else Some((repaired, budget - first))
  }

  function TimeOf(event: Event): int {
    match event
    case Append(_, now, _) => now
    case Seal(now, _) => now
    case Kill => 0
    case Restart(_, now, _) => now
  }

  /**
    Lines are lost to retention and to nothing else: what a step expires is exactly the oldest sealed segments that
    exceed the policy in turn, as far as their tombstones were written, and nothing at all in a run that is still open.
   */
  lemma OnlyCondemnedExpire(j: Journal, event: Event, setup: Setup, expired: nat)
    ensures match Pass(j, event, setup)
            case None => Expires(j, event, setup, expired) == expired
            case Some((manifest, budget)) =>
              var durable := Tombstoned(Condemned(manifest, setup.policy, TimeOf(event)), budget);
              && Expires(j, event, setup, expired) == EndOf(manifest.segments[..durable], expired)
              && (forall i :: 0 <= i < durable ==> Exceeds(manifest, setup.policy, TimeOf(event), i))
              && (setup.isRun ==> manifest.isSealed)
  {
    if event.Append? && j.Up? {
      RollingKeepsSeal(j.manifest, ActiveLines(j.disk), event.now);
    }
    hide RolledManifest, RepairedManifest, IsListing, Condemned, Tombstoned, Exceeds, ShouldRollover;
  }

  lemma RollingKeepsSeal(manifest: Manifest, lines: seq<Line>, now: int)
    ensures RolledManifest(manifest, lines, now).isSealed == manifest.isSealed
  {
  }

  // ------------------------------------------------------------------ the window

  /** A completed restart brings the running invariant back exactly when the crash missed the window. */
  lemma RestartIsExactOutsideWindow(disk: Disk, listing: seq<nat>, policy: Policy, now: int, isRun: bool,
                                    log: seq<Line>, expired: nat)
    requires Recoverable(disk, log, expired)
    requires IsListing(listing, SurvivingFiles(disk, StoredManifest(disk, now)))
    ensures var plan := InitializePlan(disk, listing, policy, now, isRun);
            (exists expired' :: Live(RunAll(Exec, disk, plan.ops), plan.manifest, log, expired')) <==> !InWindow(disk)
  {
    hide Recoverable, InWindow, RepairedManifest;
    var plan := InitializePlan(disk, listing, policy, now, isRun);
    if InWindow(disk) {
      RepairIsExact(disk, listing, now, log, expired);
      var repaired := RepairedManifest(disk, listing, now);
      RetentionKeepsStart(repaired, policy, now);
      assert plan.manifest.activeStart <= |log|;
      RemovalIsCrashSafe(disk, StoredManifest(disk, now).tombstones, log, expired, 0);
      InitializeKeepsActive(disk, listing, policy, now, isRun);
      WindowIsMisplacedStart(disk, log, expired);
    } else {
      InitializeIsCrashSafe(disk, listing, policy, now, isRun, log, expired, |plan.ops|);
      assert Live(RunAll(Exec, disk, plan.ops), plan.manifest, log,
                  InitializeExpires(disk, listing, policy, now, isRun, expired, |plan.ops|));
    }
  }

  lemma {:induction false} RetentionKeepsStart(manifest: Manifest, policy: Policy, now: int)
    ensures RetentionPlan(manifest, policy, now).manifest.activeStart == manifest.activeStart
    decreases |manifest.segments|
  {
    if ExpiresOldest(manifest, policy, now) {
      RetentionKeepsStart(ClearTombstone(DropOldest(manifest), manifest.segments[0].name), policy, now);
    }
  }

  predicate LeavesActive(ops: seq<FileOp>) {
    forall i :: 0 <= i < |ops| ==> ops[i].RemoveSegment? || ops[i].WriteManifest?
  }

  lemma {:induction false} ActiveIsLeft(disk: Disk, ops: seq<FileOp>)
    requires LeavesActive(ops)
    ensures RunAll(Exec, disk, ops).active == disk.active
    decreases |ops|
  {
    if ops != [] {
      ActiveIsLeft(Exec(disk, ops[0]), ops[1..]);
    }
  }

  lemma {:induction false} RetentionLeavesActive(manifest: Manifest, policy: Policy, now: int)
    ensures LeavesActive(RetentionPlan(manifest, policy, now).ops)
    decreases |manifest.segments|
  {
    if ExpiresOldest(manifest, policy, now) {
      RetentionLeavesActive(ClearTombstone(DropOldest(manifest), manifest.segments[0].name), policy, now);
    }
  }

  lemma {:induction false} RemovalLeavesActive(names: seq<nat>)
    ensures LeavesActive(RemovalOps(names))
    decreases |names|
  {
    if names != [] {
      RemovalLeavesActive(names[1..]);
    }
  }

  lemma InitializeKeepsActive(disk: Disk, listing: seq<nat>, policy: Policy, now: int, isRun: bool)
    requires IsListing(listing, SurvivingFiles(disk, StoredManifest(disk, now)))
    ensures RunAll(Exec, disk, InitializePlan(disk, listing, policy, now, isRun).ops).active == disk.active
  {
    hide RepairedManifest, IsListing, SurvivingFiles, StoredManifest;
    RetentionLeavesActive(RepairedManifest(disk, listing, now), policy, now);
    RemovalLeavesActive(StoredManifest(disk, now).tombstones);
    ActiveIsLeft(disk, InitializePlan(disk, listing, policy, now, isRun).ops);
  }

  const SMALL := Setup(Policy(1, 1000, 10, 1000), true)
  const ONE := Line(1, 0, "a")
  const TWO := Line(2, 0, "b")
  const THREE := Line(3, 0, "c")
  const START := Manifest(2, 1, 1, 0, 2, false, [], [])
  const META := SegmentMeta(1, 1, 1, 0, 2)
  const REPAIRED := Manifest(2, 1, 1, 0, 0, false, [META], [])
  const CUT := Disk(Some([]), map[1 := [ONE]], Some(START))

  lemma OneLineBytes(line: Line)
    ensures TotalBytes([line]) == Bytes(line)
  {
    assert [line][1..] == [];
  }

  lemma RunCons(j: Journal, event: Event, rest: seq<Event>, log: seq<Line>)
    ensures Run(j, [event] + rest, SMALL) == Run(Step(j, event, SMALL), rest, SMALL)
    ensures LogRun(log, j, [event] + rest, SMALL)
         == LogRun(LogStep(log, j, event, SMALL), Step(j, event, SMALL), rest, SMALL)
  {
    assert ([event] + rest)[1..] == rest;
  }

  /** The rollover for the second append stops after three file operations. */
  lemma WindowCut()
    ensures var start := Up(Disk(Some([ONE]), map[], Some(START)), START);
            && Consistent(start, [ONE], 0)
            && HitsWindow(start, Append(TWO, 0, 3), SMALL)
            && Step(start, Append(TWO, 0, 3), SMALL) == Down(CUT)
            && LogStep([ONE], start, Append(TWO, 0, 3), SMALL) == [ONE]
  {
    var disk := Disk(Some([ONE]), map[], Some(START));
    OneLineBytes(ONE);
    var plan := RolloverPlan(disk, START, SMALL.policy, 0, true);
    var tail := [WriteManifest(plan.manifest)] + [AppendLine(TWO.(sequence := plan.manifest.next))];
    assert AppendPlan(disk, START, SMALL.policy, 0, true, TWO).ops
        == [CreateActive] + ([RenameActive(1)] + ([TruncateActive] + tail));
    RunForThree(Exec, disk, CreateActive, RenameActive(1), TruncateActive, tail, 3);
  }

  /** Repair adopts file 1 but leaves the active segment starting at 1. */
  lemma WindowRepair()
    ensures IsListing([1], SurvivingFiles(CUT, START)) && StoredManifest(CUT, 0) == START
    ensures RepairedManifest(CUT, [1], 0) == REPAIRED
  {
    OneLineBytes(ONE);
    assert NameSet([]) == {} && NameSet([1]) == {1};
    assert SurvivingFiles(CUT, START) == CUT.segments;
    assert [1][1..] == [] && [META][..0] == [];
    assert AdoptOrphans(START.(activeByteLen := 0), CUT.segments, [1], 0)
        == AdoptOrphans(REPAIRED, CUT.segments, [1][1..], 0) == REPAIRED;
    assert SortByFirst([META]) == InsertByFirst(SortByFirst([META][..0]), META) == [META];
  }

  lemma WindowRestart()
    ensures Step(Down(CUT), Restart([1], 0, 1), SMALL) == Up(CUT.(manifest := Some(REPAIRED)), REPAIRED)
    ensures LogStep([ONE], Down(CUT), Restart([1], 0, 1), SMALL) == [ONE]
  {
    WindowRepair();
    hide RepairedManifest, IsListing, SurvivingFiles, StoredManifest;
    assert InitializePlan(CUT, [1], SMALL.policy, 0, true).ops == [WriteManifest(REPAIRED)] + [];
    RunForCons(Exec, CUT, WriteManifest(REPAIRED), [], 1);
  }

  /** The retried append finds an empty active segment and does not roll over. */
  lemma WindowRetry()
    ensures Step(Up(CUT.(manifest := Some(REPAIRED)), REPAIRED), Append(TWO, 0, 1), SMALL)
         == Up(Disk(Some([TWO]), CUT.segments, Some(REPAIRED)), Recorded(REPAIRED, TWO))
    ensures LogStep([ONE], Up(CUT.(manifest := Some(REPAIRED)), REPAIRED), Append(TWO, 0, 1), SMALL) == [ONE, TWO]
  {
    var disk := CUT.(manifest := Some(REPAIRED));
    assert AppendPlan(disk, REPAIRED, SMALL.policy, 0, true, TWO).ops == [AppendLine(TWO)] + [];
    RunForCons(Exec, disk, AppendLine(TWO), [], 1);
    assert [] + [TWO] == [TWO];
  }

  /** The next append rolls over on top of the sealed file. */
  lemma WindowOverwrite()
    ensures var before := Up(Disk(Some([TWO]), CUT.segments, Some(REPAIRED)), Recorded(REPAIRED, TWO));
            var end := Step(before, Append(THREE, 0, 5), SMALL);
            && end.Up? && end.disk.active == Some([THREE]) && end.disk.segments == map[1 := [TWO]]
            && LogStep([ONE, TWO], before, Append(THREE, 0, 5), SMALL) == [ONE, TWO, THREE]
  {
    var disk := Disk(Some([TWO]), CUT.segments, Some(REPAIRED));
    var manifest := Recorded(REPAIRED, TWO);
    var rolled := RolloverPlan(disk, manifest, SMALL.policy, 0, true);
    var line := THREE.(sequence := rolled.manifest.next);
    assert line == THREE;
    var tail := [WriteManifest(rolled.manifest)] + ([AppendLine(THREE)] + []);
    assert AppendPlan(disk, manifest, SMALL.policy, 0, true, THREE).ops
        == [CreateActive] + ([RenameActive(1)] + ([TruncateActive] + tail));
    RunForThree(Exec, disk, CreateActive, RenameActive(1), TruncateActive, tail, 5);
    var emptied := Exec(Exec(Exec(disk, CreateActive), RenameActive(1)), TruncateActive);
    assert emptied.segments == map[1 := [TWO]];
    RunForCons(Exec, emptied, WriteManifest(rolled.manifest), [AppendLine(THREE)] + [], 2);
    RunForCons(Exec, Exec(emptied, WriteManifest(rolled.manifest)), AppendLine(THREE), [], 1);
    assert [] + [THREE] == [THREE];
  }

  /**
    The loss the window leads to.  A journal of one line rolls over and the daemon
    dies inside the window; after the restart the next rollover seals under the
    name of the file that already holds line 1, and line 1 is in no file any more.
   */
  lemma WindowLosesALine()
    returns (start: Journal, events: seq<Event>)
    ensures Consistent(start, [ONE], 0) && !AvoidsWindow(start, events, SMALL)
    ensures var end := Run(start, events, SMALL);
            && end.Up? && LogRun([ONE], start, events, SMALL) == [ONE, TWO, THREE]
            && ONE !in ActiveLines(end.disk)
            && forall name :: name in end.disk.segments ==> ONE !in end.disk.segments[name]
  {
    start := Up(Disk(Some([ONE]), map[], Some(START)), START);
    var crash, restart, retry, last := Append(TWO, 0, 3), Restart([1], 0, 1), Append(TWO, 0, 1), Append(THREE, 0, 5);
    WindowCut();
    WindowRestart();
    WindowRetry();
    WindowOverwrite();
    hide Step, LogStep, HitsWindow, Consistent;
    events := [crash] + ([restart] + ([retry] + ([last] + [])));
    RunCons(start, crash, [restart] + ([retry] + ([last] + [])), [ONE]);
    RunCons(Step(start, crash, SMALL), restart, [retry] + ([last] + []), [ONE]);
    var repaired := Up(CUT.(manifest := Some(REPAIRED)), REPAIRED);
    RunCons(repaired, retry, [last] + [], [ONE]);
    RunCons(Step(repaired, retry, SMALL), last, [], [ONE, TWO]);
  }

  // -------------------------------------------------------------------- sealing

  predicate IsSealed(j: Journal) {
    if j.Up? then j.manifest.isSealed && j.disk.manifest.Some? && j.disk.manifest.value.isSealed
    else j.disk.manifest.Some? && j.disk.manifest.value.isSealed
  }

  predicate WritesSealed(ops: seq<FileOp>) {
    forall i :: 0 <= i < |ops| && ops[i].WriteManifest? ==> ops[i].manifest.isSealed
  }

  lemma {:induction false} SealIsKept(disk: Disk, ops: seq<FileOp>, budget: nat)
    requires WritesSealed(ops) && disk.manifest.Some? && disk.manifest.value.isSealed
    ensures var reached := RunFor(Exec, disk, ops, budget); reached.manifest.Some? && reached.manifest.value.isSealed
    decreases |ops|
  {
    if ops != [] && budget > 0 {
      SealIsKept(Exec(disk, ops[0]), ops[1..], budget - 1);
    }
  }

  lemma {:induction false} RetentionWritesSealed(manifest: Manifest, policy: Policy, now: int)
    requires manifest.isSealed
    ensures WritesSealed(RetentionPlan(manifest, policy, now).ops) && RetentionPlan(manifest, policy, now).manifest.isSealed
    decreases |manifest.segments|
  {
    if ExpiresOldest(manifest, policy, now) {
      RetentionWritesSealed(ClearTombstone(DropOldest(manifest), manifest.segments[0].name), policy, now);
    }
  }

  lemma {:induction false} RemovalWritesNothing(names: seq<nat>)
    ensures WritesSealed(RemovalOps(names))
    decreases |names|
  {
    if names != [] {
      RemovalWritesNothing(names[1..]);
    }
  }

  lemma {:induction false} AdoptionKeepsSeal(manifest: Manifest, files: map<nat, seq<Line>>, listing: seq<nat>, now: int)
    requires forall name :: name in listing ==> name in files
    ensures AdoptOrphans(manifest, files, listing, now).isSealed == manifest.isSealed
    decreases |listing|
  {
    if listing != [] {
      var name := listing[0];
      var lines := files[name];
      if Listed(manifest.segments, name) || lines == [] {
        AdoptionKeepsSeal(manifest, files, listing[1..], now);
      } else {
        AdoptionKeepsSeal(NoteLast(manifest.(segments := manifest.segments + [OrphanMeta(name, lines, now)]),
                                   lines[|lines| - 1].sequence), files, listing[1..], now);
      }
    }
  }

  lemma RestartKeepsSeal(disk: Disk, listing: seq<nat>, setup: Setup, now: int, budget: nat)
    requires IsSealed(Down(disk)) && IsListing(listing, SurvivingFiles(disk, StoredManifest(disk, now)))
    ensures IsSealed(Stopped(disk, InitializePlan(disk, listing, setup.policy, now, setup.isRun), budget))
  {
    var stored := disk.manifest.value;
    var files := SurvivingFiles(disk, stored);
    assert forall name :: name in listing ==> name in NameSet(listing);
    AdoptionKeepsSeal(NoteActive(stored.(tombstones := []), ActiveLines(disk)), files, listing, now);
    var repaired := RepairedManifest(disk, listing, now);
    assert repaired.isSealed;
    hide RepairedManifest, AdoptOrphans, SurvivingFiles, IsListing;
    RetentionWritesSealed(repaired, setup.policy, now);
    RemovalWritesNothing(stored.tombstones);
    SealIsKept(disk, InitializePlan(disk, listing, setup.policy, now, setup.isRun).ops, budget);
  }

  /** Once a seal has been acknowledged no history, with any crashes and restarts, appends another line. */
  lemma {:induction false} SealedForever(j: Journal, events: seq<Event>, setup: Setup, log: seq<Line>)
    requires IsSealed(j)
    ensures IsSealed(Run(j, events, setup)) && LogRun(log, j, events, setup) == log
    decreases |events|
  {
    if events != [] {
      var event := events[0];
      if event.Seal? && j.Up? {
        RetentionWritesSealed(j.manifest.(isSealed := true), setup.policy, event.now);
        SealIsKept(j.disk, SealPlan(j.manifest, setup.policy, event.now).ops, event.budget);
      } else if event.Restart? && j.Down? && IsListing(event.listing, SurvivingFiles(j.disk, StoredManifest(j.disk, event.now))) {
        RestartKeepsSeal(j.disk, event.listing, setup, event.now, event.budget);
      }
      assert IsSealed(Step(j, event, setup));
      SealedForever(Step(j, event, setup), events[1..], setup, log);
    }
  }

  /** A seal that completes seals, whatever the journal held. */
  lemma SealTakesEffect(j: Journal, setup: Setup, now: int, budget: nat, log: seq<Line>, expired: nat)
    requires j.Up? && Consistent(j, log, expired)
    requires |SealPlan(j.manifest, setup.policy, now).ops| <= budget
    ensures IsSealed(Step(j, Seal(now, budget), setup)) && Step(j, Seal(now, budget), setup).Up?
  {
    SealIsCrashSafe(j.disk, j.manifest, setup.policy, now, log, expired, budget);
    RetentionWritesSealed(j.manifest.(isSealed := true), setup.policy, now);
  }

  // ------------------------------------------------------------------ open runs

  predicate IsOpenDisk(disk: Disk) {
    disk.manifest.Some? ==> !disk.manifest.value.isSealed
  }

  predicate IsOpen(j: Journal) {
    IsOpenDisk(j.disk) && (j.Up? ==> !j.manifest.isSealed)
  }

  predicate WritesOpen(ops: seq<FileOp>) {
    forall i :: 0 <= i < |ops| && ops[i].WriteManifest? ==> !ops[i].manifest.isSealed
  }

  lemma {:induction false} OpenIsKept(disk: Disk, ops: seq<FileOp>, budget: nat)
    requires WritesOpen(ops) && IsOpenDisk(disk)
    ensures IsOpenDisk(RunFor(Exec, disk, ops, budget))
    decreases |ops|
  {
    if ops != [] && budget > 0 {
      OpenIsKept(Exec(disk, ops[0]), ops[1..], budget - 1);
    }
  }

  lemma AppendWritesOpen(disk: Disk, manifest: Manifest, policy: Policy, now: int, line: Line)
    requires !manifest.isSealed
    ensures var plan := AppendPlan(disk, manifest, policy, now, true, line); WritesOpen(plan.ops) && !plan.manifest.isSealed
  {
    if ShouldRollover(manifest, policy, now) {
      var rolled := RolloverPlan(disk, manifest, policy, now, true);
      assert rolled.ops == RolloverHead(manifest, ActiveLines(disk)) + ([] + [WriteManifest(rolled.manifest)]);
      assert WritesOpen(RolloverHead(manifest, ActiveLines(disk)));
    }
  }

  lemma RestartWritesOpen(disk: Disk, listing: seq<nat>, policy: Policy, now: int)
    requires IsOpenDisk(disk) && IsListing(listing, SurvivingFiles(disk, StoredManifest(disk, now)))
    ensures var plan := InitializePlan(disk, listing, policy, now, true); WritesOpen(plan.ops) && !plan.manifest.isSealed
  {
    var stored := StoredManifest(disk, now);
    var files := SurvivingFiles(disk, stored);
    assert forall name :: name in listing ==> name in NameSet(listing);
    AdoptionKeepsSeal(NoteActive(stored.(tombstones := []), ActiveLines(disk)), files, listing, now);
    assert !RepairedManifest(disk, listing, now).isSealed;
    hide RepairedManifest, AdoptOrphans, SurvivingFiles, IsListing, RetentionPlan;
    RemovalWritesOpen(stored.tombstones);
  }

  lemma {:induction false} RemovalWritesOpen(names: seq<nat>)
    ensures WritesOpen(RemovalOps(names))
    decreases |names|
  {
    if names != [] {
      RemovalWritesOpen(names[1..]);
    }
  }

  lemma OpenStays(j: Journal, event: Event, setup: Setup, expired: nat)
    requires IsOpen(j) && setup.isRun && !event.Seal?
    ensures IsOpen(Step(j, event, setup)) && Expires(j, event, setup, expired) == expired
  {
    match event
    case Append(line, now, budget) =>
      if j.Up? {
        AppendWritesOpen(j.disk, j.manifest, setup.policy, now, line);
        OpenIsKept(j.disk, AppendPlan(j.disk, j.manifest, setup.policy, now, true, line).ops, budget);
        hide AppendPlan, ShouldRollover, RunFor;
      }
    case Restart(listing, now, budget) =>
      if j.Down? && IsListing(listing, SurvivingFiles(j.disk, StoredManifest(j.disk, now))) {
        RestartWritesOpen(j.disk, listing, setup.policy, now);
        OpenIsKept(j.disk, InitializePlan(j.disk, listing, setup.policy, now, true).ops, budget);
        RestartExpiresNothing(j.disk, listing, setup.policy, now, expired, budget);
        hide InitializePlan, RunFor, InitializeExpires;
      }
    case Kill =>
  }

  lemma RestartExpiresNothing(disk: Disk, listing: seq<nat>, policy: Policy, now: int, expired: nat, budget: nat)
    requires IsOpenDisk(disk) && IsListing(listing, SurvivingFiles(disk, StoredManifest(disk, now)))
    ensures InitializeExpires(disk, listing, policy, now, true, expired, budget) == expired
  {
    RestartWritesOpen(disk, listing, policy, now);
    hide RepairedManifest, SurvivingFiles, IsListing, RetentionPlan, ExpiredBy;
    if RepairedManifest(disk, listing, now).isSealed {
      RetentionWritesSealed(RepairedManifest(disk, listing, now), policy, now);
    }
  }

  /** Until it is sealed a run's journal gives up no line, whatever the policy, crashes and restarts. */
  lemma {:induction false} OpenRunKeepsEverything(j: Journal, events: seq<Event>, setup: Setup, expired: nat)
    requires IsOpen(j) && setup.isRun && forall i :: 0 <= i < |events| ==> !events[i].Seal?
    ensures IsOpen(Run(j, events, setup)) && ExpiredRun(expired, j, events, setup) == expired
    decreases |events|
  {
    hide Step, Expires, IsOpen;
    if events != [] {
      OpenStays(j, events[0], setup, expired);
      assert forall i :: 0 <= i < |events[1..]| ==> events[1..][i] == events[i + 1];
      OpenRunKeepsEverything(Step(j, events[0], setup), events[1..], setup, expired);
    }
  }
}
