/**
  When a journal opens a new active segment, read off the lines on disk: an append seals
  the active lines exactly when they fill the segment or it is old.
 */
module LogRollover {
  import opened Options
  import opened Crashes
  import opened LogFiles
  import opened LogInvariant
  import opened LogRetention
  import opened LogRecovery
  import opened LogHistory

  /** The active file holds lines, and they fill the segment or it was opened too long ago. */
  predicate IsFullOrOld(disk: Disk, manifest: Manifest, policy: Policy, now: int) {
    && ActiveLines(disk) != []
    && (TotalBytes(ActiveLines(disk)) >= policy.maxSegmentBytes || now - manifest.activeCreatedAt >= policy.maxSegmentAge)
  }

  lemma HasBytesIff(lines: seq<Line>)
    ensures TotalBytes(lines) > 0 <==> lines != []
  {
  }

  lemma RollsOverIff(disk: Disk, manifest: Manifest, policy: Policy, now: int, log: seq<Line>, expired: nat)
    requires Live(disk, manifest, log, expired)
    ensures ShouldRollover(manifest, policy, now) <==> IsFullOrOld(disk, manifest, policy, now)
  {
    HasBytesIff(ActiveLines(disk));
    hide Tiles, WellNumbered, Listed, TotalBytes;
  }

  /** An append to a segment that is empty, or neither full nor old, is one file operation and touches nothing sealed. */
  lemma AppendsInPlace(disk: Disk, manifest: Manifest, policy: Policy, now: int, isRun: bool, line: Line, log: seq<Line>, expired: nat)
    requires Live(disk, manifest, log, expired) && !IsFullOrOld(disk, manifest, policy, now)
    ensures var plan, numbered := AppendPlan(disk, manifest, policy, now, isRun, line), line.(sequence := |log| + 1);
            && plan.ops == [AppendLine(numbered)]
            && RunAll(Exec, disk, plan.ops) == disk.(active := Some(ActiveLines(disk) + [numbered]))
            && plan.manifest.segments == manifest.segments && plan.manifest.activeCreatedAt == manifest.activeCreatedAt
  {
    RollsOverIff(disk, manifest, policy, now, log, expired);
    LiveNumbersNext(disk, manifest, log, expired);
    RunAllOne(Exec, disk, AppendLine(line.(sequence := |log| + 1)));
    hide Live, ShouldRollover, RunAll;
  }

  /**
    An append to a segment that is full or old seals its lines, whatever retention then gives up of the oldest ones, and
    puts the new line alone into an active segment that is opened now; a run that is still open gives up none.
   */
  lemma AppendRollsOver(disk: Disk, manifest: Manifest, policy: Policy, now: int, isRun: bool, line: Line, log: seq<Line>, expired: nat)
    requires Live(disk, manifest, log, expired) && IsFullOrOld(disk, manifest, policy, now)
    ensures var plan, numbered := AppendPlan(disk, manifest, policy, now, isRun, line), line.(sequence := |log| + 1);
            var lines, start := ActiveLines(disk), manifest.activeStart;
            var all := manifest.segments + [SegmentMeta(start, start, |log|, now, TotalBytes(lines))];
            var r, gone := RunAll(Exec, disk, plan.ops), |all| - |plan.manifest.segments|;
            && r.active == Some([numbered]) && plan.manifest.activeCreatedAt == now && plan.manifest.activeStart == |log| + 1
            && gone >= 0 && plan.manifest.segments == all[gone..] && (isRun && !manifest.isSealed ==> gone == 0)
            && (gone <= |manifest.segments| ==> start in r.segments && r.segments[start] == lines)
  {
    RollsOverIff(disk, manifest, policy, now, log, expired);
    hide *;
    HasLines(disk, manifest, policy, now);
    RolledPlan(disk, manifest, policy, now, isRun, line, log, expired);
    ActiveAfterAppend(disk, manifest, policy, now, isRun, line, log, expired);
    var plan := AppendPlan(disk, manifest, policy, now, isRun, line);
    if plan.manifest.segments != [] {
      SealedFileIsKept(disk, manifest, policy, now, isRun, line, log, expired);
    }
  }

  lemma HasLines(disk: Disk, manifest: Manifest, policy: Policy, now: int)
    requires IsFullOrOld(disk, manifest, policy, now)
    ensures ActiveLines(disk) != []
  {
  }

  lemma RolledPlan(disk: Disk, manifest: Manifest, policy: Policy, now: int, isRun: bool, line: Line, log: seq<Line>, expired: nat)
    requires Live(disk, manifest, log, expired) && ActiveLines(disk) != [] && ShouldRollover(manifest, policy, now)
    ensures var plan, numbered := AppendPlan(disk, manifest, policy, now, isRun, line), line.(sequence := |log| + 1);
            var lines, start := ActiveLines(disk), manifest.activeStart;
            var all := manifest.segments + [SegmentMeta(start, start, |log|, now, TotalBytes(lines))];
            var gone := |all| - |plan.manifest.segments|;
            && plan.manifest.activeCreatedAt == now && plan.manifest.activeStart == |log| + 1
            && gone >= 0 && plan.manifest.segments == all[gone..] && (isRun && !manifest.isSealed ==> gone == 0)
            && plan.ops == RolloverPlan(disk, manifest, policy, now, isRun).ops + [AppendLine(numbered)]
  {
    RolloverShape(disk, manifest, now, log, expired);
    LiveNumbersNext(disk, manifest, log, expired);
    NoTombstonesWhenLive(disk, manifest, log, expired);
    RetentionKeepsNumbers(RolledManifest(manifest, ActiveLines(disk), now), policy, now);
    hide Live, ShouldRollover, RolledManifest, RetentionPlan, RolloverHead, TotalBytes;
  }

  lemma NoTombstonesWhenLive(disk: Disk, manifest: Manifest, log: seq<Line>, expired: nat)
    requires Live(disk, manifest, log, expired)
    ensures manifest.tombstones == []
  {
    hide Tiles, WellNumbered, Listed, TotalBytes;
  }

  lemma LiveAfterAppend(disk: Disk, manifest: Manifest, policy: Policy, now: int, isRun: bool, line: Line, log: seq<Line>, expired: nat)
    returns (expired': nat)
    requires Live(disk, manifest, log, expired) && ActiveLines(disk) != [] && ShouldRollover(manifest, policy, now)
    ensures var plan := AppendPlan(disk, manifest, policy, now, isRun, line);
            |plan.ops| != 3 && Live(RunAll(Exec, disk, plan.ops), plan.manifest, log + [line.(sequence := |log| + 1)], expired')
  {
    var plan := AppendPlan(disk, manifest, policy, now, isRun, line);
    RolloverIsCrashSafe(disk, manifest, policy, now, isRun, log, expired, 0);
    expired' := AppendExpires(disk, manifest, policy, now, isRun, expired, |plan.ops|);
    hide Live, RolloverPlan, RolloverExpires, AppendExpires, ShouldRollover, Recoverable, InWindow;
    AppendIsCrashSafe(disk, manifest, policy, now, isRun, line, log, expired, |plan.ops|);
  }

  lemma ActiveAfterAppend(disk: Disk, manifest: Manifest, policy: Policy, now: int, isRun: bool, line: Line, log: seq<Line>, expired: nat)
    requires Live(disk, manifest, log, expired) && ActiveLines(disk) != [] && ShouldRollover(manifest, policy, now)
    ensures RunAll(Exec, disk, AppendPlan(disk, manifest, policy, now, isRun, line).ops).active == Some([line.(sequence := |log| + 1)])
  {
    hide *;
    var plan, numbered := AppendPlan(disk, manifest, policy, now, isRun, line), line.(sequence := |log| + 1);
    var expired' := LiveAfterAppend(disk, manifest, policy, now, isRun, line, log, expired);
    RolledPlan(disk, manifest, policy, now, isRun, line, log, expired);
    ActiveFromStart(RunAll(Exec, disk, plan.ops), plan.manifest, log, numbered, expired');
  }

  lemma ActiveFromStart(r: Disk, manifest: Manifest, log: seq<Line>, line: Line, expired: nat)
    requires Live(r, manifest, log + [line], expired) && manifest.activeStart == |log| + 1
    ensures r.active == Some([line]) && SealedEnd(r, log + [line]) == |log|
  {
    hide Tiles, WellNumbered, Listed, TotalBytes;
  }

  lemma {:induction false} LastTile(files: map<nat, seq<Line>>, segments: seq<SegmentMeta>, from: nat, to: nat, log: seq<Line>)
    requires Tiles(files, segments, from, to, log) && segments != []
    ensures var s := segments[|segments| - 1]; 0 < s.name <= s.last == to <= |log| && s.name in files && files[s.name] == log[s.name - 1..s.last]
    decreases |segments|
  {
    if |segments| > 1 {
      LastTile(files, segments[1..], segments[0].last, to, log);
    }
  }

  /** The file of the segment the append sealed, if retention left any segment. */
  lemma SealedFileIsKept(disk: Disk, manifest: Manifest, policy: Policy, now: int, isRun: bool, line: Line, log: seq<Line>, expired: nat)
    requires Live(disk, manifest, log, expired) && ActiveLines(disk) != [] && ShouldRollover(manifest, policy, now)
    requires AppendPlan(disk, manifest, policy, now, isRun, line).manifest.segments != []
    ensures var r, start := RunAll(Exec, disk, AppendPlan(disk, manifest, policy, now, isRun, line).ops), manifest.activeStart;
            start in r.segments && r.segments[start] == ActiveLines(disk)
  {
    hide *;
    var plan, log' := AppendPlan(disk, manifest, policy, now, isRun, line), log + [line.(sequence := |log| + 1)];
    var r, segments := RunAll(Exec, disk, plan.ops), plan.manifest.segments;
    var expired' := LiveAfterAppend(disk, manifest, policy, now, isRun, line, log, expired);
    RolledPlan(disk, manifest, policy, now, isRun, line, log, expired);
    LiveTiles(r, plan.manifest, log', expired');
    LastTile(r.segments, segments, expired', SealedEnd(r, log'), log');
    ActiveFromStart(r, plan.manifest, log, line.(sequence := |log| + 1), expired');
    ActiveIsTheTail(disk, manifest, log, expired);
    assert segments[|segments| - 1].name == manifest.activeStart;
    assert log'[manifest.activeStart - 1..|log|] == log[manifest.activeStart - 1..];
  }

  lemma ActiveIsTheTail(disk: Disk, manifest: Manifest, log: seq<Line>, expired: nat)
    requires Live(disk, manifest, log, expired)
    ensures 0 < manifest.activeStart <= |log| + 1 && ActiveLines(disk) == log[manifest.activeStart - 1..]
  {
    hide Tiles, WellNumbered, Listed, TotalBytes;
  }

  // ------------------------------------------------------------------- over histories

  predicate SealsNothing(ops: seq<FileOp>) {
    forall i :: 0 <= i < |ops| ==> !ops[i].RenameActive?
  }

  lemma {:induction false} NoNewSegments(disk: Disk, ops: seq<FileOp>, budget: nat)
    requires SealsNothing(ops)
    ensures RunFor(Exec, disk, ops, budget).segments.Keys <= disk.segments.Keys
    decreases |ops|
  {
    if ops != [] && budget > 0 {
      NoNewSegments(Exec(disk, ops[0]), ops[1..], budget - 1);
    }
  }

  lemma {:induction false} RetentionSealsNothing(manifest: Manifest, policy: Policy, now: int)
    ensures SealsNothing(RetentionPlan(manifest, policy, now).ops)
  {
    RetentionLeavesActive(manifest, policy, now);
  }

  lemma {:induction false} RemovalSealsNothing(names: seq<nat>)
    ensures SealsNothing(RemovalOps(names))
  {
    RemovalLeavesActive(names);
  }

  /** The files a rollover adds, wherever it stops: only the one its active lines go to. */
  lemma OnlyActiveIsSealed(disk: Disk, manifest: Manifest, policy: Policy, now: int, isRun: bool, line: Line, budget: nat)
    requires ActiveLines(disk) != [] && ShouldRollover(manifest, policy, now)
    ensures RunFor(Exec, disk, AppendPlan(disk, manifest, policy, now, isRun, line).ops, budget).segments.Keys
         <= disk.segments.Keys + {manifest.activeStart}
  {
    var rolled := RolloverPlan(disk, manifest, policy, now, isRun);
    var kept := RetainIfOwned(RolledManifest(manifest, ActiveLines(disk), now), policy, now, isRun);
    var numbered := line.(sequence := rolled.manifest.next);
    var tail := [TruncateActive] + (kept.ops + ([WriteManifest(kept.manifest)] + [AppendLine(numbered)]));
    var head := [CreateActive] + [RenameActive(manifest.activeStart)];
    assert AppendPlan(disk, manifest, policy, now, isRun, line).ops == head + tail;
    RetentionSealsNothing(RolledManifest(manifest, ActiveLines(disk), now), policy, now);
    hide RetentionPlan, RolledManifest, ShouldRollover;
    assert SealsNothing(tail);
    RunForConcat(Exec, disk, head, tail, budget);
    HeadSeals(disk, manifest.activeStart, budget);
    HeadSeals(disk, manifest.activeStart, 2);
    if budget > 2 {
      NoNewSegments(RunAll(Exec, disk, head), tail, budget - 2);
    }
  }

  lemma HeadSeals(disk: Disk, start: nat, budget: nat)
    ensures RunFor(Exec, disk, [CreateActive] + [RenameActive(start)], budget).segments.Keys <= disk.segments.Keys + {start}
  {
    RunForCons(Exec, disk, CreateActive, [RenameActive(start)], budget);
    assert [RenameActive(start)][1..] == [];
  }

  lemma PlanSealsNothing(disk: Disk, manifest: Manifest, listing: seq<nat>, policy: Policy, now: int, isRun: bool)
    ensures SealsNothing(SealPlan(manifest, policy, now).ops)
    ensures IsListing(listing, SurvivingFiles(disk, StoredManifest(disk, now))) ==>
              SealsNothing(InitializePlan(disk, listing, policy, now, isRun).ops)
  {
    RetentionSealsNothing(manifest.(isSealed := true), policy, now);
    RemovalSealsNothing(StoredManifest(disk, now).tombstones);
    if IsListing(listing, SurvivingFiles(disk, StoredManifest(disk, now))) {
      RetentionSealsNothing(RepairedManifest(disk, listing, now), policy, now);
    }
    hide RetentionPlan, RepairedManifest, StoredManifest, IsListing, SurvivingFiles;
  }

  /**
    Whatever has happened before, outside the window: a file that appears among the sealed ones, wherever its step
    stops, holds the active lines of an append to a segment that was full or old.
   */
  lemma SealedWasFullOrOld(j: Journal, events: seq<Event>, setup: Setup, log: seq<Line>, expired: nat, event: Event, name: nat)
    requires Consistent(j, log, expired) && AvoidsWindow(j, events, setup)
    requires var before := Run(j, events, setup);
             name in Step(before, event, setup).disk.segments && name !in before.disk.segments
    ensures var before := Run(j, events, setup);
            && event.Append? && before.Up? && name == before.manifest.activeStart
            && IsFullOrOld(before.disk, before.manifest, setup.policy, event.now)
  {
    var before := Run(j, events, setup);
    HistoryAgreesWithLog(j, events, setup, log, expired);
    var log', expired' := LogRun(log, j, events, setup), ExpiredRun(expired, j, events, setup);
    hide Run, LogRun, ExpiredRun, AvoidsWindow;
    match event
    case Append(line, now, budget) => AppendSealsOne(before, line, now, budget, setup, log', expired', name);
    case Seal(now, budget) =>
      if before.Up? {
        PlanSealsNothing(before.disk, before.manifest, [], setup.policy, now, setup.isRun);
        NoNewSegments(before.disk, SealPlan(before.manifest, setup.policy, now).ops, budget);
      }
    case Kill =>
    case Restart(listing, now, budget) =>
      if before.Down? && IsListing(listing, SurvivingFiles(before.disk, StoredManifest(before.disk, now))) {
        PlanSealsNothing(before.disk, EmptyManifest(now), listing, setup.policy, now, setup.isRun);
        NoNewSegments(before.disk, InitializePlan(before.disk, listing, setup.policy, now, setup.isRun).ops, budget);
      }
  }

  lemma AppendSealsOne(j: Journal, line: Line, now: int, budget: nat, setup: Setup, log: seq<Line>, expired: nat, name: nat)
    requires Consistent(j, log, expired)
    requires name in Step(j, Append(line, now, budget), setup).disk.segments && name !in j.disk.segments
    ensures j.Up? && name == j.manifest.activeStart && IsFullOrOld(j.disk, j.manifest, setup.policy, now)
  {
    hide Live, Recoverable, InWindow, IsFullOrOld, ShouldRollover, RunFor;
    if j.Up? && !j.manifest.isSealed {
      var ops := AppendPlan(j.disk, j.manifest, setup.policy, now, setup.isRun, line).ops;
      RollsOverIff(j.disk, j.manifest, setup.policy, now, log, expired);
      if IsFullOrOld(j.disk, j.manifest, setup.policy, now) {
        HasLines(j.disk, j.manifest, setup.policy, now);
        OnlyActiveIsSealed(j.disk, j.manifest, setup.policy, now, setup.isRun, line, budget);
      } else {
        AppendsInPlace(j.disk, j.manifest, setup.policy, now, setup.isRun, line, log, expired);
        NoNewSegments(j.disk, ops, budget);
      }
    }
  }

  // ------------------------------------------------------------------- ages after a restart

  lemma {:induction false} SortingAddsNothing(segments: seq<SegmentMeta>, meta: SegmentMeta)
    requires meta in SortByFirst(segments)
    ensures meta in segments
    decreases |segments|
  {
    var front, last := segments[..|segments| - 1], segments[|segments| - 1];
    InsertingAddsOne(SortByFirst(front), last, meta);
    if meta in SortByFirst(front) {
      SortingAddsNothing(front, meta);
    }
  }

  lemma {:induction false} InsertingAddsOne(segments: seq<SegmentMeta>, added: SegmentMeta, meta: SegmentMeta)
    requires meta in InsertByFirst(segments, added)
    ensures meta in segments || meta == added
    decreases |segments|
  {
    if segments != [] && segments[|segments| - 1].first > added.first && meta != segments[|segments| - 1] {
      InsertingAddsOne(segments[..|segments| - 1], added, meta);
    }
  }

  lemma {:induction false} AdoptedAreSealedNow(manifest: Manifest, files: map<nat, seq<Line>>, listing: seq<nat>, now: int)
    requires forall name :: name in listing ==> name in files
    ensures var r := AdoptOrphans(manifest, files, listing, now);
            && (forall meta :: meta in r.segments ==> meta in manifest.segments || meta.sealedAt == now)
            && r.activeCreatedAt == manifest.activeCreatedAt
    decreases |listing|
  {
    if listing != [] {
      var name, lines := listing[0], files[listing[0]];
      if Listed(manifest.segments, name) || lines == [] {
        AdoptedAreSealedNow(manifest, files, listing[1..], now);
      } else {
        AdoptedAreSealedNow(NoteLast(manifest.(segments := manifest.segments + [OrphanMeta(name, lines, now)]),
                                     lines[|lines| - 1].sequence), files, listing[1..], now);
      }
    }
  }

  /**
    The ages a restart works with: listed segments keep theirs, adopted ones are sealed now; the active segment keeps its
    own, is as old as its first line if the manifest is lost, and is opened now if its file or all its lines are missing.
   */
  lemma RepairedAges(disk: Disk, listing: seq<nat>, now: int)
    requires IsListing(listing, SurvivingFiles(disk, StoredManifest(disk, now)))
    ensures var r, lines := RepairedManifest(disk, listing, now), ActiveLines(disk);
            && (forall meta :: meta in r.segments ==>
                  (disk.manifest.Some? && meta in disk.manifest.value.segments) || meta.sealedAt == now)
            && (disk.active.Some? && disk.manifest.Some? ==> r.activeCreatedAt == disk.manifest.value.activeCreatedAt)
            && (disk.active.Some? && disk.manifest.None? ==> r.activeCreatedAt == if lines == [] then now else lines[0].timestamp)
            && (disk.active.None? ==> r.activeCreatedAt == now)
  {
    var stored := StoredManifest(disk, now);
    var files := SurvivingFiles(disk, stored);
    assert forall name :: name in listing ==> name in NameSet(listing);
    var noted := NoteActive(stored.(tombstones := []), ActiveLines(disk));
    assert noted.segments == stored.segments && noted.activeCreatedAt == stored.activeCreatedAt;
    AdoptedAreSealedNow(noted, files, listing, now);
    var adopted := AdoptOrphans(noted, files, listing, now);
    hide AdoptOrphans, SurvivingFiles, IsListing;
    forall meta | meta in SortByFirst(adopted.segments) ensures meta in adopted.segments {
      SortingAddsNothing(adopted.segments, meta);
    }
  }
}
