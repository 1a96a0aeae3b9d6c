/**
  Crash safety of the log journal: whatever file operation of retention,
  rollover, append, seal or restart repair the daemon stops at, the files stay
  recoverable, and a completed restart brings back the exact invariant.
 */
module LogRecovery {
  import opened Options
  import opened Crashes
  import opened LogFiles
  import opened LogInvariant
  import opened LogRetention

  // ----------------------------------------------------------------- rollover

  function RolloverDisk(disk: Disk, start: nat): Disk {
    Exec(Exec(Exec(disk, CreateActive), RenameActive(start)), TruncateActive)
  }

  lemma RolloverRenamed(disk: Disk, manifest: Manifest, log: seq<Line>, expired: nat)
    requires Live(disk, manifest, log, expired) && ActiveLines(disk) != []
    ensures Exec(disk, CreateActive) == disk
    ensures var renamed := Exec(disk, RenameActive(manifest.activeStart));
            Recoverable(renamed, log, expired) && !InWindow(renamed)
  {
    MemoryNames(disk, manifest, log, expired);
    var renamed := Exec(disk, RenameActive(manifest.activeStart));
    var stored := disk.manifest.value;
    assert SealedEnd(renamed, log) == |log|;
    TilesFrame(disk.segments, renamed.segments, stored.segments, expired, SealedEnd(disk, log), log, log);
    assert ActiveIsTail(renamed, log);
  }

  /** The files and the manifest once the old segment is sealed and the new active file is empty. */
  lemma RolloverShape(disk: Disk, manifest: Manifest, now: int, log: seq<Line>, expired: nat)
    requires Live(disk, manifest, log, expired) && ActiveLines(disk) != []
    ensures var lines, start := ActiveLines(disk), manifest.activeStart;
            var emptied, rolled := RolloverDisk(disk, start), RolledManifest(manifest, lines, now);
            var meta := SegmentMeta(start, start, |log|, now, manifest.activeByteLen);
            && emptied == disk.(active := Some([]), segments := disk.segments[start := lines])
            && rolled == manifest.(segments := manifest.segments + [meta], activeStart := |log| + 1, activeCreatedAt := now, activeByteLen := 0)
            && start == SealedEnd(disk, log) + 1 <= |log| && start !in disk.segments
            && lines == log[start - 1..|log|] && manifest.activeByteLen == TotalBytes(lines)
            && expired < start && WellNumbered(log) && SealedEnd(emptied, log) == |log| && ActiveIsTail(emptied, log)
  {
    MemoryNames(disk, manifest, log, expired);
    hide Tiles, TotalBytes, Listed;
    var lines := ActiveLines(disk);
    assert lines[0].sequence == manifest.activeStart && lines[|lines| - 1].sequence == |log|;
    assert log[|log|..] == [];
  }

  lemma RolloverTiles(disk: Disk, manifest: Manifest, now: int, log: seq<Line>, expired: nat)
    requires Live(disk, manifest, log, expired) && ActiveLines(disk) != []
    ensures var emptied, end := RolloverDisk(disk, manifest.activeStart), SealedEnd(disk, log);
            var rolled := RolledManifest(manifest, ActiveLines(disk), now);
            && Tiles(emptied.segments, manifest.segments, expired, end, log)
            && Tiles(emptied.segments, rolled.segments, expired, |log|, log)
            && (forall name :: name in emptied.segments <==> name == manifest.activeStart || name in disk.segments)
            && (forall name :: name in emptied.segments ==> Listed(rolled.segments, name))
  {
    RolloverShape(disk, manifest, now, log, expired);
    LiveTiles(disk, manifest, log, expired);
    hide *;
    var start, end := manifest.activeStart, SealedEnd(disk, log);
    var files := disk.segments[start := ActiveLines(disk)];
    var meta := SegmentMeta(start, start, |log|, now, manifest.activeByteLen);
    TilesFrame(disk.segments, files, manifest.segments, expired, end, log, log);
    TilesExtend(files, manifest.segments, meta, expired, end, log);
    forall name | name in files ensures Listed(manifest.segments + [meta], name) {
      ListedExtend(manifest.segments, meta, name);
    }
  }

  lemma LiveTiles(disk: Disk, manifest: Manifest, log: seq<Line>, expired: nat)
    requires Live(disk, manifest, log, expired)
    ensures Tiles(disk.segments, manifest.segments, expired, SealedEnd(disk, log), log)
    ensures EndOf(manifest.segments, expired) == SealedEnd(disk, log)
    ensures forall name :: name in disk.segments ==> Listed(manifest.segments, name) && expired < name <= SealedEnd(disk, log)
    ensures forall name: nat :: Listed(manifest.segments, name) ==> name in disk.segments && name <= SealedEnd(disk, log)
    ensures disk.manifest.Some? && disk.manifest.value.segments == manifest.segments && disk.manifest.value.tombstones == []
    ensures disk.manifest.value.activeStart == manifest.activeStart && StoredNumbers(disk.manifest.value, log, expired)
    ensures manifest.tombstones == [] && manifest.high == |log| && manifest.next == |log| + 1
  {
    MemoryNames(disk, manifest, log, expired);
    TilesBounds(disk.segments, manifest.segments, expired, SealedEnd(disk, log), log);
    hide Tiles, Listed;
  }

  lemma RolloverTruncated(disk: Disk, manifest: Manifest, now: int, log: seq<Line>, expired: nat)
    requires Live(disk, manifest, log, expired) && ActiveLines(disk) != []
    ensures var emptied := RolloverDisk(disk, manifest.activeStart);
            && Recoverable(emptied, log, expired) && InWindow(emptied)
            && MemoryShape(emptied, RolledManifest(manifest, ActiveLines(disk), now), log, expired)
  {
    RolloverShape(disk, manifest, now, log, expired);
    RolloverTiles(disk, manifest, now, log, expired);
    LiveTiles(disk, manifest, log, expired);
    hide Tiles, Listed, Live, WellNumbered, ActiveIsTail, SealedEnd, RolloverDisk, RolledManifest, StoredNumbers, EndOf;
  }

  ghost predicate RolloverOutcome(reached: Disk, plan: Plan, budget: nat, log: seq<Line>, expired: nat) {
    && Recoverable(reached, log, expired)
    && (InWindow(reached) <==> budget == 3)
    && (|plan.ops| <= budget ==> Live(reached, plan.manifest, log, expired))
  }

  /** A rollover expires lines only in the retention that follows its three file operations. */
  function RolloverExpires(disk: Disk, manifest: Manifest, policy: Policy, now: int, isRun: bool, expired: nat, budget: nat): nat {
    if budget < 3 then expired
    else CommitExpires(RolledManifest(manifest, ActiveLines(disk), now), policy, now, isRun, expired, budget - 3)
  }

  /** A rollover may be cut anywhere; the window is open after exactly three of its file operations. */
  lemma RolloverIsCrashSafe(disk: Disk, manifest: Manifest, policy: Policy, now: int, isRun: bool,
                            log: seq<Line>, expired: nat, budget: nat)
    requires Live(disk, manifest, log, expired) && ActiveLines(disk) != []
    ensures var plan, expired' := RolloverPlan(disk, manifest, policy, now, isRun), RolloverExpires(disk, manifest, policy, now, isRun, expired, budget);
            && expired <= expired'
            && |plan.ops| > 3 && RolloverOutcome(RunFor(Exec, disk, plan.ops, budget), plan, budget, log, expired')
  {
    hide Recoverable, Live, MemoryShape, InWindow, RolledManifest, CommitExpires, Exec, RunFor, RetainIfOwned;
    var lines := ActiveLines(disk);
    var rolled := RolledManifest(manifest, lines, now);
    var kept := RetainIfOwned(rolled, policy, now, isRun);
    var tail := kept.ops + [WriteManifest(kept.manifest)];
    var plan := RolloverPlan(disk, manifest, policy, now, isRun);
    assert plan.ops == [CreateActive] + ([RenameActive(manifest.activeStart)] + ([TruncateActive] + tail));
    RunForThree(Exec, disk, CreateActive, RenameActive(manifest.activeStart), TruncateActive, tail, budget);
    LiveIsRecoverable(disk, manifest, log, expired);
    RolloverRenamed(disk, manifest, log, expired);
    RolloverTruncated(disk, manifest, now, log, expired);
    if budget >= 3 {
      CommitIsCrashSafe(RolloverDisk(disk, manifest.activeStart), rolled, policy, now, isRun, log, expired, budget - 3);
    }
  }

  // ------------------------------------------------------------ append and seal

  lemma {:induction false} TotalBytesSnoc(lines: seq<Line>, line: Line)
    ensures TotalBytes(lines + [line]) == TotalBytes(lines) + Bytes(line)
    decreases |lines|
  {
    if lines == [] {
      assert [line][1..] == [];
    } else {
      assert (lines + [line])[1..] == lines[1..] + [line];
      TotalBytesSnoc(lines[1..], line);
    }
  }

  /** The log, the files and the active segment once a line has been added. */
  lemma RecordedShape(disk: Disk, log: seq<Line>, line: Line)
    requires WellNumbered(log) && ActiveIsTail(disk, log) && line.sequence == |log| + 1
    ensures var disk', log' := Exec(disk, AppendLine(line)), log + [line];
            && disk' == disk.(active := Some(ActiveLines(disk) + [line])) && ActiveLines(disk') == ActiveLines(disk) + [line]
            && SealedEnd(disk', log') == SealedEnd(disk, log) && ActiveIsTail(disk', log') && WellNumbered(log')
            && log'[..|log|] == log
  {
    assert (log + [line])[SealedEnd(disk, log)..] == log[SealedEnd(disk, log)..] + [line];
  }

  lemma RecordedNumbers(stored: Manifest, log: seq<Line>, line: Line, expired: nat)
    requires StoredNumbers(stored, log, expired)
    ensures StoredNumbers(stored, log + [line], expired)
  {
  }

  lemma RecordedIsLive(disk: Disk, manifest: Manifest, log: seq<Line>, expired: nat, line: Line)
    requires Live(disk, manifest, log, expired) && line.sequence == manifest.next
    ensures Live(Exec(disk, AppendLine(line)), Recorded(manifest, line), log + [line], expired)
  {
    LiveTiles(disk, manifest, log, expired);
    RecordedShape(disk, log, line);
    RecordedNumbers(disk.manifest.value, log, line, expired);
    TotalBytesSnoc(ActiveLines(disk), line);
    hide Tiles, TotalBytes, WellNumbered, ActiveIsTail, StoredNumbers, Listed, Exec, SealedEnd, EndOf, ActiveLines;
    TilesFrame(disk.segments, disk.segments, manifest.segments, expired, SealedEnd(disk, log), log, log + [line]);
  }

  /** The log after an append that was stopped after `budget` operations. */
  function AppendedLog(log: seq<Line>, line: Line, plan: Plan, budget: nat): seq<Line> {
    if |plan.ops| <= budget then log + [line.(sequence := |log| + 1)] else log
  }

  /** An append expires lines only through the rollover it starts. */
  function AppendExpires(disk: Disk, manifest: Manifest, policy: Policy, now: int, isRun: bool, expired: nat, budget: nat): nat {
    if ShouldRollover(manifest, policy, now) then RolloverExpires(disk, manifest, policy, now, isRun, expired, budget) else expired
  }

  ghost predicate AppendOutcome(reached: Disk, plan: Plan, budget: nat, log': seq<Line>, expired: nat, window: bool) {
    && Recoverable(reached, log', expired)
    && (InWindow(reached) <==> window)
    && (|plan.ops| <= budget ==> Live(reached, plan.manifest, log', expired))
  }

  lemma RolloverHasLines(disk: Disk, manifest: Manifest, policy: Policy, now: int, log: seq<Line>, expired: nat)
    requires Live(disk, manifest, log, expired) && ShouldRollover(manifest, policy, now)
    ensures ActiveLines(disk) != []
  {
  }

  lemma LiveNumbersNext(disk: Disk, manifest: Manifest, log: seq<Line>, expired: nat)
    requires Live(disk, manifest, log, expired)
    ensures manifest.next == |log| + 1
  {
  }

  /** Append takes the next number; a crash inside it loses nothing and leaves the window open only mid-rollover. */
  lemma AppendIsCrashSafe(disk: Disk, manifest: Manifest, policy: Policy, now: int, isRun: bool, line: Line,
                          log: seq<Line>, expired: nat, budget: nat)
    requires Live(disk, manifest, log, expired)
    ensures var plan, expired' := AppendPlan(disk, manifest, policy, now, isRun, line), AppendExpires(disk, manifest, policy, now, isRun, expired, budget);
            && expired <= expired'
            && AppendOutcome(RunFor(Exec, disk, plan.ops, budget), plan, budget, AppendedLog(log, line, plan, budget), expired',
                          ShouldRollover(manifest, policy, now) && budget == 3)
  {
    hide Recoverable, Live, InWindow, RolloverExpires;
    var plan := AppendPlan(disk, manifest, policy, now, isRun, line);
    LiveIsRecoverable(disk, manifest, log, expired);
    if ShouldRollover(manifest, policy, now) {
      var rolled := RolloverPlan(disk, manifest, policy, now, isRun);
      var numbered := line.(sequence := rolled.manifest.next);
      RolloverHasLines(disk, manifest, policy, now, log, expired);
      var expired' := RolloverExpires(disk, manifest, policy, now, isRun, expired, budget);
      RolloverIsCrashSafe(disk, manifest, policy, now, isRun, log, expired, budget);
      RunForConcat(Exec, disk, rolled.ops, [AppendLine(numbered)], budget);
      if budget > |rolled.ops| {
        RunForSaturates(Exec, disk, rolled.ops, budget);
        LiveNumbersNext(RunAll(Exec, disk, rolled.ops), rolled.manifest, log, expired');
        AppendTail(RunAll(Exec, disk, rolled.ops), rolled.manifest, numbered, log, expired', budget - |rolled.ops|);
      }
    } else {
      var numbered := line.(sequence := manifest.next);
      assert plan.ops == [AppendLine(numbered)];
      LiveNumbersNext(disk, manifest, log, expired);
      AppendTail(disk, manifest, numbered, log, expired, budget);
    }
  }

  lemma AppendTail(disk: Disk, manifest: Manifest, line: Line, log: seq<Line>, expired: nat, budget: nat)
    requires Live(disk, manifest, log, expired) && line.sequence == manifest.next
    ensures var reached := RunFor(Exec, disk, [AppendLine(line)], budget);
            && (budget == 0 ==> reached == disk)
            && (budget > 0 ==> Live(reached, Recorded(manifest, line), log + [line], expired)
                               && Recoverable(reached, log + [line], expired) && !InWindow(reached))
  {
    RunForCons(Exec, disk, AppendLine(line), [], budget);
    assert [AppendLine(line)] + [] == [AppendLine(line)];
    RecordedIsLive(disk, manifest, log, expired, line);
    LiveIsRecoverable(Exec(disk, AppendLine(line)), Recorded(manifest, line), log + [line], expired);
  }

  ghost predicate SealOutcome(reached: Disk, plan: Plan, budget: nat, log: seq<Line>, expired: nat) {
    && Recoverable(reached, log, expired)
    && !InWindow(reached)
    && (|plan.ops| <= budget ==> Live(reached, plan.manifest, log, expired))
  }

  /** A seal expires lines once the sealed manifest is written. */
  function SealExpires(manifest: Manifest, policy: Policy, now: int, expired: nat, budget: nat): nat {
    if budget < 2 then expired else ExpiredBy(manifest.(isSealed := true), policy, now, expired, budget - 2)
  }

  lemma SealIsCrashSafe(disk: Disk, manifest: Manifest, policy: Policy, now: int, log: seq<Line>, expired: nat, budget: nat)
    requires Live(disk, manifest, log, expired)
    ensures var plan, expired' := SealPlan(manifest, policy, now), SealExpires(manifest, policy, now, expired, budget);
            && expired <= expired'
            && SealOutcome(RunFor(Exec, disk, plan.ops, budget), plan, budget, log, expired')
  {
    hide Recoverable, InWindow, Live, MemoryShape, ExpiredBy;
    var closed := manifest.(isSealed := true);
    var kept := RetentionPlan(closed, policy, now);
    var created := Exec(disk, CreateActive);
    var written := Exec(created, WriteManifest(closed));
    SealStates(disk, manifest, log, expired);
    LiveIsRecoverable(disk, manifest, log, expired);
    LiveIsRecoverable(created, manifest, log, expired);
    LiveIsRecoverable(written, closed, log, expired);
    RunForCons(Exec, disk, CreateActive, [WriteManifest(closed)] + kept.ops, budget);
    if budget > 0 {
      RunForCons(Exec, created, WriteManifest(closed), kept.ops, budget - 1);
    }
    if budget >= 2 {
      LiveIsMemoryShape(written, closed, log, expired);
      var expired' := ExpiredBy(closed, policy, now, expired, budget - 2);
      RetentionIsCrashSafe(written, closed, policy, now, log, expired, budget - 2);
      if |kept.ops| <= budget - 2 {
        RetainedIsLive(written, closed, policy, now, log, expired, expired', budget - 2);
      }
    }
  }

  lemma SealStates(disk: Disk, manifest: Manifest, log: seq<Line>, expired: nat)
    requires Live(disk, manifest, log, expired)
    ensures var created := Exec(disk, CreateActive);
            var closed := manifest.(isSealed := true);
            Live(created, manifest, log, expired) && Live(Exec(created, WriteManifest(closed)), closed, log, expired)
  {
    var created := Exec(disk, CreateActive);
    var closed := manifest.(isSealed := true);
    assert created == disk.(active := Some(ActiveLines(disk)));
    hide Exec, Tiles, Listed, TotalBytes, WellNumbered;
    assert ActiveLines(created) == ActiveLines(disk);
    assert MemoryShape(created, closed, log, expired);
    WritingMakesLive(created, closed, log, expired);
  }

  /** Retention on a running journal ends with a running journal. */
  lemma {:induction false} RetainedIsLive(disk: Disk, manifest: Manifest, policy: Policy, now: int,
                                          log: seq<Line>, expired: nat, expired': nat, budget: nat)
    requires Live(disk, manifest, log, expired)
    requires var plan := RetentionPlan(manifest, policy, now);
             var reached := RunFor(Exec, disk, plan.ops, budget);
             |plan.ops| <= budget && MemoryShape(reached, plan.manifest, log, expired')
    requires RetentionPlan(manifest, policy, now).ops == [] ==> expired' == expired
    ensures var plan := RetentionPlan(manifest, policy, now);
            Live(RunFor(Exec, disk, plan.ops, budget), plan.manifest, log, expired')
    decreases |manifest.segments|
  {
    hide Recoverable, MemoryShape;
    if ExpiresOldest(manifest, policy, now) {
      var s := manifest.segments[0];
      var shrunk := ClearTombstone(DropOldest(manifest), s.name);
      var cleared := ExpiryRun(disk, manifest, policy, now, log, expired, budget);
      if RetentionPlan(shrunk, policy, now).ops == [] {
        BaseIsUnique(cleared, shrunk, log, s.last, expired');
      }
      RetainedIsLive(cleared, shrunk, policy, now, log, s.last, expired', budget - 3);
    }
  }

  /** The files alone determine how much has expired. */
  lemma BaseIsUnique(disk: Disk, manifest: Manifest, log: seq<Line>, one: nat, two: nat)
    requires MemoryShape(disk, manifest, log, one) && MemoryShape(disk, manifest, log, two)
    ensures one == two
  {
  }

  // ------------------------------------------------------------ restart repair

  /** Deleting tombstoned files one by one; the manifest file is untouched. */
  lemma {:induction false} RemovalIsCrashSafe(disk: Disk, names: seq<nat>, log: seq<Line>, expired: nat, budget: nat)
    requires Recoverable(disk, log, expired)
    requires disk.manifest.None? ==> names == []
    requires disk.manifest.Some? ==> forall name :: name in names ==> name in disk.manifest.value.tombstones
    ensures var reached := RunFor(Exec, disk, RemovalOps(names), budget);
            && Recoverable(reached, log, expired) && (InWindow(reached) <==> InWindow(disk))
            && reached.active == disk.active && reached.manifest == disk.manifest
            && (|names| <= budget ==> reached.segments == disk.segments - NameSet(names))
    decreases |names|
  {
    hide Recoverable, InWindow, Exec;
    if names == [] {
      assert disk.segments - NameSet(names) == disk.segments;
    } else {
      RunForCons(Exec, disk, RemoveSegment(names[0]), RemovalOps(names[1..]), budget);
      RemovedIs(disk, names);
      hide RunFor, NameSet;
      if budget > 0 {
        RemovingTombstoned(disk, log, expired, names[0]);
        RemovalIsCrashSafe(Exec(disk, RemoveSegment(names[0])), names[1..], log, expired, budget - 1);
      }
    }
  }

  lemma RemovedIs(disk: Disk, names: seq<nat>)
    requires names != []
    ensures var removed := Exec(disk, RemoveSegment(names[0]));
            && removed == disk.(segments := disk.segments - {names[0]})
            && removed.segments - NameSet(names[1..]) == disk.segments - NameSet(names)
  {
    assert NameSet(names) == {names[0]} + NameSet(names[1..]);
  }

  ghost predicate Ascending(segments: seq<SegmentMeta>) {
    forall i, j :: 0 <= i < j < |segments| ==> segments[i].first <= segments[j].first
  }

  lemma {:induction false} SortedStays(segments: seq<SegmentMeta>)
    requires Ascending(segments)
    ensures SortByFirst(segments) == segments
    decreases |segments|
  {
    if segments != [] {
      SortedStays(segments[..|segments| - 1]);
    }
  }

  lemma {:induction false} TilesAscend(files: map<nat, seq<Line>>, segments: seq<SegmentMeta>, from: nat, to: nat, log: seq<Line>)
    requires Tiles(files, segments, from, to, log)
    ensures Ascending(segments)
    ensures forall i :: 0 <= i < |segments| ==> segments[i].first > from
    decreases |segments|
  {
    if segments != [] {
      TilesAscend(files, segments[1..], segments[0].last, to, log);
      assert forall i :: 0 < i < |segments| ==> segments[i] == segments[1..][i - 1];
    }
  }

  /** The directory scan adopts the one unlisted file, wherever it comes in the listing. */
  lemma {:induction false} AdoptsTheOrphan(manifest: Manifest, files: map<nat, seq<Line>>, listing: seq<nat>, now: int, orphan: nat)
    requires forall name :: name in listing ==> name in files && (Listed(manifest.segments, name) || name == orphan)
    requires orphan in files ==> files[orphan] != []
    ensures AdoptOrphans(manifest, files, listing, now)
         == if orphan !in listing || Listed(manifest.segments, orphan) then manifest
            else NoteLast(manifest.(segments := manifest.segments + [OrphanMeta(orphan, files[orphan], now)]),
                          files[orphan][|files[orphan]| - 1].sequence)
    decreases |listing|
  {
    if listing != [] {
      assert listing == [listing[0]] + listing[1..];
      if Listed(manifest.segments, listing[0]) {
        AdoptsTheOrphan(manifest, files, listing[1..], now, orphan);
      } else {
        var meta := OrphanMeta(orphan, files[orphan], now);
        var next := NoteLast(manifest.(segments := manifest.segments + [meta]), files[orphan][|files[orphan]| - 1].sequence);
        forall name | name in listing[1..] ensures Listed(next.segments, name) {
          ListedExtend(manifest.segments, meta, name);
        }
        ListedExtend(manifest.segments, meta, orphan);
        AdoptsTheOrphan(next, files, listing[1..], now, orphan);
      }
    }
  }

  lemma TailEndsLog(disk: Disk, log: seq<Line>)
    requires WellNumbered(log) && ActiveIsTail(disk, log)
    ensures var lines := ActiveLines(disk);
            lines != [] ==> lines[0].sequence == SealedEnd(disk, log) + 1 && lines[|lines| - 1].sequence == |log|
  {
  }

  /** The files left once the tombstoned ones are gone: the listed ones and at most one orphan. */
  lemma SurvivorFacts(disk: Disk, log: seq<Line>, expired: nat)
    requires Recoverable(disk, log, expired) && disk.manifest.Some?
    ensures var stored := disk.manifest.value;
            var files := SurvivingFiles(disk, stored);
            var listedEnd := EndOf(stored.segments, expired);
            var end := SealedEnd(disk, log);
            && ActiveIsTail(disk, log) && WellNumbered(log) && StoredNumbers(stored, log, expired)
            && listedEnd <= end
            && Tiles(files, stored.segments, expired, listedEnd, log)
            && (forall name :: name in files ==> Listed(stored.segments, name) || name == listedEnd + 1)
            && (listedEnd < end ==> listedEnd + 1 in files && files[listedEnd + 1] == log[listedEnd..end])
            && (listedEnd == end ==> listedEnd + 1 !in files)
            && !Listed(stored.segments, listedEnd + 1)
  {
    var stored := disk.manifest.value;
    var files := SurvivingFiles(disk, stored);
    var listedEnd := EndOf(stored.segments, expired);
    TilesBounds(disk.segments, stored.segments, expired, listedEnd, log);
    TilesFrame(disk.segments, files, stored.segments, expired, listedEnd, log, log);
  }

  /** What the scan finds beyond the listed segments: the one segment a cut rollover had already renamed, or nothing. */
  ghost function Found(files: map<nat, seq<Line>>, listedEnd: nat, end: nat, now: int): seq<SegmentMeta>
    requires listedEnd < end ==> listedEnd + 1 in files && files[listedEnd + 1] != []
  {
    if listedEnd < end then [OrphanMeta(listedEnd + 1, files[listedEnd + 1], now)] else []
  }

  lemma NotedNumbers(disk: Disk, stored: Manifest, log: seq<Line>, expired: nat)
    requires WellNumbered(log) && ActiveIsTail(disk, log) && StoredNumbers(stored, log, expired)
    ensures var noted := NoteActive(stored.(tombstones := []), ActiveLines(disk));
            && noted.segments == stored.segments && noted.next == noted.high + 1
            && SealedEnd(disk, log) <= |log|
            && (ActiveLines(disk) != [] ==> noted.high == |log|)
            && EndOf(stored.segments, expired) <= noted.high <= |log|
            && (ActiveLines(disk) == [] ==> SealedEnd(disk, log) == |log|)
  {
    TailEndsLog(disk, log);
  }

  lemma AppendingNothing(manifest: Manifest)
    ensures manifest.segments + [] == manifest.segments
  {
  }

  lemma ListingMembers(listing: seq<nat>, files: map<nat, seq<Line>>)
    requires IsListing(listing, files)
    ensures forall name :: name in listing <==> name in files
  {
    assert forall name :: name in listing <==> name in NameSet(listing);
  }

  lemma AdoptsTheFound(noted: Manifest, files: map<nat, seq<Line>>, listing: seq<nat>, now: int,
                       listedEnd: nat, end: nat, size: nat)
    requires forall name :: name in listing <==> name in files
    requires forall name :: name in files ==> Listed(noted.segments, name) || name == listedEnd + 1
    requires !Listed(noted.segments, listedEnd + 1) && listedEnd <= end <= size
    requires listedEnd < end ==> listedEnd + 1 in files && files[listedEnd + 1] != []
                                 && files[listedEnd + 1][|files[listedEnd + 1]| - 1].sequence == end
    requires listedEnd == end ==> listedEnd + 1 !in files
    requires noted.next == noted.high + 1 && listedEnd <= noted.high <= size && (end < size ==> noted.high == size)
    ensures AdoptOrphans(noted, files, listing, now)
         == noted.(segments := noted.segments + Found(files, listedEnd, end, now), high := size, next := size + 1)
  {
    hide Listed, OrphanMeta, AdoptOrphans;
    AdoptsTheOrphan(noted, files, listing, now, listedEnd + 1);
    AppendingNothing(noted);
  }

  lemma ScanAdopts(disk: Disk, listing: seq<nat>, now: int, log: seq<Line>, expired: nat)
    requires Recoverable(disk, log, expired) && disk.manifest.Some?
    requires IsListing(listing, SurvivingFiles(disk, disk.manifest.value))
    requires forall name :: name in listing ==> name in SurvivingFiles(disk, disk.manifest.value)
    ensures var stored := disk.manifest.value;
            var files := SurvivingFiles(disk, stored);
            var listedEnd := EndOf(stored.segments, expired);
            var end := SealedEnd(disk, log);
            var noted := NoteActive(stored.(tombstones := []), ActiveLines(disk));
            && (listedEnd < end ==> listedEnd + 1 in files && files[listedEnd + 1] != [])
            && AdoptOrphans(noted, files, listing, now)
               == noted.(segments := stored.segments + Found(files, listedEnd, end, now), high := |log|, next := |log| + 1)
  {
    hide *;
    var stored := disk.manifest.value;
    var files := SurvivingFiles(disk, stored);
    var end := SealedEnd(disk, log);
    SurvivorFacts(disk, log, expired);
    NotedNumbers(disk, stored, log, expired);
    ListingMembers(listing, files);
    FoundEnds(files, log, EndOf(stored.segments, expired), end);
    AdoptsTheFound(NoteActive(stored.(tombstones := []), ActiveLines(disk)), files, listing, now,
                   EndOf(stored.segments, expired), end, |log|);
  }

  lemma FoundEnds(files: map<nat, seq<Line>>, log: seq<Line>, listedEnd: nat, end: nat)
    requires WellNumbered(log) && listedEnd <= end <= |log|
    requires listedEnd < end ==> listedEnd + 1 in files && files[listedEnd + 1] == log[listedEnd..end]
    ensures listedEnd < end ==> files[listedEnd + 1] != [] && files[listedEnd + 1][|files[listedEnd + 1]| - 1].sequence == end
  {
  }

  lemma FoundTiles(files: map<nat, seq<Line>>, segments: seq<SegmentMeta>, expired: nat, end: nat, log: seq<Line>, now: int)
    requires WellNumbered(log) && EndOf(segments, expired) <= end <= |log|
    requires var listedEnd := EndOf(segments, expired);
             && Tiles(files, segments, expired, listedEnd, log)
             && (forall name :: name in files ==> Listed(segments, name) || name == listedEnd + 1)
             && (listedEnd < end ==> listedEnd + 1 in files && files[listedEnd + 1] == log[listedEnd..end])
             && (listedEnd == end ==> listedEnd + 1 !in files)
    ensures var listedEnd := EndOf(segments, expired);
            listedEnd < end ==> listedEnd + 1 in files && files[listedEnd + 1] != []
    ensures var all := segments + Found(files, EndOf(segments, expired), end, now);
            Tiles(files, all, expired, end, log) && forall name :: name in files ==> Listed(all, name)
  {
    hide Tiles, TotalBytes, Listed;
    var listedEnd := EndOf(segments, expired);
    if listedEnd < end {
      var meta := OrphanMeta(listedEnd + 1, files[listedEnd + 1], now);
      TilesExtend(files, segments, meta, expired, listedEnd, log);
      forall name | name in files ensures Listed(segments + [meta], name) {
        ListedExtend(segments, meta, name);
      }
    } else {
      assert segments + [] == segments;
    }
  }

  /** The manifest after the directory scan, for a stored manifest. */
  lemma ScanIsExact(disk: Disk, listing: seq<nat>, now: int, log: seq<Line>, expired: nat)
    requires Recoverable(disk, log, expired) && disk.manifest.Some?
    requires IsListing(listing, SurvivingFiles(disk, disk.manifest.value))
    requires forall name :: name in listing ==> name in SurvivingFiles(disk, disk.manifest.value)
    ensures var stored := disk.manifest.value;
            var files := SurvivingFiles(disk, stored);
            var noted := NoteActive(stored.(tombstones := []), ActiveLines(disk));
            var adopted := AdoptOrphans(noted, files, listing, now);
            && Tiles(files, adopted.segments, expired, SealedEnd(disk, log), log)
            && (forall name :: name in files ==> Listed(adopted.segments, name))
            && adopted == noted.(segments := adopted.segments, high := |log|, next := |log| + 1)
  {
    hide *;
    SurvivorFacts(disk, log, expired);
    ScanAdopts(disk, listing, now, log, expired);
    NotedNumbers(disk, disk.manifest.value, log, expired);
    FoundTiles(SurvivingFiles(disk, disk.manifest.value), disk.manifest.value.segments, expired, SealedEnd(disk, log), log, now);
  }

  ghost predicate RepairOutcome(disk: Disk, cleaned: Disk, repaired: Manifest, log: seq<Line>, expired: nat) {
    && (!InWindow(disk) ==> MemoryShape(cleaned, repaired, log, expired))
    && (InWindow(disk) ==> repaired.activeStart <= |log|)
    && (disk.manifest.Some? ==> repaired.isSealed == disk.manifest.value.isSealed)
  }

  /** The repaired manifest in terms of the files: sorting finds the scan already in order. */
  lemma RepairedFromScan(disk: Disk, listing: seq<nat>, now: int, log: seq<Line>, expired: nat)
    returns (segments: seq<SegmentMeta>)
    requires Recoverable(disk, log, expired) && disk.manifest.Some?
    requires IsListing(listing, SurvivingFiles(disk, disk.manifest.value))
    ensures var files := SurvivingFiles(disk, disk.manifest.value);
            var noted := NoteActive(disk.manifest.value.(tombstones := []), ActiveLines(disk));
            var scanned := noted.(segments := segments, high := |log|, next := |log| + 1);
            && RepairedManifest(disk, listing, now) == (if disk.active.Some? then scanned else FreshActive(scanned, now))
            && Tiles(files, segments, expired, SealedEnd(disk, log), log)
            && (forall name :: name in files ==> Listed(segments, name))
  {
    assert forall name :: name in listing ==> name in NameSet(listing);
    ScanIsExact(disk, listing, now, log, expired);
    hide Recoverable, Tiles, NoteActive;
    var stored := disk.manifest.value;
    var files := SurvivingFiles(disk, stored);
    var adopted := AdoptOrphans(NoteActive(stored.(tombstones := []), ActiveLines(disk)), files, listing, now);
    segments := adopted.segments;
    TilesAscend(files, segments, expired, SealedEnd(disk, log), log);
    SortedStays(segments);
  }

  lemma RepairAssembled(disk: Disk, stored: Manifest, files: map<nat, seq<Line>>, segments: seq<SegmentMeta>, now: int,
                        log: seq<Line>, expired: nat)
    requires disk.manifest == Some(stored) && WellNumbered(log) && ActiveIsTail(disk, log)
    requires expired <= SealedEnd(disk, log) && Tiles(files, segments, expired, SealedEnd(disk, log), log)
    requires forall name :: name in files ==> Listed(segments, name)
    requires disk.active == Some([]) ==> stored.activeStart <= |log| + 1
    requires InWindow(disk) <==> disk.active == Some([]) && stored.activeStart != |log| + 1
    ensures var noted := NoteActive(stored.(tombstones := []), ActiveLines(disk));
            var scanned := noted.(segments := segments, high := |log|, next := |log| + 1);
            RepairOutcome(disk, disk.(segments := files), if disk.active.Some? then scanned else FreshActive(scanned, now),
                          log, expired)
  {
    hide InWindow, Tiles, Listed, WellNumbered;
    var cleaned := disk.(segments := files);
    assert ActiveLines(cleaned) == ActiveLines(disk);
    if ActiveLines(disk) != [] {
      NumberedTail(disk, log);
    }
  }

  lemma NumberedTail(disk: Disk, log: seq<Line>)
    requires WellNumbered(log) && ActiveIsTail(disk, log) && ActiveLines(disk) != []
    ensures ActiveLines(disk)[0].sequence == SealedEnd(disk, log) + 1
  {
  }

  lemma RepairOfStored(disk: Disk, listing: seq<nat>, now: int, log: seq<Line>, expired: nat)
    requires Recoverable(disk, log, expired) && disk.manifest.Some?
    requires IsListing(listing, SurvivingFiles(disk, disk.manifest.value))
    ensures RepairOutcome(disk, disk.(segments := SurvivingFiles(disk, disk.manifest.value)),
                          RepairedManifest(disk, listing, now), log, expired)
  {
    var stored := disk.manifest.value;
    var files := SurvivingFiles(disk, stored);
    SurvivorFacts(disk, log, expired);
    WindowIsMisplacedStart(disk, log, expired);
    if disk.active == Some([]) {
      RecoverableStart(disk, log, expired);
    }
    var segments := RepairedFromScan(disk, listing, now, log, expired);
    hide Recoverable, InWindow, Tiles, Listed, RepairOutcome, RepairedManifest, IsListing;
    TilesSpan(files, segments, expired, SealedEnd(disk, log), log);
    RepairAssembled(disk, stored, files, segments, now, log, expired);
  }

  lemma TilesSpan(files: map<nat, seq<Line>>, segments: seq<SegmentMeta>, from: nat, to: nat, log: seq<Line>)
    requires Tiles(files, segments, from, to, log)
    ensures from <= to
  {
    TilesBounds(files, segments, from, to, log);
  }

  lemma RecoverableStart(disk: Disk, log: seq<Line>, expired: nat)
    requires Recoverable(disk, log, expired) && disk.manifest.Some? && disk.active == Some([])
    ensures disk.manifest.value.activeStart <= |log| + 1
  {
  }

  lemma EmptyListing(listing: seq<nat>)
    ensures listing != [] ==> NameSet(listing) != {}
  {
    if listing != [] {
      assert listing[0] in NameSet(listing);
    }
  }

  lemma RepairOfRebuilt(disk: Disk, listing: seq<nat>, now: int, log: seq<Line>, expired: nat)
    requires Recoverable(disk, log, expired) && disk.manifest.None?
    requires IsListing(listing, SurvivingFiles(disk, RebuildManifest(disk, now)))
    ensures RepairOutcome(disk, disk.(segments := SurvivingFiles(disk, RebuildManifest(disk, now))),
                          RepairedManifest(disk, listing, now), log, expired)
  {
    TailEndsLog(disk, log);
    EmptyListing(listing);
    assert RepairedManifest(disk, listing, now).segments == [];
  }

  /** Restart repair rebuilds the exact in-memory manifest, unless the crash hit the window. */
  lemma RepairIsExact(disk: Disk, listing: seq<nat>, now: int, log: seq<Line>, expired: nat)
    requires Recoverable(disk, log, expired)
    requires IsListing(listing, SurvivingFiles(disk, StoredManifest(disk, now)))
    ensures RepairOutcome(disk, disk.(segments := SurvivingFiles(disk, StoredManifest(disk, now))),
                          RepairedManifest(disk, listing, now), log, expired)
  {
    if disk.manifest.Some? {
      RepairOfStored(disk, listing, now, log, expired);
    } else {
      RepairOfRebuilt(disk, listing, now, log, expired);
    }
  }

  /** A restart expires lines only in the retention that follows the repair. */
  function InitializeExpires(disk: Disk, listing: seq<nat>, policy: Policy, now: int, isRun: bool, expired: nat, budget: nat): nat
    requires IsListing(listing, SurvivingFiles(disk, StoredManifest(disk, now)))
  {
    var tombstones := StoredManifest(disk, now).tombstones;
    if budget <= |tombstones| then expired
    else CommitExpires(RepairedManifest(disk, listing, now), policy, now, isRun, expired, budget - |tombstones|)
  }

  ghost predicate InitializeOutcome(reached: Disk, plan: Plan, budget: nat, log: seq<Line>, expired: nat) {
    && Recoverable(reached, log, expired)
    && !InWindow(reached)
    && (|plan.ops| <= budget ==> Live(reached, plan.manifest, log, expired))
  }

  /**
    Restart, itself interrupted any number of times: nothing retained is lost, a
    tombstoned segment never comes back, and a restart that completes leaves the
    running invariant.
   */
  lemma InitializeIsCrashSafe(disk: Disk, listing: seq<nat>, policy: Policy, now: int, isRun: bool,
                              log: seq<Line>, expired: nat, budget: nat)
    requires Recoverable(disk, log, expired) && !InWindow(disk)
    requires IsListing(listing, SurvivingFiles(disk, StoredManifest(disk, now)))
    ensures var plan := InitializePlan(disk, listing, policy, now, isRun);
            var expired' := InitializeExpires(disk, listing, policy, now, isRun, expired, budget);
            && expired <= expired'
            && InitializeOutcome(RunFor(Exec, disk, plan.ops, budget), plan, budget, log, expired')
  {
    hide Recoverable, InWindow, MemoryShape, Live, RepairedManifest, CommitExpires;
    var tombstones := StoredManifest(disk, now).tombstones;
    var cleaned := disk.(segments := SurvivingFiles(disk, StoredManifest(disk, now)));
    var repaired := RepairedManifest(disk, listing, now);
    var kept := RetainIfOwned(repaired, policy, now, isRun);
    var tail := kept.ops + [WriteManifest(kept.manifest)];
    RunForConcat(Exec, disk, RemovalOps(tombstones), tail, budget);
    RemovalIsCrashSafe(disk, tombstones, log, expired, budget);
    if budget > |tombstones| {
      RemovalIsCrashSafe(disk, tombstones, log, expired, |tombstones|);
      assert RunAll(Exec, disk, RemovalOps(tombstones)) == cleaned;
      RepairIsExact(disk, listing, now, log, expired);
      CommitIsCrashSafe(cleaned, repaired, policy, now, isRun, log, expired, budget - |tombstones|);
    }
  }
}
