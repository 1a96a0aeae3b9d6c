/**
  Retention: which sealed segments a policy condemns, and that a retention pass gives up
  exactly those, oldest first, wherever it stops.
 */
module LogRetention {
  import opened Options
  import opened Crashes
  import opened LogFiles
  import opened LogInvariant

  // ------------------------------------------------------- what a policy condemns

  /** With all older segments gone, this one is too old, one too many, or the journal too large. */
  predicate Exceeds(manifest: Manifest, policy: Policy, now: int, i: nat)
    requires i < |manifest.segments|
  {
    || now - manifest.segments[i].sealedAt >= policy.maxSegmentAge
    || |manifest.segments| - i > policy.maxSealedSegments
    || manifest.activeByteLen + SealedBytes(manifest.segments[i..]) > policy.maxTotalBytes
  }

  /** The first `count` segments each exceed the policy in turn, and the next one does not. */
  predicate AreCondemned(manifest: Manifest, policy: Policy, now: int, count: nat) {
    && count <= |manifest.segments|
    && (forall i :: 0 <= i < count ==> Exceeds(manifest, policy, now, i))
    && (count < |manifest.segments| ==> !Exceeds(manifest, policy, now, count))
  }

  function CondemnedFrom(manifest: Manifest, policy: Policy, now: int, i: nat): (count: nat)
    requires i <= |manifest.segments|
    ensures i <= count <= |manifest.segments|
    ensures forall j :: i <= j < count ==> Exceeds(manifest, policy, now, j)
    ensures count < |manifest.segments| ==> !Exceeds(manifest, policy, now, count)
    decreases |manifest.segments| - i
  {
    if i < |manifest.segments| && Exceeds(manifest, policy, now, i) then CondemnedFrom(manifest, policy, now, i + 1) else i
  }

  function Condemned(manifest: Manifest, policy: Policy, now: int): (count: nat)
    ensures AreCondemned(manifest, policy, now, count)
  {
    CondemnedFrom(manifest, policy, now, 0)
  }

  lemma CondemnedIsUnique(manifest: Manifest, policy: Policy, now: int, one: nat, two: nat)
    requires AreCondemned(manifest, policy, now, one) && AreCondemned(manifest, policy, now, two)
    ensures one == two
  {
  }

  function Shrunk(manifest: Manifest): Manifest
    requires manifest.segments != []
  {
    ClearTombstone(DropOldest(manifest), manifest.segments[0].name)
  }

  lemma ExceedsLater(manifest: Manifest, policy: Policy, now: int, i: nat)
    requires i + 1 < |manifest.segments|
    ensures Exceeds(Shrunk(manifest), policy, now, i) <==> Exceeds(manifest, policy, now, i + 1)
  {
    assert manifest.segments[1..][i..] == manifest.segments[i + 1..];
  }

  lemma CondemnedLater(manifest: Manifest, policy: Policy, now: int)
    requires manifest.segments != [] && Exceeds(manifest, policy, now, 0)
    ensures Condemned(manifest, policy, now) == 1 + Condemned(Shrunk(manifest), policy, now)
  {
    var later := Condemned(Shrunk(manifest), policy, now);
    forall i | 0 <= i < |manifest.segments| - 1
      ensures Exceeds(Shrunk(manifest), policy, now, i) <==> Exceeds(manifest, policy, now, i + 1)
    {
      ExceedsLater(manifest, policy, now, i);
    }
    hide Exceeds, Condemned;
    forall i | 0 <= i < later + 1 ensures Exceeds(manifest, policy, now, i) {
      if i > 0 {
        assert Exceeds(Shrunk(manifest), policy, now, i - 1);
      }
    }
    CondemnedIsUnique(manifest, policy, now, later + 1, Condemned(manifest, policy, now));
  }

  lemma ExpiresWhatExceeds(manifest: Manifest, policy: Policy, now: int)
    ensures ExpiresOldest(manifest, policy, now) <==> manifest.segments != [] && Exceeds(manifest, policy, now, 0)
  {
    assert manifest.segments[0..] == manifest.segments;
  }

  /** Retention gives up exactly the condemned segments: three file operations for each, every other segment stays. */
  lemma {:induction false} RetentionDropsCondemned(manifest: Manifest, policy: Policy, now: int)
    ensures var plan, count := RetentionPlan(manifest, policy, now), Condemned(manifest, policy, now);
            |plan.ops| == 3 * count && plan.manifest.segments == manifest.segments[count..]
    decreases |manifest.segments|
  {
    ExpiresWhatExceeds(manifest, policy, now);
    if ExpiresOldest(manifest, policy, now) {
      RetentionDropsCondemned(Shrunk(manifest), policy, now);
      CondemnedLater(manifest, policy, now);
      hide Exceeds, Condemned, ExpiresOldest;
      assert manifest.segments[1..][Condemned(Shrunk(manifest), policy, now)..]
          == manifest.segments[1 + Condemned(Shrunk(manifest), policy, now)..];
    }
  }

  /** Every segment given up exceeded the policy in its turn, and what is left satisfies it or holds no sealed segment. */
  lemma RetentionMeetsPolicy(manifest: Manifest, policy: Policy, now: int)
    requires manifest.tombstones == []
    ensures var m := RetentionPlan(manifest, policy, now).manifest;
            && (forall i :: 0 <= i < |manifest.segments| - |m.segments| ==> Exceeds(manifest, policy, now, i))
            && (|| m.segments == []
                || (&& |m.segments| <= policy.maxSealedSegments
                    && StoredBytes(m) <= policy.maxTotalBytes
                    && now - m.segments[0].sealedAt < policy.maxSegmentAge))
  {
    RetentionDropsCondemned(manifest, policy, now);
    RetentionKeepsNumbers(manifest, policy, now);
    hide RetentionPlan;
  }

  /** How many of the condemned segments have a durable tombstone once a pass stopped after `budget` operations. */
  function Tombstoned(count: nat, budget: nat): (durable: nat)
    ensures durable <= count
  {
    if (budget + 2) / 3 < count then (budget + 2) / 3 else count
  }

  /** The last line given up by a retention pass that stopped after `budget` operations. */
  function ExpiredBy(manifest: Manifest, policy: Policy, now: int, expired: nat, budget: nat): nat {
    EndOf(manifest.segments[..Tombstoned(Condemned(manifest, policy, now), budget)], expired)
  }

  lemma ExpiredLater(manifest: Manifest, policy: Policy, now: int, expired: nat, budget: nat)
    requires manifest.segments != [] && Exceeds(manifest, policy, now, 0) && budget > 0
    ensures ExpiredBy(manifest, policy, now, expired, budget)
         == if budget < 3 then manifest.segments[0].last
            else ExpiredBy(Shrunk(manifest), policy, now, manifest.segments[0].last, budget - 3)
  {
    CondemnedLater(manifest, policy, now);
    hide Exceeds, Condemned;
    var later := Condemned(Shrunk(manifest), policy, now);
    var durable := Tombstoned(later + 1, budget);
    assert durable == 1 + if budget < 3 then 0 else Tombstoned(later, budget - 3);
    if durable > 1 {
      assert manifest.segments[..durable][durable - 1] == manifest.segments[1..][..durable - 1][durable - 2];
    }
  }

  lemma ExpiredByNothing(manifest: Manifest, policy: Policy, now: int, expired: nat, budget: nat)
    requires budget == 0 || Condemned(manifest, policy, now) == 0
    ensures ExpiredBy(manifest, policy, now, expired, budget) == expired
  {
  }

  // ------------------------------------------------------------------- one expiry

  lemma OnlyTombstoneClears(manifest: Manifest)
    requires manifest.segments != [] && manifest.tombstones == []
    ensures ClearTombstone(DropOldest(manifest), manifest.segments[0].name).tombstones == []
  {
    var name := manifest.segments[0].name;
    var names := DropOldest(manifest).tombstones;
    assert names == [name] && names[1..] == [];
    assert Without(names, name) == Without(names[1..], name);
  }

  /** Retention keeps everything of the manifest but the segment list. */
  lemma {:induction false} RetentionKeepsNumbers(manifest: Manifest, policy: Policy, now: int)
    requires manifest.tombstones == []
    ensures var m := RetentionPlan(manifest, policy, now).manifest;
            m == manifest.(segments := m.segments) && |m.segments| <= |manifest.segments|
            && m.segments == manifest.segments[|manifest.segments| - |m.segments|..]
    decreases |manifest.segments|
  {
    if ExpiresOldest(manifest, policy, now) {
      var name := manifest.segments[0].name;
      var cleared := ClearTombstone(DropOldest(manifest), name);
      OnlyTombstoneClears(manifest);
      RetentionKeepsNumbers(cleared, policy, now);
    }
  }

  /** What is left of the tiling when the oldest segment goes. */
  lemma ExpiryTiling(disk: Disk, manifest: Manifest, log: seq<Line>, expired: nat)
    requires MemoryShape(disk, manifest, log, expired) && manifest.segments != []
    ensures var s := manifest.segments[0];
            var rest := manifest.segments[1..];
            var end := SealedEnd(disk, log);
            && s.name <= s.last && expired < s.last <= end == EndOf(rest, s.last)
            && end + 1 !in disk.segments
            && (forall name :: name in disk.segments ==> name == s.name || Listed(rest, name))
            && Tiles(disk.segments, rest, s.last, end, log)
            && Tiles(disk.segments - {s.name}, rest, s.last, end, log)
  {
    var s := manifest.segments[0];
    var rest := manifest.segments[1..];
    var end := SealedEnd(disk, log);
    MemoryNames(disk, manifest, log, expired);
    TilesBounds(disk.segments, rest, s.last, end, log);
    forall name | name in disk.segments ensures name == s.name || Listed(rest, name) {
      ListedRest(manifest.segments, name);
    }
    TilesFrame(disk.segments, disk.segments - {s.name}, rest, s.last, end, log, log);
  }

  /** The three disks one expiry passes through: tombstone written, file gone, tombstone cleared. */
  lemma ExpiryMarked(disk: Disk, manifest: Manifest, log: seq<Line>, expired: nat)
    returns (marked: Disk)
    requires MemoryShape(disk, manifest, log, expired) && manifest.segments != []
    ensures marked == Exec(disk, WriteManifest(DropOldest(manifest)))
    ensures Recoverable(marked, log, manifest.segments[0].last) && !InWindow(marked)
  {
    hide *;
    var s := manifest.segments[0];
    ExpiryTiling(disk, manifest, log, expired);
    ExpiryNumbers(disk, manifest, log, expired);
    marked := Exec(disk, WriteManifest(DropOldest(manifest)));
    TombstonedIsRecoverable(marked, DropOldest(manifest), log, s.last, s.name);
  }

  /** A manifest that lists everything but one tombstoned segment is a state to recover from. */
  lemma TombstonedIsRecoverable(disk: Disk, stored: Manifest, log: seq<Line>, expired: nat, name: nat)
    requires disk.manifest == Some(stored) && stored.tombstones == [name] && name <= expired
    requires WellNumbered(log) && ActiveIsTail(disk, log) && StoredNumbers(stored, log, expired)
    requires expired <= SealedEnd(disk, log) == EndOf(stored.segments, expired)
    requires Tiles(disk.segments, stored.segments, expired, SealedEnd(disk, log), log)
    requires forall n :: n in disk.segments ==> n == name || Listed(stored.segments, n)
    requires SealedEnd(disk, log) + 1 !in disk.segments && stored.activeStart == SealedEnd(disk, log) + 1
    requires disk.active == Some([]) ==> stored.activeStart == |log| + 1
    ensures Recoverable(disk, log, expired) && !InWindow(disk)
  {
    hide Tiles, Listed, WellNumbered, ActiveIsTail, StoredNumbers, EndOf, SealedEnd;
  }

  /** The numbers of the manifest file that tombstones the oldest segment. */
  lemma ExpiryNumbers(disk: Disk, manifest: Manifest, log: seq<Line>, expired: nat)
    requires MemoryShape(disk, manifest, log, expired) && manifest.segments != []
    ensures var marked := Exec(disk, WriteManifest(DropOldest(manifest)));
            var s := manifest.segments[0];
            && marked == disk.(manifest := Some(DropOldest(manifest)))
            && ActiveLines(marked) == ActiveLines(disk) && SealedEnd(marked, log) == SealedEnd(disk, log)
            && ActiveIsTail(marked, log) && WellNumbered(log) && StoredNumbers(DropOldest(manifest), log, s.last)
            && DropOldest(manifest).tombstones == [s.name] && manifest.activeStart == SealedEnd(disk, log) + 1
            && (disk.active == Some([]) ==> manifest.activeStart == |log| + 1)
            && DropOldest(manifest).segments == manifest.segments[1..] && DropOldest(manifest).activeStart == manifest.activeStart
  {
    ExpiryTiling(disk, manifest, log, expired);
    hide Tiles, TotalBytes, WellNumbered, Listed;
  }

  /** Deleting a tombstoned file, whether or not it still exists, changes nothing that matters. */
  lemma RemovingTombstoned(disk: Disk, log: seq<Line>, expired: nat, name: nat)
    requires Recoverable(disk, log, expired)
    requires disk.manifest.Some? && name in disk.manifest.value.tombstones
    ensures var removed := Exec(disk, RemoveSegment(name));
            Recoverable(removed, log, expired) && (InWindow(removed) <==> InWindow(disk))
  {
    RemovingIs(disk, name);
    RemovedIsTiled(disk, log, expired, name);
    RemovedIsTail(disk, Exec(disk, RemoveSegment(name)), log);
    hide Exec, Tiles, ActiveIsTail, SealedEnd, WellNumbered, Listed, StoredNumbers, EndOf;
  }

  lemma RemovingIs(disk: Disk, name: nat)
    ensures Exec(disk, RemoveSegment(name)) == disk.(segments := disk.segments - {name})
  {
  }

  lemma RemovedIsTail(disk: Disk, removed: Disk, log: seq<Line>)
    requires ActiveIsTail(disk, log) && removed.active == disk.active
    ensures ActiveIsTail(removed, log) && SealedEnd(removed, log) == SealedEnd(disk, log)
  {
  }

  lemma RemovedIsTiled(disk: Disk, log: seq<Line>, expired: nat, name: nat)
    requires Recoverable(disk, log, expired)
    requires disk.manifest.Some? && name in disk.manifest.value.tombstones
    ensures var stored := disk.manifest.value;
            name <= expired && Tiles(disk.segments - {name}, stored.segments, expired, EndOf(stored.segments, expired), log)
  {
    hide Tiles, ActiveIsTail, SealedEnd, WellNumbered, Listed, StoredNumbers, EndOf;
    var stored := disk.manifest.value;
    TilesFrame(disk.segments, disk.segments - {name}, stored.segments, expired, EndOf(stored.segments, expired), log, log);
  }

  lemma ExpiryDeleted(disk: Disk, manifest: Manifest, log: seq<Line>, expired: nat)
    returns (deleted: Disk)
    requires MemoryShape(disk, manifest, log, expired) && manifest.segments != []
    ensures deleted == Exec(Exec(disk, WriteManifest(DropOldest(manifest))), RemoveSegment(manifest.segments[0].name))
    ensures Recoverable(deleted, log, manifest.segments[0].last) && !InWindow(deleted)
  {
    hide Recoverable, InWindow, MemoryShape;
    var name := manifest.segments[0].name;
    var marked := ExpiryMarked(disk, manifest, log, expired);
    assert marked.manifest.value.tombstones[|manifest.tombstones|] == name;
    RemovingTombstoned(marked, log, manifest.segments[0].last, name);
    deleted := Exec(marked, RemoveSegment(name));
  }

  lemma ExpiryCleared(disk: Disk, manifest: Manifest, log: seq<Line>, expired: nat)
    returns (cleared: Disk)
    requires MemoryShape(disk, manifest, log, expired) && manifest.segments != []
    ensures var name := manifest.segments[0].name;
            var shrunk := ClearTombstone(DropOldest(manifest), name);
            && cleared == Exec(Exec(Exec(disk, WriteManifest(DropOldest(manifest))), RemoveSegment(name)), WriteManifest(shrunk))
            && Live(cleared, shrunk, log, manifest.segments[0].last)
  {
    var s := manifest.segments[0];
    var shrunk := ClearTombstone(DropOldest(manifest), s.name);
    cleared := Exec(Exec(Exec(disk, WriteManifest(DropOldest(manifest))), RemoveSegment(s.name)), WriteManifest(shrunk));
    ClearedDisk(disk, DropOldest(manifest), s.name, shrunk);
    hide *;
    NoTombstones(disk, manifest, log, expired);
    ShrunkIs(manifest);
    ExpiryTiling(disk, manifest, log, expired);
    RestIsLive(disk, manifest, s, shrunk, log, expired);
  }

  lemma ClearedDisk(disk: Disk, marked: Manifest, name: nat, shrunk: Manifest)
    ensures Exec(Exec(Exec(disk, WriteManifest(marked)), RemoveSegment(name)), WriteManifest(shrunk))
         == disk.(segments := disk.segments - {name}, manifest := Some(shrunk))
  {
  }

  lemma NoTombstones(disk: Disk, manifest: Manifest, log: seq<Line>, expired: nat)
    requires MemoryShape(disk, manifest, log, expired)
    ensures manifest.tombstones == []
  {
  }

  lemma ShrunkIs(manifest: Manifest)
    requires manifest.segments != [] && manifest.tombstones == []
    ensures ClearTombstone(DropOldest(manifest), manifest.segments[0].name) == manifest.(segments := manifest.segments[1..])
  {
    OnlyTombstoneClears(manifest);
  }

  lemma RestIsLive(disk: Disk, manifest: Manifest, s: SegmentMeta, shrunk: Manifest, log: seq<Line>, expired: nat)
    requires MemoryShape(disk, manifest, log, expired) && shrunk == manifest.(segments := shrunk.segments)
    requires s.last <= SealedEnd(disk, log) == EndOf(shrunk.segments, s.last)
    requires Tiles(disk.segments - {s.name}, shrunk.segments, s.last, SealedEnd(disk, log), log)
    requires forall name :: name in disk.segments ==> name == s.name || Listed(shrunk.segments, name)
    ensures Live(disk.(segments := disk.segments - {s.name}, manifest := Some(shrunk)), shrunk, log, s.last)
  {
    hide Tiles, TotalBytes, WellNumbered, Listed, EndOf;
  }

  /** One expiry, stopped anywhere, then the rest of retention. */
  lemma ExpiryRun(disk: Disk, manifest: Manifest, policy: Policy, now: int, log: seq<Line>, expired: nat, budget: nat)
    returns (cleared: Disk)
    requires MemoryShape(disk, manifest, log, expired) && ExpiresOldest(manifest, policy, now)
    ensures var s := manifest.segments[0];
            var shrunk := ClearTombstone(DropOldest(manifest), s.name);
            var plan := RetentionPlan(manifest, policy, now);
            var rest := RetentionPlan(shrunk, policy, now);
            var reached := RunFor(Exec, disk, plan.ops, budget);
            && |plan.ops| == 3 + |rest.ops| && plan.manifest == rest.manifest
            && expired < s.last
            && Live(cleared, shrunk, log, s.last)
            && (budget == 0 ==> reached == disk)
            && (0 < budget < 3 ==> Recoverable(reached, log, s.last) && !InWindow(reached))
            && (3 <= budget ==> reached == RunFor(Exec, cleared, rest.ops, budget - 3))
  {
    var s := manifest.segments[0];
    var shrunk := ClearTombstone(DropOldest(manifest), s.name);
    var rest := RetentionPlan(shrunk, policy, now);
    RunForThree(Exec, disk, WriteManifest(DropOldest(manifest)), RemoveSegment(s.name), WriteManifest(shrunk),
                rest.ops, budget);
    var marked := ExpiryMarked(disk, manifest, log, expired);
    var deleted := ExpiryDeleted(disk, manifest, log, expired);
    cleared := ExpiryCleared(disk, manifest, log, expired);
  }

  // ------------------------------------------------------------------- a whole pass

  /** What stopping a retention pass after some operations must leave behind. */
  ghost predicate RetentionOutcome(reached: Disk, plan: Plan, budget: nat, log: seq<Line>, expired: nat) {
    && (plan.ops != [] && budget > 0 ==> Recoverable(reached, log, expired) && !InWindow(reached))
    && (|plan.ops| <= budget ==> MemoryShape(reached, plan.manifest, log, expired))
  }

  lemma RetentionOutcomeStep(reached: Disk, plan: Plan, rest: Plan, budget: nat, log: seq<Line>, expired: nat)
    requires 3 <= budget && |plan.ops| == 3 + |rest.ops| && plan.manifest == rest.manifest
    requires RetentionOutcome(reached, rest, budget - 3, log, expired)
    requires rest.ops == [] || budget == 3 ==> Recoverable(reached, log, expired) && !InWindow(reached)
    ensures RetentionOutcome(reached, plan, budget, log, expired)
  {
  }

  /** Stopping retention there gives up exactly the condemned segments whose tombstone is durable. */
  ghost predicate StopsSafely(disk: Disk, manifest: Manifest, policy: Policy, now: int, log: seq<Line>, expired: nat, budget: nat) {
    var plan, expired' := RetentionPlan(manifest, policy, now), ExpiredBy(manifest, policy, now, expired, budget);
    var reached := RunFor(Exec, disk, plan.ops, budget);
    && expired <= expired'
    && (plan.ops == [] || budget == 0 ==> expired' == expired && reached == disk)
    && RetentionOutcome(reached, plan, budget, log, expired')
  }

  lemma NothingToRetain(disk: Disk, manifest: Manifest, policy: Policy, now: int, log: seq<Line>, expired: nat, budget: nat)
    requires MemoryShape(disk, manifest, log, expired) && (!ExpiresOldest(manifest, policy, now) || budget == 0)
    ensures StopsSafely(disk, manifest, policy, now, log, expired, budget)
  {
    ExpiresWhatExceeds(manifest, policy, now);
    ExpiredByNothing(manifest, policy, now, expired, budget);
    hide ExpiredBy, Exceeds, Condemned, ExpiresOldest, MemoryShape;
  }

  lemma ExpiryCut(disk: Disk, manifest: Manifest, policy: Policy, now: int, log: seq<Line>, expired: nat, budget: nat)
    requires MemoryShape(disk, manifest, log, expired) && ExpiresOldest(manifest, policy, now) && 0 < budget < 3
    ensures StopsSafely(disk, manifest, policy, now, log, expired, budget)
  {
    ExpiresWhatExceeds(manifest, policy, now);
    ExpiredLater(manifest, policy, now, expired, budget);
    var cleared := ExpiryRun(disk, manifest, policy, now, log, expired, budget);
    hide ExpiredBy, Exceeds, Condemned, ExpiresOldest, Recoverable, InWindow, MemoryShape, Live, RetentionPlan, RunFor;
  }

  lemma ExpiryDone(disk: Disk, manifest: Manifest, policy: Policy, now: int, log: seq<Line>, expired: nat, budget: nat)
    returns (cleared: Disk)
    requires MemoryShape(disk, manifest, log, expired) && ExpiresOldest(manifest, policy, now) && budget >= 3
    ensures MemoryShape(cleared, Shrunk(manifest), log, manifest.segments[0].last)
    ensures StopsSafely(cleared, Shrunk(manifest), policy, now, log, manifest.segments[0].last, budget - 3)
        ==> StopsSafely(disk, manifest, policy, now, log, expired, budget)
  {
    var s, shrunk := manifest.segments[0], Shrunk(manifest);
    ExpiresWhatExceeds(manifest, policy, now);
    ExpiredLater(manifest, policy, now, expired, budget);
    cleared := ExpiryRun(disk, manifest, policy, now, log, expired, budget);
    LiveIsRecoverable(cleared, shrunk, log, s.last);
    LiveIsMemoryShape(cleared, shrunk, log, s.last);
    hide ExpiredBy, Exceeds, Condemned, ExpiresOldest, Recoverable, InWindow, MemoryShape, Live, RetentionPlan, RunFor, RetentionOutcome;
    if StopsSafely(cleared, shrunk, policy, now, log, s.last, budget - 3) {
      RetentionOutcomeStep(RunFor(Exec, disk, RetentionPlan(manifest, policy, now).ops, budget),
                           RetentionPlan(manifest, policy, now), RetentionPlan(shrunk, policy, now),
                           budget, log, ExpiredBy(manifest, policy, now, expired, budget));
    }
  }

  lemma {:induction false} RetentionStopsSafely(disk: Disk, manifest: Manifest, policy: Policy, now: int,
                                                log: seq<Line>, expired: nat, budget: nat)
    requires MemoryShape(disk, manifest, log, expired)
    ensures StopsSafely(disk, manifest, policy, now, log, expired, budget)
    decreases |manifest.segments|
  {
    hide StopsSafely, MemoryShape;
    if !ExpiresOldest(manifest, policy, now) || budget == 0 {
      NothingToRetain(disk, manifest, policy, now, log, expired, budget);
    } else if budget < 3 {
      ExpiryCut(disk, manifest, policy, now, log, expired, budget);
    } else {
      var cleared := ExpiryDone(disk, manifest, policy, now, log, expired, budget);
      RetentionStopsSafely(cleared, Shrunk(manifest), policy, now, log, manifest.segments[0].last, budget - 3);
    }
  }

  /** Stopping retention anywhere gives up exactly the condemned segments whose tombstone is durable. */
  lemma RetentionIsCrashSafe(disk: Disk, manifest: Manifest, policy: Policy, now: int, log: seq<Line>, expired: nat, budget: nat)
    requires MemoryShape(disk, manifest, log, expired)
    ensures var plan, expired' := RetentionPlan(manifest, policy, now), ExpiredBy(manifest, policy, now, expired, budget);
            var reached := RunFor(Exec, disk, plan.ops, budget);
            && expired <= expired'
            && (plan.ops == [] || budget == 0 ==> expired' == expired && reached == disk)
            && RetentionOutcome(reached, plan, budget, log, expired')
  {
    RetentionStopsSafely(disk, manifest, policy, now, log, expired, budget);
    hide ExpiredBy, MemoryShape, RetentionPlan, RunFor, RetentionOutcome;
  }

  lemma LiveIsMemoryShape(disk: Disk, manifest: Manifest, log: seq<Line>, expired: nat)
    requires Live(disk, manifest, log, expired)
    ensures MemoryShape(disk, manifest, log, expired)
  {
  }

  /** Retention expires lines only where the journal owns its segments: not in a run that is still open. */
  function CommitExpires(manifest: Manifest, policy: Policy, now: int, isRun: bool, expired: nat, budget: nat): nat {
    if !isRun || manifest.isSealed then ExpiredBy(manifest, policy, now, expired, budget) else expired
  }

  lemma CommitKeepingAll(disk: Disk, manifest: Manifest, log: seq<Line>, expired: nat, budget: nat)
    requires MemoryShape(disk, manifest, log, expired)
    ensures var reached := RunFor(Exec, disk, [WriteManifest(manifest)], budget);
            && (budget == 0 ==> reached == disk)
            && (budget > 0 ==> Recoverable(reached, log, expired) && !InWindow(reached) && Live(reached, manifest, log, expired))
  {
    var write := WriteManifest(manifest);
    RunForCons(Exec, disk, write, [], budget);
    assert [write] + [] == [write];
    WritingMakesLive(disk, manifest, log, expired);
    hide Recoverable, InWindow, MemoryShape, Live;
    LiveIsRecoverable(Exec(disk, write), manifest, log, expired);
  }

  lemma CommitAfterRetention(disk: Disk, manifest: Manifest, policy: Policy, now: int, log: seq<Line>, expired: nat, budget: nat)
    requires MemoryShape(disk, manifest, log, expired) && RetentionPlan(manifest, policy, now).ops != []
    ensures var kept, expired' := RetentionPlan(manifest, policy, now), ExpiredBy(manifest, policy, now, expired, budget);
            var ops := kept.ops + [WriteManifest(kept.manifest)];
            var reached := RunFor(Exec, disk, ops, budget);
            && expired <= expired'
            && (budget == 0 ==> expired' == expired && reached == disk)
            && (budget > 0 ==> Recoverable(reached, log, expired') && !InWindow(reached))
            && (|ops| <= budget ==> Live(reached, kept.manifest, log, expired'))
  {
    hide Recoverable, InWindow, MemoryShape, Live, RetentionPlan, ExpiredBy;
    var kept, expired' := RetentionPlan(manifest, policy, now), ExpiredBy(manifest, policy, now, expired, budget);
    RunForConcat(Exec, disk, kept.ops, [WriteManifest(kept.manifest)], budget);
    RetentionIsCrashSafe(disk, manifest, policy, now, log, expired, budget);
    if budget > |kept.ops| {
      RunForSaturates(Exec, disk, kept.ops, budget);
      CommitKeepingAll(RunAll(Exec, disk, kept.ops), kept.manifest, log, expired', budget - |kept.ops|);
    }
  }

  /** Retention followed by the manifest write that closes a rollover or a restart. */
  lemma CommitIsCrashSafe(disk: Disk, manifest: Manifest, policy: Policy, now: int, isRun: bool,
                          log: seq<Line>, expired: nat, budget: nat)
    requires MemoryShape(disk, manifest, log, expired)
    ensures var kept := RetainIfOwned(manifest, policy, now, isRun);
            var ops := kept.ops + [WriteManifest(kept.manifest)];
            var reached := RunFor(Exec, disk, ops, budget);
            var expired' := CommitExpires(manifest, policy, now, isRun, expired, budget);
            && expired <= expired'
            && (budget == 0 ==> expired' == expired && reached == disk)
            && (budget > 0 ==> Recoverable(reached, log, expired') && !InWindow(reached))
            && (|ops| <= budget ==> Live(reached, kept.manifest, log, expired'))
  {
    var kept := RetainIfOwned(manifest, policy, now, isRun);
    RetentionOfNothing(manifest, policy, now);
    hide Recoverable, InWindow, MemoryShape, Live, RetentionPlan, ExpiredBy, Condemned;
    if kept.ops == [] {
      CommitKeepingAll(disk, manifest, log, expired, budget);
      if !isRun || manifest.isSealed {
        RetentionDropsCondemned(manifest, policy, now);
        ExpiredByNothing(manifest, policy, now, expired, budget);
      }
      assert [] + [WriteManifest(kept.manifest)] == [WriteManifest(kept.manifest)];
    } else {
      CommitAfterRetention(disk, manifest, policy, now, log, expired, budget);
    }
  }

  lemma RetentionOfNothing(manifest: Manifest, policy: Policy, now: int)
    ensures RetentionPlan(manifest, policy, now).ops == [] ==> RetentionPlan(manifest, policy, now).manifest == manifest
  {
  }
}
