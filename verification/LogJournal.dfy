/**
  The journal object.  Its methods change the files one operation at a time and
  die when the budget of file operations runs out; each is proved to be the
  corresponding step of a journal's life.
 */
module LogJournal {
  import opened Options
  import opened Crashes
  import opened LogFiles
  import opened LogHistory
  import LogReads

  datatype AppendResult = Appended | RefusedSealed | Died

  /** A restart cut short was cut in the removal of tombstoned files or in what follows it. */
  lemma RestartInTwo(setup: Setup, disk: Disk, listing: seq<nat>, now: int, budget: nat)
    requires IsListing(listing, SurvivingFiles(disk, StoredManifest(disk, now)))
    ensures var removal := RemovalOps(StoredManifest(disk, now).tombstones);
            var kept := RetainIfOwned(RepairedManifest(disk, listing, now), setup.policy, now, setup.isRun);
            var tail := kept.ops + [WriteManifest(kept.manifest)];
            var cleaned := RunFor(Exec, disk, removal, budget);
            Step(Down(disk), Restart(listing, now, budget), setup)
            == if budget < |removal| then Down(cleaned)
               else
                 var reached := RunFor(Exec, cleaned, tail, budget - |removal|);
                 if |tail| <= budget - |removal| then Up(reached, kept.manifest) else Down(reached)
  {
    hide Exec, RepairedManifest, RetainIfOwned, RemovalOps, SurvivingFiles, StoredManifest, IsListing;
    var removal := RemovalOps(StoredManifest(disk, now).tombstones);
    var kept := RetainIfOwned(RepairedManifest(disk, listing, now), setup.policy, now, setup.isRun);
    RunForConcat(Exec, disk, removal, kept.ops + [WriteManifest(kept.manifest)], budget);
    if budget >= |removal| {
      RunForSaturates(Exec, disk, removal, budget);
    }
  }

  class Journal {
    const setup: Setup
    var disk: Disk
    var manifest: Option<Manifest>
    var buffer: seq<Line>
    /** File operations left before the process dies. */
    var budget: nat

    constructor (setup: Setup, disk: Disk, budget: nat)
      ensures this.setup == setup && this.disk == disk && this.budget == budget
      ensures State() == Down(disk) && buffer == []
    {
      this.setup := setup;
      this.disk := disk;
      this.manifest := None;
      this.buffer := [];
      this.budget := budget;
    }

    function State(): LogHistory.Journal
      reads this
    {
      if manifest.Some? then Up(disk, manifest.value) else Down(disk)
    }

    method Do(op: FileOp) returns (ok: bool)
      modifies this`disk, this`budget
      ensures ok == (old(budget) > 0)
      ensures disk == if ok then Exec(old(disk), op) else old(disk)
      ensures budget == if ok then old(budget) - 1 else 0
    {
      if budget == 0 {
        return false;
      }
      disk, budget := Exec(disk, op), budget - 1;
      return true;
    }

    /** What a method that carries out a plan leaves behind. */
    twostate predicate Ran(plan: Plan, ok: bool)
      reads this
    {
      && disk == RunFor(Exec, old(disk), plan.ops, old(budget))
      && (ok <==> |plan.ops| <= old(budget))
      && (ok ==> budget == old(budget) - |plan.ops|)
      && (!ok ==> budget == 0)
    }

    method EnforceRetention(start: Manifest, now: int) returns (ok: bool, m: Manifest)
      modifies this`disk, this`budget
      ensures Ran(RetentionPlan(start, setup.policy, now), ok)
      ensures ok ==> m == RetentionPlan(start, setup.policy, now).manifest
    {
      hide Exec, Without;
      m := start;
      var total := m.activeByteLen + SealedBytes(m.segments);
      while m.segments != []
        invariant total == StoredBytes(m)
        invariant RunFor(Exec, disk, RetentionPlan(m, setup.policy, now).ops, budget)
               == RunFor(Exec, old(disk), RetentionPlan(start, setup.policy, now).ops, old(budget))
        invariant RetentionPlan(m, setup.policy, now).manifest == RetentionPlan(start, setup.policy, now).manifest
        invariant budget - |RetentionPlan(m, setup.policy, now).ops|
               == old(budget) - |RetentionPlan(start, setup.policy, now).ops|
        decreases |m.segments|
      {
        var tooOld := now - m.segments[0].sealedAt >= setup.policy.maxSegmentAge;
        var tooMany := |m.segments| > setup.policy.maxSealedSegments;
        var tooLarge := total > setup.policy.maxTotalBytes;
        if !tooOld && !tooMany && !tooLarge {
          break;
        }
        var removed := m.segments[0];
        var marked := DropOldest(m);
        var cleared := ClearTombstone(marked, removed.name);
        ghost var rest := RetentionPlan(cleared, setup.policy, now);
        RunForThree(Exec, disk, WriteManifest(marked), RemoveSegment(removed.name), WriteManifest(cleared), rest.ops, budget);
        ok := Do(WriteManifest(marked));
        if ok {
          ok := Do(RemoveSegment(removed.name));
        }
        if ok {
          ok := Do(WriteManifest(cleared));
        }
        if !ok {
          return;
        }
        m := cleared;
        total := total - removed.byteLen;
      }
      ok := true;
    }

    method RetainIfOwnedBy(start: Manifest, now: int) returns (ok: bool, m: Manifest)
      modifies this`disk, this`budget
      ensures Ran(RetainIfOwned(start, setup.policy, now, setup.isRun), ok)
      ensures ok ==> m == RetainIfOwned(start, setup.policy, now, setup.isRun).manifest
    {
      if !setup.isRun || start.isSealed {
        ok, m := EnforceRetention(start, now);
      } else {
        ok, m := true, start;
      }
    }

    /** Retention when owned, then the manifest write that commits the transition. */
    method Commit(start: Manifest, now: int) returns (ok: bool, m: Manifest)
      modifies this`disk, this`budget
      ensures var kept := RetainIfOwned(start, setup.policy, now, setup.isRun);
              Ran(Plan(kept.ops + [WriteManifest(kept.manifest)], kept.manifest), ok) && (ok ==> m == kept.manifest)
    {
      ghost var kept := RetainIfOwned(start, setup.policy, now, setup.isRun);
      ghost var write := [WriteManifest(kept.manifest)];
      RunForConcat(Exec, disk, kept.ops, write, budget);
      ok, m := RetainIfOwnedBy(start, now);
      if ok {
        RunForSaturates(Exec, old(disk), kept.ops, old(budget));
        RunForCons(Exec, disk, WriteManifest(m), [], budget);
        assert write + [] == write;
        ok := Do(WriteManifest(m));
      }
    }

    /** The active file becomes a sealed segment and an empty one takes its place. */
    method OpenFreshActive(start: Manifest, now: int) returns (ok: bool, m: Manifest)
      modifies this`disk, this`budget
      ensures Ran(Plan(RolloverHead(start, ActiveLines(old(disk))), start), ok)
      ensures ok ==> m == RolledManifest(start, ActiveLines(old(disk)), now)
    {
      hide SealActive, FreshActive;
      ghost var rename := [RenameActive(start.activeStart)];
      RunForThree(Exec, disk, CreateActive, RenameActive(start.activeStart), TruncateActive, [], budget);
      assert rename + [TruncateActive] == rename + ([TruncateActive] + []);
      RunForCons(Exec, disk, CreateActive, [TruncateActive], budget);
      assert [] + [TruncateActive] == [TruncateActive];
      m := start;
      ok := Do(CreateActive);
      if !ok {
        return;
      }
      var activeLines := ActiveLines(disk);
      if activeLines != [] {
        ok := Do(RenameActive(start.activeStart));
        if !ok {
          return;
        }
        m := SealActive(start, activeLines, now);
      } else {
        RunForCons(Exec, disk, TruncateActive, [], budget);
      }
      ok := Do(TruncateActive);
      m := FreshActive(m, now);
    }

    method Rollover(start: Manifest, now: int) returns (ok: bool, m: Manifest)
      modifies this`disk, this`budget
      ensures Ran(RolloverPlan(old(disk), start, setup.policy, now, setup.isRun), ok)
      ensures ok ==> m == RolloverPlan(old(disk), start, setup.policy, now, setup.isRun).manifest
    {
      hide RolloverHead, RolledManifest, RetainIfOwned;
      ghost var head := RolloverHead(start, ActiveLines(disk));
      ghost var kept := RetainIfOwned(RolledManifest(start, ActiveLines(disk), now), setup.policy, now, setup.isRun);
      RunForConcat(Exec, disk, head, kept.ops + [WriteManifest(kept.manifest)], budget);
      ok, m := OpenFreshActive(start, now);
      if ok {
        RunForSaturates(Exec, old(disk), head, old(budget));
        ok, m := Commit(m, now);
      }
    }

    method RemoveTombstoned(names: seq<nat>) returns (ok: bool)
      modifies this`disk, this`budget
      ensures disk == RunFor(Exec, old(disk), RemovalOps(names), old(budget))
      ensures ok <==> |names| <= old(budget)
      ensures budget == if ok then old(budget) - |names| else 0
      ensures ok ==> disk == old(disk).(segments := old(disk).segments - NameSet(names))
    {
      assert names[0..] == names;
      for i := 0 to |names|
        invariant RunFor(Exec, disk, RemovalOps(names[i..]), budget) == RunFor(Exec, old(disk), RemovalOps(names), old(budget))
        invariant budget == old(budget) - i
        invariant disk == old(disk).(segments := old(disk).segments - NameSet(names[..i]))
      {
        assert names[i..][1..] == names[i + 1..];
        assert NameSet(names[..i + 1]) == NameSet(names[..i]) + {names[i]};
        RunForCons(Exec, disk, RemoveSegment(names[i]), RemovalOps(names[i + 1..]), budget);
        ok := Do(RemoveSegment(names[i]));
        if !ok {
          return;
        }
      }
      ok := true;
      assert names[..|names|] == names;
    }

    /** List every unlisted, non-empty segment file the directory scan finds. */
    method AdoptUnlisted(noted: Manifest, listing: seq<nat>, now: int) returns (m: Manifest)
      requires forall name :: name in listing ==> name in disk.segments
      ensures m == AdoptOrphans(noted, disk.segments, listing, now)
    {
      m := noted;
      for i := 0 to |listing|
        invariant AdoptOrphans(m, disk.segments, listing[i..], now) == AdoptOrphans(noted, disk.segments, listing, now)
      {
        assert listing[i..][1..] == listing[i + 1..];
        var name := listing[i];
        var lines := disk.segments[name];
        if Listed(m.segments, name) || lines == [] {
          continue;
        }
        m := NoteLast(m.(segments := m.segments + [OrphanMeta(name, lines, now)]), lines[|lines| - 1].sequence);
      }
    }

    /** Restart repair: delete tombstoned files, read the active segment, scan the directory. */
    method RepairManifest(stored: Manifest, listing: seq<nat>, now: int) returns (ok: bool, m: Manifest)
      requires stored == StoredManifest(disk, now)
      requires IsListing(listing, SurvivingFiles(disk, stored))
      modifies this`disk, this`budget
      ensures Ran(Plan(RemovalOps(stored.tombstones), stored), ok)
      ensures ok ==> m == RepairedManifest(old(disk), listing, now)
    {
      hide AdoptOrphans, NoteActive, FreshActive, SortByFirst, RemovalOps;
      m := stored;
      ok := RemoveTombstoned(stored.tombstones);
      if !ok {
        return;
      }
      assert forall name :: name in listing <==> name in NameSet(listing);
      m := NoteActive(stored.(tombstones := []), ActiveLines(disk));
      m := AdoptUnlisted(m, listing, now);
      m := m.(segments := SortByFirst(m.segments));
      if disk.active.None? {
        m := FreshActive(m, now);
      }
    }

    /** Does nothing to a journal that is already up. */
    method Initialize(listing: seq<nat>, now: int) returns (ok: bool)
      requires IsListing(listing, SurvivingFiles(disk, StoredManifest(disk, now)))
      modifies this
      ensures State() == Step(old(State()), Restart(listing, now, old(budget)), setup)
      ensures ok == State().Up?
      ensures old(State()).Down? && ok ==> buffer == LogReads.Newest(ActiveLines(disk))
    {
      if manifest.Some? {
        return true;
      }
      var stored := StoredManifest(disk, now);
      RestartInTwo(setup, disk, listing, now, budget);
      hide *;
      var m;
      ok, m := RepairManifest(stored, listing, now);
      if ok {
        ok, m := Commit(m, now);
        if ok {
          buffer := LogReads.Newest(ActiveLines(disk));
          manifest := Some(m);
        }
      }
    }

    /** Numbers the line, writes it, and only then publishes the new high-watermark. */
    method AppendTo(line: Line, now: int) returns (result: AppendResult)
      requires manifest.Some?
      modifies this
      ensures State() == Step(old(State()), Append(line, now, old(budget)), setup)
      ensures result.RefusedSealed? <==> old(manifest).value.isSealed
      ensures result.Died? <==> State().Down?
      ensures buffer == if result.Appended? then LogReads.Push(old(buffer), line.(sequence := manifest.value.high))
                        else old(buffer)
    {
      var m := manifest.value;
      if m.isSealed {
        return RefusedSealed;
      }
      ghost var rolled := if ShouldRollover(m, setup.policy, now) then RolloverPlan(disk, m, setup.policy, now, setup.isRun)
                          else Plan([], m);
      ghost var write := [AppendLine(line.(sequence := rolled.manifest.next))];
      RunForConcat(Exec, disk, rolled.ops, write, budget);
      var ok := true;
      if ShouldRollover(m, setup.policy, now) {
        ok, m := Rollover(m, now);
      }
      if ok {
        RunForSaturates(Exec, old(disk), rolled.ops, old(budget));
        var numbered := line.(sequence := m.next);
        RunForCons(Exec, disk, AppendLine(numbered), [], budget);
        assert write + [] == write;
        ok := Do(AppendLine(numbered));
        if ok {
          manifest := Some(Recorded(m, numbered));
          buffer := LogReads.Push(buffer, numbered);
          return Appended;
        }
      }
      manifest := None;
      return Died;
    }

    method SealRunTo(now: int) returns (ok: bool)
      requires manifest.Some?
      modifies this
      ensures State() == Step(old(State()), Seal(now, old(budget)), setup)
      ensures ok == State().Up?
    {
      var m := manifest.value.(isSealed := true);
      ghost var kept := RetentionPlan(m, setup.policy, now);
      RunForCons(Exec, disk, CreateActive, [WriteManifest(m)] + kept.ops, budget);
      manifest := None;
      ok := Do(CreateActive);
      if !ok {
        return;
      }
      RunForCons(Exec, disk, WriteManifest(m), kept.ops, budget);
      ok := Do(WriteManifest(m));
      if !ok {
        return;
      }
      ok, m := EnforceRetention(m, now);
      if ok {
        manifest := Some(m);
      }
    }
  }
}
