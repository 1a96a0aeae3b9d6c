/**
  What the files and the in-memory manifest of a journal say about one plain,
  append-only log.  `log` is every line ever acknowledged; `expired` is how many
  of its oldest lines retention has given up.  `Live` describes a running journal
  between two operations, `Recoverable` every state a crash may leave behind.
 */
module LogInvariant {
  import opened Options
  import opened LogFiles

  ghost predicate WellNumbered(log: seq<Line>) {
    forall i :: 0 <= i < |log| ==> log[i].sequence == i + 1
  }

  /** The listed segments are sorted, contiguous, and hold exactly log[from..to]. */
  ghost predicate Tiles(files: map<nat, seq<Line>>, segments: seq<SegmentMeta>, from: nat, to: nat, log: seq<Line>)
    decreases |segments|
  {
    if segments == [] then from == to
    else
      var s := segments[0];
      && s.name == from + 1 == s.first
      && from < s.last <= to <= |log|
      && s.name in files
      && files[s.name] == log[from..s.last]
      && s.byteLen == TotalBytes(log[from..s.last])
      && Tiles(files, segments[1..], s.last, to, log)
  }

  function EndOf(segments: seq<SegmentMeta>, from: nat): nat {
    if segments == [] then from else segments[|segments| - 1].last
  }

  ghost function SealedEnd(disk: Disk, log: seq<Line>): int {
    |log| - |ActiveLines(disk)|
  }

  ghost predicate ActiveIsTail(disk: Disk, log: seq<Line>) {
    && SealedEnd(disk, log) >= 0
    && ActiveLines(disk) == log[SealedEnd(disk, log)..]
  }

  /** The in-memory manifest describes the files exactly. */
  ghost predicate MemoryShape(disk: Disk, manifest: Manifest, log: seq<Line>, expired: nat) {
    && WellNumbered(log)
    && ActiveIsTail(disk, log)
    && expired <= SealedEnd(disk, log)
    && Tiles(disk.segments, manifest.segments, expired, SealedEnd(disk, log), log)
    && (forall name :: name in disk.segments ==> Listed(manifest.segments, name))
    && manifest.tombstones == []
    && manifest.high == |log|
    && manifest.next == |log| + 1
    && manifest.activeStart == SealedEnd(disk, log) + 1
    && manifest.activeByteLen == TotalBytes(ActiveLines(disk))
  }

  /** The numbers of a manifest file that may be older than the lines beside it. */
  ghost predicate StoredNumbers(stored: Manifest, log: seq<Line>, expired: nat) {
    && stored.next == stored.high + 1
    && EndOf(stored.segments, expired) <= stored.high <= |log|
  }

  /** A running journal between two operations. */
  ghost predicate Live(disk: Disk, manifest: Manifest, log: seq<Line>, expired: nat) {
    && MemoryShape(disk, manifest, log, expired)
    && disk.manifest.Some?
    && StoredNumbers(disk.manifest.value, log, expired)
    && disk.manifest.value.segments == manifest.segments
    && disk.manifest.value.activeStart == manifest.activeStart
    && disk.manifest.value.tombstones == []
    && disk.manifest.value.isSealed == manifest.isSealed
  }

  /**
    What a crash may leave behind: at most one segment file that the manifest
    does not list yet, and tombstoned files that may or may not be gone.
   */
  ghost predicate Recoverable(disk: Disk, log: seq<Line>, expired: nat) {
    && WellNumbered(log)
    && ActiveIsTail(disk, log)
    && (disk.manifest.None? ==> disk.segments == map[] && expired == 0 == SealedEnd(disk, log))
    && (disk.manifest.Some? ==>
      var stored := disk.manifest.value;
      var listedEnd := EndOf(stored.segments, expired);
      && StoredNumbers(stored, log, expired)
      && expired <= listedEnd <= SealedEnd(disk, log)
      && Tiles(disk.segments, stored.segments, expired, listedEnd, log)
      && (forall name :: name in stored.tombstones ==> name <= expired)
      && (forall name :: name in disk.segments ==>
            name in stored.tombstones || Listed(stored.segments, name) || name == listedEnd + 1)
      && (listedEnd < SealedEnd(disk, log) ==>
            listedEnd + 1 in disk.segments && disk.segments[listedEnd + 1] == log[listedEnd..SealedEnd(disk, log)])
      && (listedEnd == SealedEnd(disk, log) ==> listedEnd + 1 !in disk.segments)
      && (disk.active == Some([]) ==>
            stored.activeStart == |log| + 1 || (stored.activeStart == listedEnd + 1 <= |log|)))
  }

  /**
    The delicate instant of a rollover: the new active file exists and is empty
    while the manifest still places the active segment at a start that already
    names a sealed file.
   */
  predicate InWindow(disk: Disk) {
    && disk.manifest.Some?
    && disk.active == Some([])
    && disk.manifest.value.activeStart in disk.segments
  }

  // ------------------------------------------------------------------ tilings

  lemma {:induction false} TilesBounds(files: map<nat, seq<Line>>, segments: seq<SegmentMeta>, from: nat, to: nat, log: seq<Line>)
    requires Tiles(files, segments, from, to, log)
    ensures from <= to == EndOf(segments, from)
    ensures forall name: nat :: Listed(segments, name) ==> from < name <= to && name in files
    decreases |segments|
  {
    if segments != [] {
      var s := segments[0];
      TilesBounds(files, segments[1..], s.last, to, log);
      forall name: nat | Listed(segments, name) ensures from < name <= to && name in files {
        var i :| 0 <= i < |segments| && segments[i].name == name;
        if i > 0 {
          assert segments[1..][i - 1].name == name;
          assert Listed(segments[1..], name);
        }
      }
    }
  }

  /** A tiling does not see files outside it, nor lines added after it. */
  lemma {:induction false} TilesFrame(files: map<nat, seq<Line>>, files': map<nat, seq<Line>>, segments: seq<SegmentMeta>,
                                      from: nat, to: nat, log: seq<Line>, log': seq<Line>)
    requires Tiles(files, segments, from, to, log)
    requires log <= log'
    requires forall name :: from < name <= to && name in files ==> name in files' && files'[name] == files[name]
    ensures Tiles(files', segments, from, to, log')
    decreases |segments|
  {
    if segments != [] {
      var s := segments[0];
      assert log'[from..s.last] == log[from..s.last];
      TilesFrame(files, files', segments[1..], s.last, to, log, log');
    }
  }

  lemma {:induction false} TilesExtend(files: map<nat, seq<Line>>, segments: seq<SegmentMeta>, meta: SegmentMeta,
                                       from: nat, to: nat, log: seq<Line>)
    requires Tiles(files, segments, from, to, log)
    requires to < meta.last <= |log|
    requires meta.name == to + 1 == meta.first && meta.name in files
    requires files[meta.name] == log[to..meta.last] && meta.byteLen == TotalBytes(log[to..meta.last])
    ensures Tiles(files, segments + [meta], from, meta.last, log)
    decreases |segments|
  {
    if segments == [] {
      assert (segments + [meta])[1..] == [];
    } else {
      assert (segments + [meta])[1..] == segments[1..] + [meta];
      TilesExtend(files, segments[1..], meta, segments[0].last, to, log);
    }
  }

  lemma ListedExtend(segments: seq<SegmentMeta>, meta: SegmentMeta, name: nat)
    ensures Listed(segments + [meta], name) <==> Listed(segments, name) || name == meta.name
  {
    if Listed(segments, name) {
      var i :| 0 <= i < |segments| && segments[i].name == name;
      assert (segments + [meta])[i].name == name;
    }
    assert (segments + [meta])[|segments|] == meta;
  }

  lemma ListedRest(segments: seq<SegmentMeta>, name: nat)
    requires segments != []
    ensures Listed(segments, name) <==> segments[0].name == name || Listed(segments[1..], name)
  {
    assert segments == [segments[0]] + segments[1..];
    if Listed(segments[1..], name) {
      var i :| 0 <= i < |segments[1..]| && segments[1..][i].name == name;
      assert segments[i + 1].name == name;
    }
    if Listed(segments, name) && segments[0].name != name {
      var i :| 0 <= i < |segments| && segments[i].name == name;
      assert segments[1..][i - 1].name == name;
    }
  }

  // ----------------------------------------------------- invariants and writing

  lemma MemoryNames(disk: Disk, manifest: Manifest, log: seq<Line>, expired: nat)
    requires MemoryShape(disk, manifest, log, expired)
    ensures EndOf(manifest.segments, expired) == SealedEnd(disk, log)
    ensures forall name :: name in disk.segments ==> expired < name <= SealedEnd(disk, log)
  {
    TilesBounds(disk.segments, manifest.segments, expired, SealedEnd(disk, log), log);
  }

  lemma WritingMakesLive(disk: Disk, manifest: Manifest, log: seq<Line>, expired: nat)
    requires MemoryShape(disk, manifest, log, expired)
    ensures Live(Exec(disk, WriteManifest(manifest)), manifest, log, expired)
  {
    MemoryNames(disk, manifest, log, expired);
  }

  lemma LiveIsRecoverable(disk: Disk, manifest: Manifest, log: seq<Line>, expired: nat)
    requires Live(disk, manifest, log, expired)
    ensures Recoverable(disk, log, expired) && !InWindow(disk)
  {
    MemoryNames(disk, manifest, log, expired);
  }

  /** Under the crash invariant, the window is exactly a misplaced empty active segment. */
  lemma WindowIsMisplacedStart(disk: Disk, log: seq<Line>, expired: nat)
    requires Recoverable(disk, log, expired)
    ensures InWindow(disk) <==>
      disk.manifest.Some? && disk.active == Some([]) && disk.manifest.value.activeStart != |log| + 1
  {
    if disk.manifest.Some? && disk.active == Some([]) {
      var stored := disk.manifest.value;
      var listedEnd := EndOf(stored.segments, expired);
      TilesBounds(disk.segments, stored.segments, expired, listedEnd, log);
      assert SealedEnd(disk, log) == |log|;
    }
  }
}
