/**
  The files of one durable log journal and the file operations that change them.
  A sealed segment's file name is determined by the sequence number it starts
  with, so segment files are keyed by that number.
 */
module LogFiles {
  import opened Options

  datatype Line = Line(sequence: nat, timestamp: int, text: string)

  /** Length of the encoded row: the row itself and its newline. */
  function Bytes(line: Line): (n: nat)
    ensures n > 0
  {
    |line.text| + 1
  }

  function TotalBytes(lines: seq<Line>): nat {
    if lines == [] then 0 else Bytes(lines[0]) + TotalBytes(lines[1..])
  }

  datatype SegmentMeta = SegmentMeta(name: nat, first: nat, last: nat, sealedAt: int, byteLen: nat)

  datatype Manifest = Manifest(
    next: nat,
    high: nat,
    activeStart: nat,
    activeCreatedAt: int,
    activeByteLen: nat,
    isSealed: bool,
    segments: seq<SegmentMeta>,
    tombstones: seq<nat>)

  function EmptyManifest(now: int): Manifest {
    Manifest(1, 0, 1, now, 0, false, [], [])
  }

  datatype Policy = Policy(maxSegmentBytes: nat, maxSegmentAge: int, maxSealedSegments: nat, maxTotalBytes: nat)

  datatype Disk = Disk(active: Option<seq<Line>>, segments: map<nat, seq<Line>>, manifest: Option<Manifest>)

  const EMPTY_DISK := Disk(None, map[], None)

  /** Every file operation of the journal; each one is atomic. */
  datatype FileOp =
    | CreateActive
    | AppendLine(line: Line)
    | RenameActive(start: nat)
    | TruncateActive
    | RemoveSegment(start: nat)
    | WriteManifest(manifest: Manifest)

  function Exec(disk: Disk, op: FileOp): Disk {
    match op
    case CreateActive => disk.(active := Some(ActiveLines(disk)))
    case AppendLine(line) => disk.(active := Some(ActiveLines(disk) + [line]))
    case RenameActive(start) =>
      if disk.active.None? then disk
      else disk.(active := None, segments := disk.segments[start := disk.active.value])
    case TruncateActive => disk.(active := Some([]))
    case RemoveSegment(start) => disk.(segments := disk.segments - {start})
    case WriteManifest(manifest) => disk.(manifest := Some(manifest))
  }

  /** A missing active file reads as no lines. */
  function ActiveLines(disk: Disk): seq<Line> {
    if disk.active.None? then [] else disk.active.value
  }

  /** A file operation sequence together with the in-memory manifest it ends with. */
  datatype Plan = Plan(ops: seq<FileOp>, manifest: Manifest)

  // ---------------------------------------------------------------- retention

  function SealedBytes(segments: seq<SegmentMeta>): nat {
    if segments == [] then 0 else segments[0].byteLen + SealedBytes(segments[1..])
  }

  function StoredBytes(manifest: Manifest): nat {
    manifest.activeByteLen + SealedBytes(manifest.segments)
  }

  predicate ExpiresOldest(manifest: Manifest, policy: Policy, now: int) {
    && manifest.segments != []
    && (|| now - manifest.segments[0].sealedAt >= policy.maxSegmentAge
        || |manifest.segments| > policy.maxSealedSegments
        || StoredBytes(manifest) > policy.maxTotalBytes)
  }

  function Without(names: seq<nat>, name: nat): (rest: seq<nat>)
    ensures forall x :: x in rest <==> x in names && x != name
  {
    if names == [] then []
    else if names[0] == name then Without(names[1..], name)
    else [names[0]] + Without(names[1..], name)
  }

  function DropOldest(manifest: Manifest): Manifest
    requires manifest.segments != []
  {
    manifest.(segments := manifest.segments[1..], tombstones := manifest.tombstones + [manifest.segments[0].name])
  }

  function ClearTombstone(manifest: Manifest, name: nat): Manifest {
    manifest.(tombstones := Without(manifest.tombstones, name))
  }

  /** Tombstone, delete, clear - oldest segment first - until the policy keeps the oldest one. */
  function RetentionPlan(manifest: Manifest, policy: Policy, now: int): (p: Plan)
    decreases |manifest.segments|
  {
    if !ExpiresOldest(manifest, policy, now) then Plan([], manifest)
    else
      var name := manifest.segments[0].name;
      var marked := DropOldest(manifest);
      var cleared := ClearTombstone(marked, name);
      var rest := RetentionPlan(cleared, policy, now);
      Plan([WriteManifest(marked)] + ([RemoveSegment(name)] + ([WriteManifest(cleared)] + rest.ops)), rest.manifest)
  }

  // ----------------------------------------------------------------- rollover

  predicate ShouldRollover(manifest: Manifest, policy: Policy, now: int) {
    && manifest.activeByteLen > 0
    && (manifest.activeByteLen >= policy.maxSegmentBytes || now - manifest.activeCreatedAt >= policy.maxSegmentAge)
  }

  function SealActive(manifest: Manifest, lines: seq<Line>, now: int): Manifest
    requires lines != []
  {
    manifest.(segments := manifest.segments + [SegmentMeta(
      manifest.activeStart, lines[0].sequence, lines[|lines| - 1].sequence, now, manifest.activeByteLen)])
  }

  function FreshActive(manifest: Manifest, now: int): Manifest {
    manifest.(activeStart := manifest.next, activeCreatedAt := now, activeByteLen := 0)
  }

  /** The manifest once the active lines have become a sealed segment and a new active segment is open. */
  function RolledManifest(manifest: Manifest, lines: seq<Line>, now: int): Manifest {
    FreshActive(if lines == [] then manifest else SealActive(manifest, lines, now), now)
  }

  function RolloverHead(manifest: Manifest, lines: seq<Line>): seq<FileOp> {
    [CreateActive] + ((if lines == [] then [] else [RenameActive(manifest.activeStart)]) + [TruncateActive])
  }

  function RetainIfOwned(manifest: Manifest, policy: Policy, now: int, isRun: bool): Plan {
    if !isRun || manifest.isSealed then RetentionPlan(manifest, policy, now) else Plan([], manifest)
  }

  function RolloverPlan(disk: Disk, manifest: Manifest, policy: Policy, now: int, isRun: bool): Plan {
    var lines := ActiveLines(disk);
    var kept := RetainIfOwned(RolledManifest(manifest, lines, now), policy, now, isRun);
    Plan(RolloverHead(manifest, lines) + (kept.ops + [WriteManifest(kept.manifest)]), kept.manifest)
  }

  // ------------------------------------------------------------ append and seal

  function Recorded(manifest: Manifest, line: Line): Manifest {
    manifest.(high := line.sequence, next := line.sequence + 1, activeByteLen := manifest.activeByteLen + Bytes(line))
  }

  /** The journal, not the caller, numbers the line. */
  function AppendPlan(disk: Disk, manifest: Manifest, policy: Policy, now: int, isRun: bool, line: Line): Plan {
    var rolled := if ShouldRollover(manifest, policy, now) then RolloverPlan(disk, manifest, policy, now, isRun)
                  else Plan([], manifest);
    var numbered := line.(sequence := rolled.manifest.next);
    Plan(rolled.ops + [AppendLine(numbered)], Recorded(rolled.manifest, numbered))
  }

  function SealPlan(manifest: Manifest, policy: Policy, now: int): Plan {
    var closed := manifest.(isSealed := true);
    var kept := RetentionPlan(closed, policy, now);
    Plan([CreateActive] + ([WriteManifest(closed)] + kept.ops), kept.manifest)
  }

  // -------------------------------------------------------------- restart repair

  function NoteLast(manifest: Manifest, last: nat): Manifest {
    manifest.(high := Max(manifest.high, last), next := Max(manifest.next, last + 1))
  }

  function Max(x: nat, y: nat): nat {
    if x < y then y else x
  }

  function RebuildManifest(disk: Disk, now: int): Manifest {
    var lines := ActiveLines(disk);
    var empty := EmptyManifest(now).(activeByteLen := TotalBytes(lines));
    if lines == [] then empty
    else
      var last := lines[|lines| - 1].sequence;
      empty.(activeStart := lines[0].sequence, activeCreatedAt := lines[0].timestamp, high := last, next := last + 1)
  }

  function NoteActive(manifest: Manifest, lines: seq<Line>): Manifest {
    var sized := manifest.(activeByteLen := TotalBytes(lines));
    if lines == [] then sized
    else NoteLast(sized.(activeStart := lines[0].sequence), lines[|lines| - 1].sequence)
  }

  predicate Listed(segments: seq<SegmentMeta>, name: nat) {
    exists i :: 0 <= i < |segments| && segments[i].name == name
  }

  function OrphanMeta(name: nat, lines: seq<Line>, now: int): SegmentMeta
    requires lines != []
  {
    SegmentMeta(name, lines[0].sequence, lines[|lines| - 1].sequence, now, TotalBytes(lines))
  }

  /** Adopt every unlisted, non-empty segment file, in directory order. */
  function AdoptOrphans(manifest: Manifest, files: map<nat, seq<Line>>, listing: seq<nat>, now: int): Manifest
    requires forall name :: name in listing ==> name in files
    decreases |listing|
  {
    if listing == [] then manifest
    else
      var name := listing[0];
      var lines := files[name];
      var next := if Listed(manifest.segments, name) || lines == [] then manifest
                  else NoteLast(manifest.(segments := manifest.segments + [OrphanMeta(name, lines, now)]),
                                lines[|lines| - 1].sequence);
      AdoptOrphans(next, files, listing[1..], now)
  }

  function InsertByFirst(segments: seq<SegmentMeta>, meta: SegmentMeta): seq<SegmentMeta> {
    if segments == [] || segments[|segments| - 1].first <= meta.first then segments + [meta]
    else InsertByFirst(segments[..|segments| - 1], meta) + [segments[|segments| - 1]]
  }

  /** Stable sort by first sequence. */
  function SortByFirst(segments: seq<SegmentMeta>): seq<SegmentMeta> {
    if segments == [] then []
    else InsertByFirst(SortByFirst(segments[..|segments| - 1]), segments[|segments| - 1])
  }

  function RemovalOps(names: seq<nat>): (ops: seq<FileOp>)
    ensures |ops| == |names|
  {
    if names == [] then [] else [RemoveSegment(names[0])] + RemovalOps(names[1..])
  }

  function NameSet(names: seq<nat>): set<nat> {
    set name | name in names
  }

  function SurvivingFiles(disk: Disk, manifest: Manifest): map<nat, seq<Line>> {
    disk.segments - NameSet(manifest.tombstones)
  }

  /** A directory scan returns every file name once, in no particular order. */
  predicate IsListing(listing: seq<nat>, files: map<nat, seq<Line>>) {
    && NameSet(listing) == files.Keys
    && forall i, j :: 0 <= i < j < |listing| ==> listing[i] != listing[j]
  }

  function StoredManifest(disk: Disk, now: int): Manifest {
    if disk.manifest.Some? then disk.manifest.value else RebuildManifest(disk, now)
  }

  function RepairedManifest(disk: Disk, listing: seq<nat>, now: int): Manifest
    requires IsListing(listing, SurvivingFiles(disk, StoredManifest(disk, now)))
  {
    var stored := StoredManifest(disk, now);
    var files := SurvivingFiles(disk, stored);
    assert forall name :: name in listing ==> name in NameSet(listing);
    var noted := NoteActive(stored.(tombstones := []), ActiveLines(disk));
    var adopted := AdoptOrphans(noted, files, listing, now);
    var sorted := adopted.(segments := SortByFirst(adopted.segments));
    if disk.active.Some? then sorted else FreshActive(sorted, now)
  }

  function InitializePlan(disk: Disk, listing: seq<nat>, policy: Policy, now: int, isRun: bool): Plan
    requires IsListing(listing, SurvivingFiles(disk, StoredManifest(disk, now)))
  {
    var repaired := RepairedManifest(disk, listing, now);
    var kept := RetainIfOwned(repaired, policy, now, isRun);
    Plan(RemovalOps(StoredManifest(disk, now).tombstones) + (kept.ops + [WriteManifest(kept.manifest)]), kept.manifest)
  }
}
