/**
  Cursor reads.  The durable read skips whole segments below the cursor; it is
  shown to return what filtering every retained line would, and what that says
  about the plain log, gaps included.
 */
module LogReads {
  import opened Options
  import opened LogFiles
  import opened LogInvariant

  datatype Page = Page(
    lines: seq<Line>,
    truncated: bool,
    high: nat,
    next: nat,
    earliest: Option<nat>,
    cursorExpired: bool)

  function EarliestRetained(manifest: Manifest): Option<nat> {
    if manifest.segments != [] then Some(manifest.segments[0].first)
    else if manifest.high >= manifest.activeStart then Some(manifest.activeStart)
    else None
  }

  predicate Selected(line: Line, since: Option<int>, after: Option<nat>) {
    && (since.Some? ==> line.timestamp >= since.value)
    && (after.Some? ==> line.sequence > after.value)
  }

  function Filtered(lines: seq<Line>, since: Option<int>, after: Option<nat>): seq<Line> {
    if lines == [] then []
    else (if Selected(lines[0], since, after) then [lines[0]] else []) + Filtered(lines[1..], since, after)
  }

  function Snapshot(lines: seq<Line>, limit: nat, since: Option<int>, after: Option<nat>, high: nat, earliest: Option<nat>): Page {
    var filtered := Filtered(lines, since, after);
    var truncated := limit > 0 && |filtered| > limit;
    Page(
      if truncated then filtered[|filtered| - limit..] else filtered,
      truncated,
      high,
      high + 1,
      earliest,
      after.Some? && earliest.Some? && after.value + 1 < earliest.value)
  }

  function SegmentLines(disk: Disk, meta: SegmentMeta): seq<Line> {
    if meta.name in disk.segments then disk.segments[meta.name] else []
  }

  function Skips(meta: SegmentMeta, after: Option<nat>): bool {
    after.Some? && meta.last <= after.value
  }

  /** The lines a durable read loads: unskipped segments, then the active segment if it can hold anything newer. */
  function Loaded(disk: Disk, segments: seq<SegmentMeta>, after: Option<nat>): seq<Line> {
    if segments == [] then []
    else (if Skips(segments[0], after) then [] else SegmentLines(disk, segments[0])) + Loaded(disk, segments[1..], after)
  }

  function LoadedActive(disk: Disk, manifest: Manifest, after: Option<nat>): seq<Line> {
    if after.None? || manifest.high > after.value then ActiveLines(disk) else []
  }

  lemma {:induction false} LoadedSnoc(disk: Disk, segments: seq<SegmentMeta>, meta: SegmentMeta, after: Option<nat>)
    ensures Loaded(disk, segments + [meta], after)
         == Loaded(disk, segments, after) + (if Skips(meta, after) then [] else SegmentLines(disk, meta))
    decreases |segments|
  {
    if segments == [] {
      assert [meta][1..] == [] && segments + [meta] == [meta];
    } else {
      assert (segments + [meta])[1..] == segments[1..] + [meta];
      LoadedSnoc(disk, segments[1..], meta, after);
    }
  }

  method SnapshotDurable(disk: Disk, manifest: Manifest, limit: nat, since: Option<int>, after: Option<nat>)
    returns (page: Page)
    ensures page == DurablePage(disk, manifest, limit, since, after)
  {
    var lines: seq<Line> := [];
    for i := 0 to |manifest.segments|
      invariant lines == Loaded(disk, manifest.segments[..i], after)
    {
      var meta := manifest.segments[i];
      assert manifest.segments[..i + 1] == manifest.segments[..i] + [meta];
      LoadedSnoc(disk, manifest.segments[..i], meta, after);
      assert lines + [] == lines;
      if after.Some? && meta.last <= after.value {
        continue;
      }
      if meta.name in disk.segments {
        lines := lines + disk.segments[meta.name];
      }
    }
    assert manifest.segments[..|manifest.segments|] == manifest.segments && lines + [] == lines;
    if after.None? || manifest.high > after.value {
      lines := lines + ActiveLines(disk);
    }
    page := Snapshot(lines, limit, since, after, manifest.high, EarliestRetained(manifest));
  }

  // ------------------------------------------------------- filtering the plain log

  lemma FilteredCons(line: Line, rest: seq<Line>, since: Option<int>, after: Option<nat>)
    ensures Filtered([line] + rest, since, after)
         == (if Selected(line, since, after) then [line] else []) + Filtered(rest, since, after)
  {
    assert ([line] + rest)[1..] == rest;
  }

  lemma {:induction false} FilteredConcat(a: seq<Line>, b: seq<Line>, since: Option<int>, after: Option<nat>)
    ensures Filtered(a + b, since, after) == Filtered(a, since, after) + Filtered(b, since, after)
    decreases |a|
  {
    if a == [] {
      assert a + b == b;
    } else {
      FilteredConcat(a[1..], b, since, after);
      FilteredCons(a[0], a[1..] + b, since, after);
      FilteredCons(a[0], a[1..], since, after);
      hide Filtered, Selected;
      assert [a[0]] + (a[1..] + b) == a + b && [a[0]] + a[1..] == a;
      var kept := if Selected(a[0], since, after) then [a[0]] else [];
      assert kept + (Filtered(a[1..], since, after) + Filtered(b, since, after))
          == (kept + Filtered(a[1..], since, after)) + Filtered(b, since, after);
    }
  }

  lemma {:induction false} FilteredBelowCursor(lines: seq<Line>, since: Option<int>, after: Option<nat>)
    requires after.Some? && forall i :: 0 <= i < |lines| ==> lines[i].sequence <= after.value
    ensures Filtered(lines, since, after) == []
    decreases |lines|
  {
    if lines != [] {
      FilteredBelowCursor(lines[1..], since, after);
    }
  }

  lemma {:induction false} FilteredAboveCursor(lines: seq<Line>, after: nat)
    requires forall i :: 0 <= i < |lines| ==> lines[i].sequence > after
    ensures Filtered(lines, None, Some(after)) == lines
    decreases |lines|
  {
    if lines != [] {
      FilteredAboveCursor(lines[1..], after);
    }
  }

  /** Skipping a segment loses nothing the filter would keep of it. */
  lemma SegmentIsEnough(disk: Disk, segments: seq<SegmentMeta>, from: nat, to: nat, log: seq<Line>,
                        since: Option<int>, after: Option<nat>)
    requires WellNumbered(log) && segments != [] && Tiles(disk.segments, segments, from, to, log)
    ensures var s := segments[0];
            && from < s.last <= to <= |log| && Tiles(disk.segments, segments[1..], s.last, to, log)
            && Filtered(if Skips(s, after) then [] else SegmentLines(disk, s), since, after)
               == Filtered(log[from..s.last], since, after)
  {
    hide Filtered;
    var s := segments[0];
    if Skips(s, after) {
      FilteredBelowCursor(log[from..s.last], since, after);
      FilteredBelowCursor([], since, after);
    }
  }

  lemma {:induction false} LoadedIsEnough(disk: Disk, segments: seq<SegmentMeta>, from: nat, to: nat, log: seq<Line>,
                                          since: Option<int>, after: Option<nat>)
    requires WellNumbered(log) && Tiles(disk.segments, segments, from, to, log) && from <= to <= |log|
    ensures Filtered(Loaded(disk, segments, after), since, after) == Filtered(log[from..to], since, after)
    decreases |segments|
  {
    hide Filtered, Skips, SegmentLines, WellNumbered;
    if segments != [] {
      var s := segments[0];
      SegmentIsEnough(disk, segments, from, to, log, since, after);
      hide Tiles;
      LoadedIsEnough(disk, segments[1..], s.last, to, log, since, after);
      FilteredConcat(log[from..s.last], log[s.last..to], since, after);
      FilteredConcat(if Skips(s, after) then [] else SegmentLines(disk, s), Loaded(disk, segments[1..], after), since, after);
      assert log[from..to] == log[from..s.last] + log[s.last..to];
    } else {
      assert log[from..to] == [];
    }
  }

  lemma EarliestIsFirstRetained(disk: Disk, manifest: Manifest, log: seq<Line>, expired: nat)
    requires Live(disk, manifest, log, expired)
    ensures EarliestRetained(manifest) == if expired < |log| then Some(expired + 1) else None
  {
    TilesBounds(disk.segments, manifest.segments, expired, SealedEnd(disk, log), log);
  }

  /** A durable read of a running journal is the same filter over every retained line. */
  lemma ReadsRefineLog(disk: Disk, manifest: Manifest, log: seq<Line>, expired: nat,
                       limit: nat, since: Option<int>, after: Option<nat>)
    requires Live(disk, manifest, log, expired)
    ensures DurablePage(disk, manifest, limit, since, after)
         == Snapshot(log[expired..], limit, since, after, |log|, if expired < |log| then Some(expired + 1) else None)
  {
    var loaded := Loaded(disk, manifest.segments, after) + LoadedActive(disk, manifest, after);
    EarliestIsFirstRetained(disk, manifest, log, expired);
    ReadLinesAreEnough(disk, manifest, log, expired, since, after);
    hide Live, Loaded, LoadedActive, EarliestRetained;
  }

  lemma ReadLinesAreEnough(disk: Disk, manifest: Manifest, log: seq<Line>, expired: nat, since: Option<int>, after: Option<nat>)
    requires Live(disk, manifest, log, expired)
    ensures Filtered(Loaded(disk, manifest.segments, after) + LoadedActive(disk, manifest, after), since, after)
         == Filtered(log[expired..], since, after)
    ensures manifest.high == |log|
  {
    hide *;
    var end := SealedEnd(disk, log);
    LiveBounds(disk, manifest, log, expired);
    SealedLinesAreEnough(disk, manifest, log, expired, since, after);
    ActiveLinesAreEnough(disk, manifest, log, expired, since, after);
    FilteredConcat(Loaded(disk, manifest.segments, after), LoadedActive(disk, manifest, after), since, after);
    FilteredConcat(log[expired..end], log[end..], since, after);
    assert log[expired..] == log[expired..end] + log[end..];
  }

  lemma LiveBounds(disk: Disk, manifest: Manifest, log: seq<Line>, expired: nat)
    requires Live(disk, manifest, log, expired)
    ensures expired <= SealedEnd(disk, log) <= |log|
  {
  }

  lemma SealedLinesAreEnough(disk: Disk, manifest: Manifest, log: seq<Line>, expired: nat, since: Option<int>, after: Option<nat>)
    requires Live(disk, manifest, log, expired)
    ensures Filtered(Loaded(disk, manifest.segments, after), since, after) == Filtered(log[expired..SealedEnd(disk, log)], since, after)
    ensures manifest.high == |log|
  {
    hide Filtered, Loaded;
    LoadedIsEnough(disk, manifest.segments, expired, SealedEnd(disk, log), log, since, after);
  }

  lemma ActiveLinesAreEnough(disk: Disk, manifest: Manifest, log: seq<Line>, expired: nat, since: Option<int>, after: Option<nat>)
    requires Live(disk, manifest, log, expired)
    ensures Filtered(LoadedActive(disk, manifest, after), since, after) == Filtered(log[SealedEnd(disk, log)..], since, after)
  {
    hide Tiles;
    if after.Some? && manifest.high <= after.value {
      FilteredBelowCursor(log[SealedEnd(disk, log)..], since, after);
    }
  }

  // ------------------------------------------------------------ what a filter keeps

  /** Not older than `since` if one is given, and numbered above `after` if one is given. */
  ghost predicate IsWanted(line: Line, since: Option<int>, after: Option<nat>) {
    && (match since case None => true case Some(time) => !(line.timestamp < time))
    && (match after case None => true case Some(cursor) => !(line.sequence <= cursor))
  }

  /** `picked` are the lines at the places `kept`, in order, and those are the places of all wanted lines. */
  ghost predicate ArePicked(lines: seq<Line>, since: Option<int>, after: Option<nat>, kept: seq<nat>, picked: seq<Line>) {
    && |kept| == |picked|
    && (forall i, j :: 0 <= i < j < |kept| ==> kept[i] < kept[j])
    && (forall i :: 0 <= i < |kept| ==> kept[i] < |lines| && lines[kept[i]] == picked[i])
    && (forall i: nat :: i in kept <==> i < |lines| && IsWanted(lines[i], since, after))
  }

  lemma PickedSnoc(lines: seq<Line>, line: Line, since: Option<int>, after: Option<nat>, kept: seq<nat>, picked: seq<Line>)
    requires ArePicked(lines, since, after, kept, picked)
    ensures if IsWanted(line, since, after) then ArePicked(lines + [line], since, after, kept + [|lines|], picked + [line])
            else ArePicked(lines + [line], since, after, kept, picked)
  {
    hide IsWanted;
  }

  lemma NothingPicked(since: Option<int>, after: Option<nat>)
    ensures ArePicked([], since, after, [], Filtered([], since, after))
  {
  }

  lemma FilteredSnoc(lines: seq<Line>, line: Line, since: Option<int>, after: Option<nat>)
    ensures Filtered(lines + [line], since, after)
         == if IsWanted(line, since, after) then Filtered(lines, since, after) + [line] else Filtered(lines, since, after)
  {
    FilteredConcat(lines, [line], since, after);
    FilteredOne(line, since, after);
    hide Filtered, IsWanted;
    assert Filtered(lines, since, after) + [] == Filtered(lines, since, after);
  }

  /** A filter keeps exactly the wanted lines, each once and in order. */
  lemma {:induction false} FilteredIsExact(lines: seq<Line>, since: Option<int>, after: Option<nat>) returns (kept: seq<nat>)
    ensures ArePicked(lines, since, after, kept, Filtered(lines, since, after))
    decreases |lines|
  {
    hide *;
    if lines == [] {
      NothingPicked(since, after);
      kept := [];
    } else {
      var front, last := lines[..|lines| - 1], lines[|lines| - 1];
      kept := FilteredIsExact(front, since, after);
      PickedSnoc(front, last, since, after, kept, Filtered(front, since, after));
      FilteredSnoc(front, last, since, after);
      kept := if IsWanted(last, since, after) then kept + [|front|] else kept;
      assert front + [last] == lines;
    }
  }

  lemma FilteredOne(line: Line, since: Option<int>, after: Option<nat>)
    ensures Filtered([line], since, after) == if IsWanted(line, since, after) then [line] else []
  {
    FilteredCons(line, [], since, after);
    assert [line] + [] == [line];
  }

  /** Without `since` and without a cursor nothing is filtered out. */
  lemma {:induction false} NoFilterKeepsAll(lines: seq<Line>)
    ensures Filtered(lines, None, None) == lines
    decreases |lines|
  {
    if lines != [] {
      NoFilterKeepsAll(lines[1..]);
    }
  }

  /** The last `limit` lines, or all of them if the limit is zero. */
  function Last(lines: seq<Line>, limit: nat): seq<Line> {
    if limit == 0 || |lines| <= limit then lines else lines[|lines| - limit..]
  }

  /** The page of a running journal, as `SnapshotDurable` computes it. */
  function DurablePage(disk: Disk, manifest: Manifest, limit: nat, since: Option<int>, after: Option<nat>): Page {
    Snapshot(Loaded(disk, manifest.segments, after) + LoadedActive(disk, manifest, after), limit, since, after, manifest.high,
             EarliestRetained(manifest))
  }

  /** A read of a running journal without a cursor: the newest `limit` retained lines, all of them if the limit is zero. */
  lemma PlainReadIsExact(disk: Disk, manifest: Manifest, log: seq<Line>, expired: nat, limit: nat)
    requires Live(disk, manifest, log, expired)
    ensures expired <= |log|
    ensures var page := DurablePage(disk, manifest, limit, None, None);
            && page.lines == Last(log[expired..], limit)
            && (page.truncated <==> 0 < limit < |log| - expired)
            && page.high == |log| && page.next == |log| + 1 && !page.cursorExpired
            && page.earliest == if expired < |log| then Some(expired + 1) else None
  {
    ReadsRefineLog(disk, manifest, log, expired, limit, None, None);
    LiveBounds(disk, manifest, log, expired);
    NoFilterKeepsAll(log[expired..]);
    hide Live, Loaded, LoadedActive, EarliestRetained, Filtered;
  }

  /** With a `since`, a cursor or both: the newest `limit` of the wanted retained lines, all of them if the limit is zero. */
  lemma FilteredReadIsExact(disk: Disk, manifest: Manifest, log: seq<Line>, expired: nat, limit: nat, since: Option<int>, after: Option<nat>)
    returns (kept: seq<nat>, wanted: seq<Line>)
    requires Live(disk, manifest, log, expired)
    ensures expired <= |log| && ArePicked(log[expired..], since, after, kept, wanted)
    ensures var page := DurablePage(disk, manifest, limit, since, after);
            && page.lines == Last(wanted, limit) && (page.truncated <==> 0 < limit < |wanted|)
            && page.high == |log| && page.next == |log| + 1
            && (page.cursorExpired <==> after.Some? && after.value < expired < |log|)
  {
    ReadsRefineLog(disk, manifest, log, expired, limit, since, after);
    LiveBounds(disk, manifest, log, expired);
    kept := FilteredIsExact(log[expired..], since, after);
    wanted := Filtered(log[expired..], since, after);
    hide Live, Loaded, LoadedActive, EarliestRetained, Filtered, ArePicked;
  }

  // ----------------------------------------------------------- what a cursor gets

  function Clamp(cursor: nat, log: seq<Line>): nat {
    if cursor < |log| then cursor else |log|
  }

  lemma CursorFilter(log: seq<Line>, expired: nat, cursor: nat)
    requires WellNumbered(log) && expired <= |log|
    ensures Filtered(log[expired..], None, Some(cursor)) == log[Max(expired, Clamp(cursor, log))..]
  {
    var start := Max(expired, Clamp(cursor, log));
    assert log[expired..] == log[expired..start] + log[start..];
    FilteredConcat(log[expired..start], log[start..], None, Some(cursor));
    FilteredBelowCursor(log[expired..start], None, Some(cursor));
    FilteredAboveCursor(log[start..], cursor);
  }

  /**
    A cursor read without `since`: complete exactly when the cursor is not below
    what has expired, cut only by the limit, and flagged exactly when incomplete
    unless nothing at all is retained.
   */
  lemma CursorPageIsExact(log: seq<Line>, expired: nat, cursor: nat, limit: nat)
    requires WellNumbered(log) && expired <= |log|
    ensures var page := Snapshot(log[expired..], limit, None, Some(cursor), |log|,
                                 if expired < |log| then Some(expired + 1) else None);
            && (page.truncated <==> limit > 0 && |log| - Max(expired, Clamp(cursor, log)) > limit)
            && (!page.truncated ==> (page.lines == log[Clamp(cursor, log)..] <==> expired <= Clamp(cursor, log)))
            && (page.truncated ==> page.lines == log[|log| - limit..])
            && (expired < |log| ==> (page.cursorExpired <==> cursor < expired))
            && (expired == |log| ==> !page.cursorExpired && page.lines == [])
  {
    CursorFilter(log, expired, cursor);
    var start := Max(expired, Clamp(cursor, log));
    if start > Clamp(cursor, log) {
      assert |log[start..]| < |log[Clamp(cursor, log)..]|;
    }
  }

  /** With nothing retained the expiry flag stays down although the cursor's lines are gone. */
  lemma ExpiryGoesUnnoticed(log: seq<Line>, cursor: nat)
    requires WellNumbered(log) && cursor < |log|
    ensures var page := Snapshot(log[|log|..], 0, None, Some(cursor), |log|, None);
            !page.cursorExpired && !page.truncated && page.lines == [] && log[cursor..] != []
  {
  }

  // ------------------------------------------------------------- in-memory journals

  const RING_CAPACITY := 10_000

  function Push(buffer: seq<Line>, line: Line): seq<Line> {
    (if |buffer| == RING_CAPACITY then buffer[1..] else buffer) + [line]
  }

  function Newest(log: seq<Line>): seq<Line> {
    if |log| <= RING_CAPACITY then log else log[|log| - RING_CAPACITY..]
  }

  lemma PushKeepsNewest(log: seq<Line>, line: Line)
    ensures Push(Newest(log), line) == Newest(log + [line])
  {
    if |log| >= RING_CAPACITY {
      assert Newest(log)[1..] + [line] == (log + [line])[|log| + 1 - RING_CAPACITY..];
    }
  }

  function PushAll(buffer: seq<Line>, lines: seq<Line>): seq<Line>
    decreases |lines|
  {
    if lines == [] then buffer else PushAll(Push(buffer, lines[0]), lines[1..])
  }

  /** A ring loaded with the newest of some lines holds, after any appends, exactly the newest of those lines and the appended ones. */
  lemma {:induction false} RingHoldsTheNewest(loaded: seq<Line>, appended: seq<Line>)
    ensures PushAll(Newest(loaded), appended) == Newest(loaded + appended)
    decreases |appended|
  {
    if appended == [] {
      assert loaded + appended == loaded;
    } else {
      PushKeepsNewest(loaded, appended[0]);
      RingHoldsTheNewest(loaded + [appended[0]], appended[1..]);
      assert (loaded + [appended[0]]) + appended[1..] == loaded + appended;
    }
  }

  /**
    Without a log directory the reader sees the ring, yet the manifest still
    starts at 1: the page is complete only from the ring's oldest line on, and no
    cursor is ever reported as expired.
   */
  lemma RingReadsAreBlind(log: seq<Line>, cursor: nat)
    requires WellNumbered(log) && cursor <= |log|
    ensures var page := Snapshot(Newest(log), 0, None, Some(cursor), |log|, if log == [] then None else Some(1));
            && !page.cursorExpired && !page.truncated
            && (page.lines == log[cursor..] <==> |log| - cursor <= RING_CAPACITY)
  {
    var evicted := |log| - |Newest(log)|;
    assert Newest(log) == log[evicted..];
    CursorFilter(log, evicted, cursor);
    assert |log[Max(evicted, cursor)..]| == |log| - Max(evicted, cursor);
  }
}
