/** Metric retention: raw samples are folded into minute aggregates once their minute is sealed. */
module Downsampling {
  import opened Options

  datatype Sample = Sample(id: nat, time: int, source: string, cpu: Option<real>, memory: Option<nat>, partial: bool)

  datatype Aggregate = Aggregate(cpu: Option<real>, memory: Option<nat>, partial: bool)

  datatype Key = Key(source: string, bucket: int)

  /** Times are seconds. */
  const MINUTE := 60
  const RAW_RETENTION := 24 * 3600
  const MINUTE_RETENTION := 30 * 24 * 3600

  /** The start of the minute a time falls in. */
  function Align(time: int): (start: int)
    ensures start <= time < start + MINUTE && start % MINUTE == 0
  {
    time - time % MINUTE
  }

  function KeyOf(sample: Sample): Key {
    Key(sample.source, Align(sample.time))
  }

  function SealedCutoff(now: int): int {
    Align(now - RAW_RETENTION)
  }

  /** The cutoff falls between minutes: samples of one bucket are sealed together. */
  lemma CutoffNeverSplitsABucket(now: int, a: Sample, b: Sample)
    requires KeyOf(a) == KeyOf(b)
    ensures a.time < SealedCutoff(now) <==> b.time < SealedCutoff(now)
    ensures a.time < SealedCutoff(now) <==> KeyOf(a).bucket + MINUTE <= SealedCutoff(now)
  {
    AlignedStep(KeyOf(a).bucket, SealedCutoff(now));
  }

  lemma AlignedStep(a: int, b: int)
    requires a % MINUTE == 0 && b % MINUTE == 0
    ensures a < b <==> a + MINUTE <= b
  {
  }

  // ------------------------------------------------------------------- one aggregate

  datatype MinuteMetric = MinuteMetric(cpuSum: real, cpuCount: nat, memorySum: nat, memoryCount: nat, partial: bool)

  const NO_SAMPLES := MinuteMetric(0.0, 0, 0, 0, false)

  function Add(m: MinuteMetric, sample: Sample): MinuteMetric {
    MinuteMetric(
      if sample.cpu.Some? then m.cpuSum + sample.cpu.value else m.cpuSum,
      if sample.cpu.Some? then m.cpuCount + 1 else m.cpuCount,
      if sample.memory.Some? then m.memorySum + sample.memory.value else m.memorySum,
      if sample.memory.Some? then m.memoryCount + 1 else m.memoryCount,
      m.partial || sample.partial || sample.cpu.None? || sample.memory.None?)
  }

  function Fold(samples: seq<Sample>): MinuteMetric {
    if samples == [] then NO_SAMPLES else Add(Fold(samples[..|samples| - 1]), samples[|samples| - 1])
  }

  function Summary(m: MinuteMetric): Aggregate {
    Aggregate(
      if m.cpuCount > 0 then Some(m.cpuSum / m.cpuCount as real) else None,
      if m.memoryCount > 0 then Some(m.memorySum / m.memoryCount) else None,
      m.partial)
  }

  function Times(x: real, count: nat): real {
    if count == 0 then 0.0 else Times(x, count - 1) + x
  }

  lemma {:induction false} TimesMultiplies(x: real, count: nat)
    ensures Times(x, count) == x * count as real
  {
    if count > 0 {
      TimesMultiplies(x, count - 1);
      var rest := (count - 1) as real;
      assert count as real == rest + 1.0;
      assert x * (rest + 1.0) == x * rest + x;
    }
  }

  lemma {:induction false} CpuAddsUp(samples: seq<Sample>, low: real, high: real)
    requires forall s :: s in samples && s.cpu.Some? ==> low <= s.cpu.value <= high
    ensures Times(low, Fold(samples).cpuCount) <= Fold(samples).cpuSum <= Times(high, Fold(samples).cpuCount)
    decreases |samples|
  {
    if samples != [] {
      CpuAddsUp(samples[..|samples| - 1], low, high);
      assert samples[|samples| - 1] in samples;
    }
  }

  lemma CpuIsBounded(samples: seq<Sample>, low: real, high: real)
    requires forall s :: s in samples && s.cpu.Some? ==> low <= s.cpu.value <= high
    ensures low * Fold(samples).cpuCount as real <= Fold(samples).cpuSum <= high * Fold(samples).cpuCount as real
  {
    CpuAddsUp(samples, low, high);
    TimesMultiplies(low, Fold(samples).cpuCount);
    TimesMultiplies(high, Fold(samples).cpuCount);
    hide Fold, Times;
  }

  function Multiple(x: nat, count: nat): nat {
    if count == 0 then 0 else Multiple(x, count - 1) + x
  }

  lemma {:induction false} MultipleMultiplies(x: nat, count: nat)
    ensures Multiple(x, count) == x * count
  {
    if count > 0 {
      MultipleMultiplies(x, count - 1);
      assert x * count == x * (count - 1) + x;
    }
  }

  lemma {:induction false} MemoryAddsUp(samples: seq<Sample>, low: nat, high: nat)
    requires forall s :: s in samples && s.memory.Some? ==> low <= s.memory.value <= high
    ensures Multiple(low, Fold(samples).memoryCount) <= Fold(samples).memorySum <= Multiple(high, Fold(samples).memoryCount)
    decreases |samples|
  {
    if samples != [] {
      MemoryAddsUp(samples[..|samples| - 1], low, high);
      assert samples[|samples| - 1] in samples;
    }
  }

  lemma MemoryIsBounded(samples: seq<Sample>, low: nat, high: nat)
    requires forall s :: s in samples && s.memory.Some? ==> low <= s.memory.value <= high
    ensures low * Fold(samples).memoryCount <= Fold(samples).memorySum <= high * Fold(samples).memoryCount
  {
    MemoryAddsUp(samples, low, high);
    MultipleMultiplies(low, Fold(samples).memoryCount);
    MultipleMultiplies(high, Fold(samples).memoryCount);
    hide Fold, Multiple;
  }

  lemma Cancel(a: int, b: int, count: nat)
    requires a * count < b * count
    ensures a < b
  {
    assert a >= b ==> (a - b) * count >= 0;
    assert (a - b) * count == a * count - b * count;
  }

  lemma QuotientIsBetween(sum: nat, count: nat, low: nat, high: nat)
    requires count > 0 && low * count <= sum <= high * count
    ensures low <= sum / count <= high
  {
    var q := sum / count;
    assert q * count <= sum < (q + 1) * count;
    Cancel(low, q + 1, count);
    assert (high + 1) * count == high * count + count;
    Cancel(q, high + 1, count);
  }

  /** The means lie between the smallest and the greatest value folded in. */
  lemma MeansAreBetween(samples: seq<Sample>, low: nat, high: nat, cpuLow: real, cpuHigh: real)
    requires forall s :: s in samples && s.memory.Some? ==> low <= s.memory.value <= high
    requires forall s :: s in samples && s.cpu.Some? ==> cpuLow <= s.cpu.value <= cpuHigh
    ensures var a := Summary(Fold(samples));
            && (a.memory.Some? ==> low <= a.memory.value <= high)
            && (a.cpu.Some? ==> cpuLow <= a.cpu.value <= cpuHigh)
  {
    hide Fold;
    MemoryMeanIsBetween(Fold(samples), samples, low, high);
    CpuMeanIsBetween(Fold(samples), samples, cpuLow, cpuHigh);
  }

  predicate HasGap(sample: Sample) {
    sample.partial || sample.cpu.None? || sample.memory.None?
  }

  /** An aggregate is marked partial exactly when some sample has a gap, and has a mean exactly when some sample has a value. */
  lemma {:induction false} GapsAreRemembered(samples: seq<Sample>)
    ensures var a := Summary(Fold(samples));
            && (a.partial <==> exists s :: s in samples && HasGap(s))
            && (a.memory.Some? <==> exists s :: s in samples && s.memory.Some?)
            && (a.cpu.Some? <==> exists s :: s in samples && s.cpu.Some?)
    decreases |samples|
  {
    if samples != [] {
      var rest, last := samples[..|samples| - 1], samples[|samples| - 1];
      GapsAreRemembered(rest);
      assert samples == rest + [last];
      assert forall s :: s in samples <==> s in rest || s == last;
      assert Fold(samples) == Add(Fold(rest), last);
      hide Fold;
      if s :| s in rest && HasGap(s) {
        assert s in samples;
      }
      if s :| s in rest && s.memory.Some? {
        assert s in samples;
      }
      if s :| s in rest && s.cpu.Some? {
        assert s in samples;
      }
      assert last in samples;
    }
  }

  lemma MemoryMeanIsBetween(m: MinuteMetric, samples: seq<Sample>, low: nat, high: nat)
    requires m == Fold(samples)
    requires forall s :: s in samples && s.memory.Some? ==> low <= s.memory.value <= high
    ensures m.memoryCount > 0 ==> low <= m.memorySum / m.memoryCount <= high
  {
    hide Fold;
    MemoryIsBounded(samples, low, high);
    if m.memoryCount > 0 {
      QuotientIsBetween(m.memorySum, m.memoryCount, low, high);
    }
  }

  lemma CpuMeanIsBetween(m: MinuteMetric, samples: seq<Sample>, low: real, high: real)
    requires m == Fold(samples)
    requires forall s :: s in samples && s.cpu.Some? ==> low <= s.cpu.value <= high
    ensures m.cpuCount > 0 ==> low <= m.cpuSum / m.cpuCount as real <= high
  {
    hide Fold;
    CpuIsBounded(samples, low, high);
    if m.cpuCount > 0 {
      RealQuotientIsBetween(m.cpuSum, m.cpuCount as real, low, high);
    }
  }

  lemma RealQuotientIsBetween(sum: real, count: real, low: real, high: real)
    requires count > 0.0 && low * count <= sum <= high * count
    ensures low <= sum / count <= high
  {
    var q := sum / count;
    assert q * count == sum;
    assert (q - low) * count >= 0.0 && (high - q) * count >= 0.0;
  }

  /** 64-bit values of fewer than two to the 64 samples cannot saturate the 128-bit sum. */
  lemma SumNeverSaturates(samples: seq<Sample>)
    requires |samples| < 0x1_0000_0000_0000_0000
    requires forall s :: s in samples && s.memory.Some? ==> s.memory.value < 0x1_0000_0000_0000_0000
    ensures Fold(samples).memorySum < 0x1_0000_0000_0000_0000 * 0x1_0000_0000_0000_0000
  {
    var top := 0x1_0000_0000_0000_0000 - 1;
    CountsAreSmall(samples);
    MemoryIsBounded(samples, 0, top);
    hide Fold;
    assert top * Fold(samples).memoryCount <= top * top;
  }

  lemma {:induction false} CountsAreSmall(samples: seq<Sample>)
    ensures Fold(samples).memoryCount <= |samples|
    decreases |samples|
  {
    if samples != [] {
      CountsAreSmall(samples[..|samples| - 1]);
    }
  }

  // ------------------------------------------------------------------- maintenance

  datatype Store = Store(raw: seq<Sample>, minutes: map<Key, Aggregate>)

  function Before(rows: seq<Sample>, cutoff: int): (kept: seq<Sample>)
    ensures forall s :: s in kept <==> s in rows && s.time < cutoff
  {
    if rows == [] then []
    else Before(rows[..|rows| - 1], cutoff) + (if rows[|rows| - 1].time < cutoff then [rows[|rows| - 1]] else [])
  }

  function From(rows: seq<Sample>, cutoff: int): (kept: seq<Sample>)
    ensures forall s :: s in kept <==> s in rows && s.time >= cutoff
  {
    if rows == [] then []
    else From(rows[..|rows| - 1], cutoff) + (if rows[|rows| - 1].time >= cutoff then [rows[|rows| - 1]] else [])
  }

  function Group(rows: seq<Sample>, key: Key): (group: seq<Sample>)
    ensures forall s :: s in group <==> s in rows && KeyOf(s) == key
  {
    if rows == [] then []
    else Group(rows[..|rows| - 1], key) + (if KeyOf(rows[|rows| - 1]) == key then [rows[|rows| - 1]] else [])
  }

  function KeysOf(rows: seq<Sample>): set<Key> {
    set s | s in rows :: KeyOf(s)
  }

  /** The sealed rows, one aggregate for each source and minute. */
  function Aggregated(rows: seq<Sample>): map<Key, Aggregate> {
    map key | key in KeysOf(rows) :: Summary(Fold(Group(rows, key)))
  }

  function Unexpired(minutes: map<Key, Aggregate>, cutoff: int): map<Key, Aggregate> {
    map key | key in minutes && key.bucket >= cutoff :: minutes[key]
  }

  /** An existing aggregate is never changed. */
  function Maintain(s: Store, now: int): Store {
    var rows := Before(s.raw, SealedCutoff(now));
    Store(From(s.raw, SealedCutoff(now)), Unexpired(Aggregated(rows) + s.minutes, now - MINUTE_RETENTION))
  }

  function Record(s: Store, sample: Sample): Store {
    if exists r :: r in s.raw && r.id == sample.id then s else s.(raw := s.raw + [sample])
  }

  // ------------------------------------------------------------------- conservation

  /** Where a recorded sample is counted; a lost one met an aggregate that was already there. */
  datatype Place = Raw | In(key: Key) | Expired | Lost

  /** What was recorded under each identifier, the one place it is counted in, and the rows each aggregate was folded from. */
  datatype Ledger = Ledger(samples: map<nat, Sample>, places: map<nat, Place>, sources: map<Key, seq<Sample>>)

  function Find(rows: seq<Sample>, id: nat): (found: Option<Sample>)
    ensures found.Some? ==> found.value in rows && found.value.id == id
    ensures found.None? ==> forall s :: s in rows ==> s.id != id
  {
    if rows == [] then None
    else if rows[|rows| - 1].id == id then Some(rows[|rows| - 1])
    else Find(rows[..|rows| - 1], id)
  }

  predicate DistinctIds(rows: seq<Sample>) {
    forall i, j :: 0 <= i < j < |rows| ==> rows[i].id != rows[j].id
  }

  function NextPlace(place: Place, id: nat, s: Store, now: int): Place {
    match place
    case Raw =>
      var sample := Find(s.raw, id);
      if sample.None? || sample.value.time >= SealedCutoff(now) then Raw
      else if KeyOf(sample.value) in s.minutes then Lost
      else if KeyOf(sample.value).bucket < now - MINUTE_RETENTION then Expired
      else In(KeyOf(sample.value))
    case In(key) => if key.bucket < now - MINUTE_RETENTION then Expired else place
    case _ => place
  }

  function MaintainLedger(l: Ledger, s: Store, now: int): Ledger {
    Ledger(
      l.samples,
      map id | id in l.places :: NextPlace(l.places[id], id, s, now),
      map key | key in Maintain(s, now).minutes ::
        if key in l.sources then l.sources[key] else Group(Before(s.raw, SealedCutoff(now)), key))
  }

  function RecordLedger(l: Ledger, s: Store, sample: Sample): Ledger {
    if exists r :: r in s.raw && r.id == sample.id then l
    else l.(samples := l.samples[sample.id := sample], places := l.places[sample.id := Raw])
  }

  predicate IsPlaced(l: Ledger, id: nat, place: Place) {
    id in l.places && l.places[id] == place
  }

  ghost predicate RawIsCounted(l: Ledger, s: Store) {
    DistinctIds(s.raw) && forall id :: IsPlaced(l, id, Raw) <==> Find(s.raw, id).Some?
  }

  /** Every aggregate is the summary of exactly the samples placed in it. */
  ghost predicate AggregatesAreExact(l: Ledger, s: Store) {
    && l.sources.Keys == s.minutes.Keys
    && (forall key :: key in s.minutes ==> s.minutes[key] == Summary(Fold(l.sources[key])))
    && forall key, id :: IsPlaced(l, id, In(key)) <==> key in l.sources && Find(l.sources[key], id).Some?
  }

  /** Rows that occur once each, as they were recorded. */
  ghost predicate AreRecorded(l: Ledger, rows: seq<Sample>) {
    DistinctIds(rows) && forall r :: r in rows ==> r.id in l.samples && l.samples[r.id] == r
  }

  /** No aggregate counts a sample twice, a sample of another minute or source, or anything that was not recorded. */
  ghost predicate SourcesAreSamples(l: Ledger, s: Store) {
    && l.samples.Keys == l.places.Keys && (forall id :: id in l.samples ==> l.samples[id].id == id)
    && AreRecorded(l, s.raw)
    && forall key :: key in l.sources ==> AreRecorded(l, l.sources[key]) && forall r :: r in l.sources[key] ==> KeyOf(r) == key
  }

  ghost predicate Conserves(l: Ledger, s: Store) {
    RawIsCounted(l, s) && AggregatesAreExact(l, s) && SourcesAreSamples(l, s)
  }

  lemma FoundIsUnique(rows: seq<Sample>, sample: Sample)
    requires DistinctIds(rows) && sample in rows
    ensures Find(rows, sample.id) == Some(sample)
  {
    var i :| 0 <= i < |rows| && rows[i] == sample;
    var found := Find(rows, sample.id).value;
    var j :| 0 <= j < |rows| && rows[j] == found;
    assert i == j;
  }

  lemma {:induction false} FromKeepsDistinct(rows: seq<Sample>, cutoff: int)
    requires DistinctIds(rows)
    ensures DistinctIds(From(rows, cutoff))
    decreases |rows|
  {
    if rows != [] {
      var front, last, kept := rows[..|rows| - 1], rows[|rows| - 1], From(rows[..|rows| - 1], cutoff);
      FromKeepsDistinct(front, cutoff);
      forall i | 0 <= i < |kept| ensures kept[i].id != last.id {
        assert kept[i] in kept;
        var k :| 0 <= k < |front| && front[k] == kept[i];
        assert rows[k].id != rows[|rows| - 1].id;
      }
    }
  }

  lemma {:induction false} BeforeKeepsDistinct(rows: seq<Sample>, cutoff: int)
    requires DistinctIds(rows)
    ensures DistinctIds(Before(rows, cutoff))
    decreases |rows|
  {
    if rows != [] {
      var front, last, kept := rows[..|rows| - 1], rows[|rows| - 1], Before(rows[..|rows| - 1], cutoff);
      BeforeKeepsDistinct(front, cutoff);
      forall i | 0 <= i < |kept| ensures kept[i].id != last.id {
        assert kept[i] in kept;
        var k :| 0 <= k < |front| && front[k] == kept[i];
        assert rows[k].id != rows[|rows| - 1].id;
      }
    }
  }

  lemma {:induction false} GroupKeepsDistinct(rows: seq<Sample>, key: Key)
    requires DistinctIds(rows)
    ensures DistinctIds(Group(rows, key))
    decreases |rows|
  {
    if rows != [] {
      var front, last, kept := rows[..|rows| - 1], rows[|rows| - 1], Group(rows[..|rows| - 1], key);
      GroupKeepsDistinct(front, key);
      forall i | 0 <= i < |kept| ensures kept[i].id != last.id {
        assert kept[i] in kept;
        var k :| 0 <= k < |front| && front[k] == kept[i];
        assert rows[k].id != rows[|rows| - 1].id;
      }
    }
  }

  lemma SealedAreRecorded(l: Ledger, rows: seq<Sample>, cutoff: int, key: Key)
    requires AreRecorded(l, rows)
    ensures AreRecorded(l, From(rows, cutoff)) && AreRecorded(l, Group(Before(rows, cutoff), key))
  {
    FromKeepsDistinct(rows, cutoff);
    BeforeKeepsDistinct(rows, cutoff);
    GroupKeepsDistinct(Before(rows, cutoff), key);
  }

  lemma SourceAfter(l: Ledger, s: Store, now: int, key: Key)
    requires AggregatesAreExact(l, s) && SourcesAreSamples(l, s) && key in MaintainLedger(l, s, now).sources
    ensures var rows := MaintainLedger(l, s, now).sources[key];
            AreRecorded(l, rows) && forall r :: r in rows ==> KeyOf(r) == key
  {
    SourcesAfter(l, s, now, key);
    SealedAreRecorded(l, s.raw, SealedCutoff(now), key);
    hide MaintainLedger, AggregatesAreExact, AreRecorded, Before, From, KeyOf, SealedCutoff;
  }

  lemma SameSamples(l: Ledger, r: Ledger, rows: seq<Sample>)
    requires AreRecorded(l, rows) && r.samples == l.samples
    ensures AreRecorded(r, rows)
  {
    hide DistinctIds;
  }

  lemma MaintainKeepsSources(l: Ledger, s: Store, now: int)
    requires AggregatesAreExact(l, s) && SourcesAreSamples(l, s)
    ensures SourcesAreSamples(MaintainLedger(l, s, now), Maintain(s, now))
  {
    var r := MaintainLedger(l, s, now);
    PlacesAfter(l, s, now, 0);
    SamplesAfter(l, s, now);
    SealedAreRecorded(l, s.raw, SealedCutoff(now), Key("", 0));
    assert Maintain(s, now).raw == From(s.raw, SealedCutoff(now));
    hide MaintainLedger, Maintain, AggregatesAreExact, AreRecorded, KeyOf, From, SealedCutoff, Group, Before;
    SameSamples(l, r, Maintain(s, now).raw);
    forall key | key in r.sources ensures AreRecorded(r, r.sources[key]) && forall row :: row in r.sources[key] ==> KeyOf(row) == key {
      SourceAfter(l, s, now, key);
      SameSamples(l, r, r.sources[key]);
    }
  }

  lemma SamplesAfter(l: Ledger, s: Store, now: int)
    ensures MaintainLedger(l, s, now).samples == l.samples
  {
  }

  lemma RecordKeepsSources(l: Ledger, s: Store, sample: Sample)
    requires SourcesAreSamples(l, s) && sample.id !in l.places && !exists r :: r in s.raw && r.id == sample.id
    ensures SourcesAreSamples(RecordLedger(l, s, sample), Record(s, sample))
  {
    var l' := RecordLedger(l, s, sample);
    forall i | 0 <= i < |s.raw| ensures s.raw[i].id != sample.id {
      assert s.raw[i] in s.raw;
    }
    assert AreRecorded(l', s.raw + [sample]);
    forall key | key in l'.sources
      ensures AreRecorded(l', l'.sources[key]) && forall r :: r in l'.sources[key] ==> KeyOf(r) == key
    {
      assert AreRecorded(l, l.sources[key]);
    }
  }

  /** What is left of the raw rows, by identifier. */
  lemma FindInFrom(rows: seq<Sample>, cutoff: int, id: nat)
    requires DistinctIds(rows)
    ensures Find(From(rows, cutoff), id).Some? <==> Find(rows, id).Some? && Find(rows, id).value.time >= cutoff
  {
    var found := Find(From(rows, cutoff), id);
    if found.Some? {
      FoundIsUnique(rows, found.value);
    }
    if Find(rows, id).Some? && Find(rows, id).value.time >= cutoff {
      assert Find(rows, id).value in From(rows, cutoff);
    }
  }

  lemma FindInGroup(rows: seq<Sample>, cutoff: int, key: Key, id: nat)
    requires DistinctIds(rows)
    ensures Find(Group(Before(rows, cutoff), key), id).Some?
       <==> Find(rows, id).Some? && Find(rows, id).value.time < cutoff && KeyOf(Find(rows, id).value) == key
  {
    var group := Group(Before(rows, cutoff), key);
    if Find(group, id).Some? {
      FoundIsUnique(rows, Find(group, id).value);
    }
    if Find(rows, id).Some? && Find(rows, id).value.time < cutoff && KeyOf(Find(rows, id).value) == key {
      assert Find(rows, id).value in group;
    }
  }

  lemma KeysOfSealed(rows: seq<Sample>, cutoff: int, id: nat)
    requires Find(rows, id).Some? && Find(rows, id).value.time < cutoff
    ensures KeyOf(Find(rows, id).value) in KeysOf(Before(rows, cutoff))
  {
    assert Find(rows, id).value in Before(rows, cutoff);
  }

  lemma MaintainKeepsRaw(l: Ledger, s: Store, now: int)
    requires Conserves(l, s)
    ensures RawIsCounted(MaintainLedger(l, s, now), Maintain(s, now))
  {
    FromKeepsDistinct(s.raw, SealedCutoff(now));
    assert Maintain(s, now).raw == From(s.raw, SealedCutoff(now));
    forall id ensures IsPlaced(MaintainLedger(l, s, now), id, Raw) <==> Find(Maintain(s, now).raw, id).Some? {
      FindInFrom(s.raw, SealedCutoff(now), id);
      PlacesAfter(l, s, now, id);
      hide MaintainLedger, Maintain, From, Find, SealedCutoff, KeyOf, AggregatesAreExact, SourcesAreSamples;
      assert IsPlaced(l, id, Raw) <==> Find(s.raw, id).Some?;
    }
    hide MaintainLedger, Maintain, From, Find, SealedCutoff, AggregatesAreExact, SourcesAreSamples;
  }

  lemma MaintainKeepsSummaries(l: Ledger, s: Store, now: int)
    requires AggregatesAreExact(l, s)
    ensures var l', s' := MaintainLedger(l, s, now), Maintain(s, now);
            l'.sources.Keys == s'.minutes.Keys && forall key :: key in s'.minutes ==> s'.minutes[key] == Summary(Fold(l'.sources[key]))
  {
    hide Fold, Summary, Group, Before;
  }

  lemma MaintainPlaces(l: Ledger, s: Store, now: int, key: Key, id: nat)
    requires Conserves(l, s)
    ensures var l' := MaintainLedger(l, s, now);
            IsPlaced(l', id, In(key)) <==> key in l'.sources && Find(l'.sources[key], id).Some?
  {
    CountedIn(l, s, key, id);
    SourcesAfter(l, s, now, key);
    PlacesAfter(l, s, now, id);
    FindInGroup(s.raw, SealedCutoff(now), key, id) by { assert DistinctIds(s.raw); }
    if Find(s.raw, id).Some? && Find(s.raw, id).value.time < SealedCutoff(now) {
      KeysOfSealed(s.raw, SealedCutoff(now), id);
    }
    if id in l.places {
      NextPlaceIsIn(l.places[id], id, s, now, key);
    }
    hide *;
    PlacedIs(l, id, Raw);
    PlacedIs(l, id, In(key));
    PlacedIs(MaintainLedger(l, s, now), id, In(key));
  }

  lemma PlacedIs(l: Ledger, id: nat, place: Place)
    ensures IsPlaced(l, id, place) <==> id in l.places && l.places[id] == place
  {
  }

  lemma CountedIn(l: Ledger, s: Store, key: Key, id: nat)
    requires Conserves(l, s)
    ensures IsPlaced(l, id, Raw) <==> Find(s.raw, id).Some?
    ensures IsPlaced(l, id, In(key)) <==> key in l.sources && Find(l.sources[key], id).Some?
    ensures l.sources.Keys == s.minutes.Keys
  {
    hide Find, Fold, Summary;
  }

  lemma NextPlaceIsIn(place: Place, id: nat, s: Store, now: int, key: Key)
    ensures NextPlace(place, id, s, now) == In(key)
       <==> (place == In(key) && key.bucket >= now - MINUTE_RETENTION)
            || (place == Raw && Find(s.raw, id).Some? && Find(s.raw, id).value.time < SealedCutoff(now)
                && KeyOf(Find(s.raw, id).value) == key && key !in s.minutes && key.bucket >= now - MINUTE_RETENTION)
  {
    hide Find, KeyOf, SealedCutoff;
  }

  lemma SourcesAfter(l: Ledger, s: Store, now: int, key: Key)
    requires AggregatesAreExact(l, s)
    ensures var l', rows := MaintainLedger(l, s, now), Before(s.raw, SealedCutoff(now));
            && (key in l'.sources <==> (key in s.minutes || key in KeysOf(rows)) && key.bucket >= now - MINUTE_RETENTION)
            && (key in l'.sources ==> l'.sources[key] == if key in s.minutes then l.sources[key] else Group(rows, key))
  {
    hide Fold, Summary, Group, Before;
  }

  lemma PlacesAfter(l: Ledger, s: Store, now: int, id: nat)
    ensures var l' := MaintainLedger(l, s, now);
            && l'.places.Keys == l.places.Keys
            && (id in l.places ==> l'.places[id] == NextPlace(l.places[id], id, s, now))
  {
  }

  /**
    Maintenance moves each recorded sample from one place to one place: raw rows and aggregates stay exactly
    what the ledger says, and every aggregate remains the summary of exactly its samples.
   */
  lemma MaintainConserves(l: Ledger, s: Store, now: int)
    requires Conserves(l, s)
    ensures Conserves(MaintainLedger(l, s, now), Maintain(s, now))
    ensures MaintainLedger(l, s, now).places.Keys == l.places.Keys
  {
    MaintainKeepsRaw(l, s, now);
    MaintainKeepsSummaries(l, s, now);
    MaintainKeepsSources(l, s, now);
    PlacesAfter(l, s, now, 0);
    forall key, id ensures var l' := MaintainLedger(l, s, now);
      IsPlaced(l', id, In(key)) <==> key in l'.sources && Find(l'.sources[key], id).Some?
    {
      MaintainPlaces(l, s, now, key, id);
    }
    hide MaintainLedger, Maintain, Fold, Summary, SourcesAreSamples;
  }

  /** A new sample is counted once, as a raw row. */
  lemma RecordConserves(l: Ledger, s: Store, sample: Sample)
    requires Conserves(l, s) && (sample.id in l.places ==> l.places[sample.id] == Raw)
    ensures Conserves(RecordLedger(l, s, sample), Record(s, sample))
  {
    if !exists r :: r in s.raw && r.id == sample.id {
      NewIsUnplaced(l, s, sample);
      RecordKeepsRaw(l, s, sample);
      RecordKeepsAggregates(l, s, sample);
      RecordKeepsSources(l, s, sample);
      hide RawIsCounted, AggregatesAreExact, SourcesAreSamples, Record;
    }
  }

  lemma NewIsUnplaced(l: Ledger, s: Store, sample: Sample)
    requires RawIsCounted(l, s) && (sample.id in l.places ==> l.places[sample.id] == Raw)
    requires !exists r :: r in s.raw && r.id == sample.id
    ensures sample.id !in l.places
  {
    assert IsPlaced(l, sample.id, Raw) <==> Find(s.raw, sample.id).Some?;
  }

  lemma FindAfterRecord(rows: seq<Sample>, sample: Sample, id: nat)
    ensures Find(rows + [sample], id) == if id == sample.id then Some(sample) else Find(rows, id)
  {
    assert (rows + [sample])[..|rows|] == rows;
  }

  lemma RecordKeepsRaw(l: Ledger, s: Store, sample: Sample)
    requires RawIsCounted(l, s) && !exists r :: r in s.raw && r.id == sample.id
    ensures RawIsCounted(RecordLedger(l, s, sample), s.(raw := s.raw + [sample]))
  {
    forall i | 0 <= i < |s.raw| ensures s.raw[i].id != sample.id {
      assert s.raw[i] in s.raw;
    }
    assert DistinctIds(s.raw + [sample]);
    forall id ensures IsPlaced(RecordLedger(l, s, sample), id, Raw) <==> Find(s.raw + [sample], id).Some? {
      FindAfterRecord(s.raw, sample, id);
      assert IsPlaced(l, id, Raw) <==> Find(s.raw, id).Some?;
    }
  }

  lemma RecordKeepsAggregates(l: Ledger, s: Store, sample: Sample)
    requires AggregatesAreExact(l, s) && (sample.id in l.places ==> l.places[sample.id] == Raw)
    requires !exists r :: r in s.raw && r.id == sample.id
    ensures AggregatesAreExact(RecordLedger(l, s, sample), s.(raw := s.raw + [sample]))
  {
    hide Find, Fold, Summary;
    var l' := RecordLedger(l, s, sample);
    forall key, id ensures IsPlaced(l', id, In(key)) <==> key in l'.sources && Find(l'.sources[key], id).Some? {
      assert IsPlaced(l, id, In(key)) <==> key in l.sources && Find(l.sources[key], id).Some?;
    }
  }

  lemma {:induction false} DistinctOccurOnce(rows: seq<Sample>, sample: Sample)
    requires DistinctIds(rows)
    ensures multiset(rows)[sample] == if sample in rows then 1 else 0
    decreases |rows|
  {
    if rows != [] {
      var front, last := rows[..|rows| - 1], rows[|rows| - 1];
      DistinctOccurOnce(front, sample);
      assert rows == front + [last];
      forall i | 0 <= i < |front| ensures front[i] != last {
        assert rows[i].id != rows[|rows| - 1].id;
      }
    }
  }

  lemma RecordedOccurs(l: Ledger, rows: seq<Sample>, id: nat)
    requires AreRecorded(l, rows) && id in l.samples && l.samples[id].id == id
    ensures multiset(rows)[l.samples[id]] == if Find(rows, id).Some? then 1 else 0
    ensures Find(rows, id).Some? ==> Find(rows, id).value == l.samples[id] && l.samples[id] in rows
  {
    DistinctOccurOnce(rows, l.samples[id]);
    if l.samples[id] in rows {
      FoundIsUnique(rows, l.samples[id]);
    }
  }

  /**
    Every recorded sample is counted exactly once: as one raw row, or once among the rows its own minute's aggregate
    was folded from, or nowhere when its aggregate has expired or it was lost.
   */
  lemma CountedExactlyOnce(l: Ledger, s: Store, id: nat)
    requires Conserves(l, s) && id in l.samples
    ensures var sample, place := l.samples[id], l.places[id];
            && multiset(s.raw)[sample] == (if place == Raw then 1 else 0)
            && (forall key :: key in l.sources ==> multiset(l.sources[key])[sample] == if place == In(key) then 1 else 0)
            && (place.In? ==> place.key == KeyOf(sample) && place.key in s.minutes)
  {
    var sample, place := l.samples[id], l.places[id];
    RecordedOccurs(l, s.raw, id);
    assert IsPlaced(l, id, Raw) <==> Find(s.raw, id).Some?;
    hide RawIsCounted, Find, KeyOf, Fold, Summary, AreRecorded;
    forall key | key in l.sources
      ensures multiset(l.sources[key])[sample] == if place == In(key) then 1 else 0
      ensures place == In(key) ==> key == KeyOf(sample)
    {
      assert AreRecorded(l, l.sources[key]);
      RecordedOccurs(l, l.sources[key], id);
      assert IsPlaced(l, id, In(key)) <==> Find(l.sources[key], id).Some?;
    }
    if place.In? {
      assert IsPlaced(l, id, In(place.key));
    }
  }

  // ------------------------------------------------------------------- what may be lost

  /** Sources and minutes that are to be folded although an aggregate is already there. */
  function Conflicts(s: Store, now: int): set<Key> {
    KeysOf(Before(s.raw, SealedCutoff(now))) * s.minutes.Keys
  }

  ghost predicate LosesSome(l: Ledger, s: Store, now: int) {
    exists id :: IsPlaced(MaintainLedger(l, s, now), id, Lost) && !IsPlaced(l, id, Lost)
  }

  lemma ConflictLoses(l: Ledger, s: Store, now: int, key: Key)
    requires RawIsCounted(l, s) && key in Conflicts(s, now)
    ensures LosesSome(l, s, now)
  {
    var sample :| sample in Before(s.raw, SealedCutoff(now)) && KeyOf(sample) == key;
    FoundIsUnique(s.raw, sample);
    PlacesAfter(l, s, now, sample.id);
    assert IsPlaced(l, sample.id, Raw);
    hide MaintainLedger, Find, Before;
    assert IsPlaced(MaintainLedger(l, s, now), sample.id, Lost);
  }

  lemma LossConflicts(l: Ledger, s: Store, now: int, id: nat)
    requires RawIsCounted(l, s)
    requires IsPlaced(MaintainLedger(l, s, now), id, Lost) && !IsPlaced(l, id, Lost)
    ensures Conflicts(s, now) != {}
  {
    PlacesAfter(l, s, now, id);
    hide MaintainLedger;
    assert IsPlaced(l, id, Raw);
    KeysOfSealed(s.raw, SealedCutoff(now), id);
    assert KeyOf(Find(s.raw, id).value) in Conflicts(s, now);
  }

  /** A maintenance loses samples exactly when a sealed row falls into a minute that already has its aggregate. */
  lemma LosesIffConflict(l: Ledger, s: Store, now: int)
    requires Conserves(l, s)
    ensures LosesSome(l, s, now) <==> Conflicts(s, now) != {}
  {
    hide MaintainLedger, Conflicts, RawIsCounted, AggregatesAreExact, SourcesAreSamples;
    if key :| key in Conflicts(s, now) {
      ConflictLoses(l, s, now, key);
    }
    if LosesSome(l, s, now) {
      var id :| IsPlaced(MaintainLedger(l, s, now), id, Lost) && !IsPlaced(l, id, Lost);
      LossConflicts(l, s, now, id);
    }
  }

  datatype Event = Recorded(sample: Sample) | Maintained(now: int)

  datatype History = History(ledger: Ledger, store: Store, sealedTo: int)

  function Step(h: History, event: Event): History {
    match event
    case Recorded(sample) => History(RecordLedger(h.ledger, h.store, sample), Record(h.store, sample), h.sealedTo)
    case Maintained(now) =>
      History(MaintainLedger(h.ledger, h.store, now), Maintain(h.store, now),
              if SealedCutoff(now) > h.sealedTo then SealedCutoff(now) else h.sealedTo)
  }

  function Life(h: History, events: seq<Event>): History
    decreases |events|
  {
    if events == [] then h else Life(Step(h, events[0]), events[1..])
  }

  /** A sample comes with a fresh identifier, and not for a minute that was sealed before. */
  predicate IsOnTime(h: History, event: Event) {
    event.Recorded? ==> event.sample.time >= h.sealedTo && event.sample.id !in h.ledger.places
  }

  predicate AreOnTime(h: History, events: seq<Event>)
    decreases |events|
  {
    events == [] || (IsOnTime(h, events[0]) && AreOnTime(Step(h, events[0]), events[1..]))
  }

  /** A history grows at its end: the next event happens in the state the others have led to, and has to be on time there. */
  lemma {:induction false} LifeSnoc(h: History, events: seq<Event>, event: Event)
    ensures Life(h, events + [event]) == Step(Life(h, events), event)
    ensures AreOnTime(h, events + [event]) <==> AreOnTime(h, events) && IsOnTime(Life(h, events), event)
    decreases |events|
  {
    if events == [] {
      assert [] + [event] == [event] && [event][1..] == [];
    } else {
      assert (events + [event])[1..] == events[1..] + [event];
      LifeSnoc(Step(h, events[0]), events[1..], event);
    }
  }

  ghost predicate Settled(h: History) {
    && Conserves(h.ledger, h.store) && h.sealedTo % MINUTE == 0
    && (forall s :: s in h.store.raw ==> h.sealedTo <= s.time)
    && (forall key :: key in h.store.minutes ==> key.bucket < h.sealedTo)
    && (forall id :: id in h.ledger.places ==> h.ledger.places[id] != Lost)
  }

  lemma SettledHasNoConflict(h: History, now: int)
    requires Settled(h)
    ensures Conflicts(h.store, now) == {}
  {
    forall s | s in h.store.raw ensures KeyOf(s) !in h.store.minutes {
      AlignedStep(KeyOf(s).bucket, h.sealedTo);
    }
  }

  lemma StepStaysSettled(h: History, event: Event)
    requires Settled(h) && IsOnTime(h, event)
    ensures Settled(Step(h, event))
  {
    match event
    case Recorded(sample) => RecordConserves(h.ledger, h.store, sample);
    case Maintained(now) =>
      MaintainConserves(h.ledger, h.store, now);
      SettledHasNoConflict(h, now);
      LosesIffConflict(h.ledger, h.store, now);
      MaintainStaysSealed(h, now);
      var r := Step(h, event);
      forall id | id in r.ledger.places ensures r.ledger.places[id] != Lost {
        assert !IsPlaced(h.ledger, id, Lost);
        assert !LosesSome(h.ledger, h.store, now);
        assert !IsPlaced(r.ledger, id, Lost);
      }
      hide Conserves, MaintainLedger, Maintain, Conflicts, SealedCutoff;
  }

  lemma MaintainStaysSealed(h: History, now: int)
    requires Settled(h)
    ensures var r := Step(h, Maintained(now));
            && r.sealedTo % MINUTE == 0
            && (forall s :: s in r.store.raw ==> r.sealedTo <= s.time)
            && (forall key :: key in r.store.minutes ==> key.bucket < r.sealedTo)
  {
    hide Conserves, Fold, Summary, MaintainLedger;
  }

  /** With no late sample, whatever is recorded and however often maintenance runs, every sample is counted exactly once and none is lost. */
  lemma {:induction false} OnTimeSamplesAreNeverLost(h: History, events: seq<Event>)
    requires Settled(h) && AreOnTime(h, events)
    ensures Settled(Life(h, events))
    decreases |events|
  {
    hide Settled, Step, IsOnTime;
    if events != [] {
      StepStaysSettled(h, events[0]);
      OnTimeSamplesAreNeverLost(Step(h, events[0]), events[1..]);
    }
  }

  lemma NothingIsSettled(sealedTo: int)
    requires sealedTo % MINUTE == 0
    ensures Settled(History(Ledger(map[], map[], map[]), Store([], map[]), sealedTo))
  {
  }

  lemma StepRemembers(h: History, event: Event)
    requires Settled(h) && IsOnTime(h, event)
    ensures var r := Step(h, event).ledger;
            && (forall id :: id in h.ledger.samples ==> id in r.samples && r.samples[id] == h.ledger.samples[id])
            && (event.Recorded? ==> event.sample.id in r.samples && r.samples[event.sample.id] == event.sample)
  {
    match event
    case Maintained(now) => SamplesAfter(h.ledger, h.store, now);
    case Recorded(sample) => assert forall r :: r in h.store.raw ==> r.id in h.ledger.samples && r.id != sample.id;
  }

  lemma {:induction false} LifeRemembers(h: History, events: seq<Event>)
    requires Settled(h) && AreOnTime(h, events)
    ensures var r := Life(h, events).ledger;
            && (forall id :: id in h.ledger.samples ==> id in r.samples && r.samples[id] == h.ledger.samples[id])
            && (forall i :: 0 <= i < |events| && events[i].Recorded? ==>
                  events[i].sample.id in r.samples && r.samples[events[i].sample.id] == events[i].sample)
    decreases |events|
  {
    hide Settled, Step, IsOnTime;
    if events != [] {
      StepRemembers(h, events[0]);
      StepStaysSettled(h, events[0]);
      LifeRemembers(Step(h, events[0]), events[1..]);
      assert forall i :: 0 < i < |events| ==> events[i] == events[1..][i - 1];
    }
  }

  /** The same, sample by sample: each one recorded is a raw row once, or folded once into its minute's aggregate, or its aggregate has expired. */
  lemma EachSampleCountsOnce(h: History, events: seq<Event>, i: nat)
    requires Settled(h) && AreOnTime(h, events) && i < |events| && events[i].Recorded?
    ensures var r, sample := Life(h, events), events[i].sample;
            sample.id in r.ledger.places
            && var place := r.ledger.places[sample.id];
            && (place == Raw || place == In(KeyOf(sample)) || place == Expired)
            && multiset(r.store.raw)[sample] == (if place == Raw then 1 else 0)
            && r.ledger.sources.Keys == r.store.minutes.Keys
            && (forall key :: key in r.store.minutes ==>
                  && r.store.minutes[key] == Summary(Fold(r.ledger.sources[key]))
                  && multiset(r.ledger.sources[key])[sample] == if place == In(key) then 1 else 0)
  {
    OnTimeSamplesAreNeverLost(h, events);
    LifeRemembers(h, events);
    hide Life, AreOnTime, Fold, Summary, KeyOf;
    var r := Life(h, events);
    CountedExactlyOnce(r.ledger, r.store, events[i].sample.id);
  }

  // ------------------------------------------------------------------- the loops

  class Metric {
    var value: MinuteMetric

    constructor ()
      ensures value == NO_SAMPLES
    {
      value := NO_SAMPLES;
    }

    method AddSample(sample: Sample)
      modifies this
      ensures value == Add(old(value), sample)
    {
      if sample.cpu.Some? {
        value := value.(cpuSum := value.cpuSum + sample.cpu.value, cpuCount := value.cpuCount + 1);
      }
      if sample.memory.Some? {
        value := value.(memorySum := value.memorySum + sample.memory.value, memoryCount := value.memoryCount + 1);
      }
      value := value.(partial := value.partial || sample.partial || sample.cpu.None? || sample.memory.None?);
    }
  }

  ghost predicate IsAccumulated(metrics: map<Key, MinuteMetric>, rows: seq<Sample>) {
    metrics.Keys == KeysOf(rows) && forall key :: key in metrics ==> metrics[key] == Fold(Group(rows, key))
  }

  /** Fold rows into one accumulator for each source and minute. */
  method Accumulate(rows: seq<Sample>) returns (metrics: map<Key, MinuteMetric>)
    ensures IsAccumulated(metrics, rows)
  {
    metrics := map[];
    assert IsAccumulated(map[], []);
    hide *;
    for i := 0 to |rows|
      invariant IsAccumulated(metrics, rows[..i])
    {
      AccumulatesOne(metrics, rows, i);
      var key := KeyOf(rows[i]);
      var metric := if key in metrics then metrics[key] else NO_SAMPLES;
      metrics := metrics[key := Add(metric, rows[i])];
    }
    assert rows[..|rows|] == rows;
  }

  lemma AccumulatesOne(metrics: map<Key, MinuteMetric>, rows: seq<Sample>, i: nat)
    requires i < |rows| && IsAccumulated(metrics, rows[..i])
    ensures var key := KeyOf(rows[i]);
            IsAccumulated(metrics[key := Add(if key in metrics then metrics[key] else NO_SAMPLES, rows[i])], rows[..i + 1])
  {
    hide Fold, Group, KeysOf, KeyOf, Add;
    KeysGrow(rows, i);
    NoKeyNoSamples(rows[..i], KeyOf(rows[i]));
    forall key | key in KeysOf(rows[..i + 1])
      ensures Fold(Group(rows[..i + 1], key))
           == if key == KeyOf(rows[i]) then Add(Fold(Group(rows[..i], key)), rows[i]) else Fold(Group(rows[..i], key))
    {
      GroupGrows(rows, i, key);
    }
  }

  lemma KeysGrow(rows: seq<Sample>, i: nat)
    requires i < |rows|
    ensures KeysOf(rows[..i + 1]) == KeysOf(rows[..i]) + {KeyOf(rows[i])}
  {
    assert rows[..i + 1] == rows[..i] + [rows[i]];
  }

  lemma NoKeyNoSamples(rows: seq<Sample>, key: Key)
    ensures key !in KeysOf(rows) ==> Fold(Group(rows, key)) == NO_SAMPLES
  {
    EmptyGroup(Group(rows, key));
  }

  lemma GroupGrows(rows: seq<Sample>, i: nat, key: Key)
    requires i < |rows|
    ensures Fold(Group(rows[..i + 1], key))
         == if key == KeyOf(rows[i]) then Add(Fold(Group(rows[..i], key)), rows[i]) else Fold(Group(rows[..i], key))
  {
    assert rows[..i + 1][..i] == rows[..i];
    var group := Group(rows[..i], key);
    if key == KeyOf(rows[i]) {
      assert Group(rows[..i + 1], key) == group + [rows[i]];
      assert (group + [rows[i]])[..|group|] == group;
    } else {
      assert group + [] == group;
      assert Group(rows[..i + 1], key) == group;
    }
  }

  lemma AccumulatedIsAggregated(metrics: map<Key, MinuteMetric>, rows: seq<Sample>)
    requires IsAccumulated(metrics, rows)
    ensures (map key | key in metrics :: Summary(metrics[key])) == Aggregated(rows)
  {
    hide Fold, Group, Summary, KeysOf;
  }

  lemma EmptyGroup(group: seq<Sample>)
    ensures group == [] || exists s :: s in group
  {
    if group != [] {
      assert group[0] in group;
    }
  }

  class MetricStore {
    var raw: seq<Sample>
    var minutes: map<Key, Aggregate>

    constructor ()
      ensures Value() == Store([], map[])
    {
      raw, minutes := [], map[];
    }

    function Value(): Store
      reads this
    {
      Store(raw, minutes)
    }

    method RecordMetric(sample: Sample)
      modifies this
      ensures Value() == Record(old(Value()), sample)
    {
      if !exists r :: r in raw && r.id == sample.id {
        raw := raw + [sample];
      }
    }

    /** Insert an aggregate unless the key has one. */
    method InsertMinutes(metrics: map<Key, MinuteMetric>)
      modifies this`minutes
      ensures minutes == (map key | key in metrics :: Summary(metrics[key])) + old(minutes)
    {
      ghost var existing := minutes;
      var keys := metrics.Keys;
      while keys != {}
        invariant keys <= metrics.Keys
        invariant forall key :: key in minutes <==> key in existing || key in metrics.Keys - keys
        invariant forall key :: key in minutes ==> minutes[key] == if key in existing then existing[key] else Summary(metrics[key])
        decreases |keys|
      {
        var key :| key in keys;
        if key !in minutes {
          minutes := minutes[key := Summary(metrics[key])];
        }
        keys := keys - {key};
      }
    }

    method RunMaintenance(now: int)
      modifies this
      ensures Value() == Maintain(old(Value()), now)
    {
      hide SealedCutoff, Before, From, Aggregated, Unexpired, IsAccumulated, Summary;
      var cutoff := SealedCutoff(now);
      var metrics := Accumulate(Before(raw, cutoff));
      AccumulatedIsAggregated(metrics, Before(raw, cutoff));
      InsertMinutes(metrics);
      raw := From(raw, cutoff);
      minutes := Unexpired(minutes, now - MINUTE_RETENTION);
    }
  }
}
