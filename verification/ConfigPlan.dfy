/** Planning a configuration change: the target snapshot, the difference, and what must run afterwards. */
module ConfigPlan {
  import opened Options
  import opened Names
  import opened Definitions

  datatype ApplyMode = Merge | Replace

  function Find(jobs: seq<Job>, name: string): (found: Option<Job>)
    ensures found.Some? <==> exists i :: 0 <= i < |jobs| && jobs[i].name == name
    ensures found.Some? ==> found.value in jobs && found.value.name == name
  {
    if jobs == [] then None
    else if jobs[0].name == name then Some(jobs[0])
    else
      var rest := Find(jobs[1..], name);
      assert forall i :: 0 <= i < |jobs| - 1 ==> jobs[1..][i] == jobs[i + 1];
      rest
  }

  /** A loaded job takes over the identity of the job it replaces. */
  function Adopted(current: seq<Job>, job: Job, freshId: nat): Job {
    var existing := Find(current, job.name);
    if existing.Some? then
      job.(id := existing.value.id,
      triggerId := if job.triggerId == NIL_ID then existing.value.triggerId else job.triggerId)
    else if job.triggerId == NIL_ID then job.(triggerId := freshId)
    else job
  }

  function AdoptedAll(current: seq<Job>, jobs: seq<Job>, freshIds: seq<nat>): (adopted: seq<Job>)
    requires |freshIds| == |jobs|
    ensures |adopted| == |jobs|
    ensures forall i :: 0 <= i < |jobs| ==> adopted[i] == Adopted(current, jobs[i], freshIds[i])
  {
    seq(|jobs|, i requires 0 <= i < |jobs| => Adopted(current, jobs[i], freshIds[i]))
  }

  function Base<T>(current: seq<T>, name: T -> string, mode: ApplyMode): map<string, T> {
    if mode.Replace? then map[] else ByName(current, name)
  }

  /** Sorted lists of the merged or replaced definitions; what runs is carried over. */
  ghost predicate IsTarget(target: ConfigSnapshot, current: ConfigSnapshot, loaded: LoadedConfig, mode: ApplyMode, freshIds: seq<nat>)
    requires |freshIds| == |loaded.jobs|
  {
    && Increasing(NamesOf(target.processes, SpecName))
    && Increasing(NamesOf(target.jobs, JobName))
    && ByName(target.processes, SpecName) == Base(current.processes, SpecName, mode) + ByName(loaded.processes, SpecName)
    && ByName(target.jobs, JobName)
       == Base(current.jobs, JobName, mode) + ByName(AdoptedAll(current.jobs, loaded.jobs, freshIds), JobName)
    && target.running == current.running
  }

  /** The values of a table, sorted by name. */
  method SortedValues<T>(table: map<string, T>, name: T -> string) returns (values: seq<T>)
    requires forall n :: n in table ==> name(table[n]) == n
    ensures Increasing(NamesOf(values, name))
    ensures ByName(values, name) == table
  {
    values := [];
    var rest := table.Keys;
    while rest != {}
      invariant rest <= table.Keys
      invariant forall item :: item in values <==> name(item) in table.Keys - rest && item == table[name(item)]
      invariant Unique(values, name)
      decreases |rest|
    {
      var n :| n in rest;
      values, rest := values + [table[n]], rest - {n};
    }
    SortIsIncreasing(values, name);
    values := SortByName(values, name);
    ValuesAreTheTable(values, table, name);
  }

  lemma ValuesAreTheTable<T>(values: seq<T>, table: map<string, T>, name: T -> string)
    requires forall n :: n in table ==> name(table[n]) == n
    requires forall item :: item in values <==> name(item) in table && item == table[name(item)]
    ensures ByName(values, name) == table
  {
    forall n ensures n in ByName(values, name) <==> n in table {
      if n in table {
        ListedIsNamed(values, name, table[n]);
      }
      if n in ByName(values, name) {
        NamedIsListed(values, name, n);
      }
    }
    forall n | n in table ensures ByName(values, name)[n] == table[n] {
      NamedIsListed(values, name, n);
    }
  }

  lemma IncreasingIsUnique<T>(items: seq<T>, name: T -> string)
    requires Increasing(NamesOf(items, name))
    ensures Unique(items, name)
  {
    forall i, j | 0 <= i < j < |items| ensures name(items[i]) != name(items[j]) {
      assert Below(NamesOf(items, name)[i], NamesOf(items, name)[j]);
      BelowIsTotal(name(items[i]), name(items[j]));
    }
  }

  lemma TableNames<T>(items: seq<T>, name: T -> string)
    ensures forall n :: n in ByName(items, name) ==> name(ByName(items, name)[n]) == n
  {
    forall n | n in ByName(items, name) ensures name(ByName(items, name)[n]) == n {
      NamedIsListed(items, name, n);
    }
  }

  method MergeProcesses(base: map<string, ProcessSpec>, loaded: seq<ProcessSpec>) returns (processes: map<string, ProcessSpec>)
    ensures processes == base + ByName(loaded, SpecName)
  {
    processes := base;
    assert ByName(loaded[..0], SpecName) == map[];
    hide ByName;
    for i := 0 to |loaded|
      invariant processes == base + ByName(loaded[..i], SpecName)
    {
      TableGrows(base, loaded, SpecName, i);
      processes := processes[loaded[i].name := loaded[i]];
    }
    assert loaded[..|loaded|] == loaded;
  }

  method MergeJobs(base: map<string, Job>, current: seq<Job>, loaded: seq<Job>, freshIds: seq<nat>) returns (jobs: map<string, Job>)
    requires |freshIds| == |loaded|
    ensures jobs == base + ByName(AdoptedAll(current, loaded, freshIds), JobName)
  {
    ghost var adopted := AdoptedAll(current, loaded, freshIds);
    jobs := base;
    assert ByName(adopted[..0], JobName) == map[];
    hide ByName, Find;
    for i := 0 to |loaded|
      invariant jobs == base + ByName(adopted[..i], JobName)
    {
      TableGrows(base, adopted, JobName, i);
      var job := loaded[i];
      var existing := Find(current, job.name);
      if existing.Some? {
        job := job.(id := existing.value.id);
        if job.triggerId == NIL_ID {
          job := job.(triggerId := existing.value.triggerId);
        }
      } else if job.triggerId == NIL_ID {
        job := job.(triggerId := freshIds[i]);
      }
      assert job == adopted[i];
      jobs := jobs[job.name := job];
    }
    assert adopted[..|adopted|] == adopted;
  }

  method TargetSnapshot(current: ConfigSnapshot, loaded: LoadedConfig, mode: ApplyMode, freshIds: seq<nat>)
    returns (target: ConfigSnapshot)
    requires |freshIds| == |loaded.jobs|
    ensures IsTarget(target, current, loaded, mode, freshIds)
  {
    hide Increasing, NamesOf, ByName, AdoptedAll;
    TableNames(current.processes, SpecName);
    TableNames(current.jobs, JobName);
    TableNames(loaded.processes, SpecName);
    TableNames(AdoptedAll(current.jobs, loaded.jobs, freshIds), JobName);
    var processes, jobs := ByName(current.processes, SpecName), ByName(current.jobs, JobName);
    if mode.Replace? {
      processes, jobs := map[], map[];
    }
    processes := MergeProcesses(processes, loaded.processes);
    jobs := MergeJobs(jobs, current.jobs, loaded.jobs, freshIds);
    var sortedProcesses := SortedValues(processes, SpecName);
    var sortedJobs := SortedValues(jobs, JobName);
    target := ConfigSnapshot(sortedProcesses, sortedJobs, current.running);
  }

  // ------------------------------------------------------------- the target

  function NameSet<T>(items: seq<T>, name: T -> string): set<string> {
    ByName(items, name).Keys
  }

  lemma NamesAreListed<T>(items: seq<T>, name: T -> string, n: string)
    ensures n in NameSet(items, name) <==> exists i :: 0 <= i < |items| && name(items[i]) == n
  {
    if n in NameSet(items, name) {
      NamedIsListed(items, name, n);
    }
    if i :| 0 <= i < |items| && name(items[i]) == n {
      ListedIsNamed(items, name, items[i]);
    }
  }

  /** The last record of a name is the one a table holds. */
  lemma {:induction false} LastOfName<T>(items: seq<T>, name: T -> string, n: string) returns (i: nat)
    requires n in ByName(items, name)
    ensures i < |items| && name(items[i]) == n && ByName(items, name)[n] == items[i]
    ensures forall j :: i < j < |items| ==> name(items[j]) != n
  {
    if name(items[|items| - 1]) == n {
      i := |items| - 1;
    } else {
      i := LastOfName(items[..|items| - 1], name, n);
    }
  }

  /** Merge keeps every current name, Replace only the loaded ones. */
  lemma TargetNames(target: ConfigSnapshot, current: ConfigSnapshot, loaded: LoadedConfig, mode: ApplyMode, freshIds: seq<nat>)
    requires |freshIds| == |loaded.jobs| && IsTarget(target, current, loaded, mode, freshIds)
    ensures Unique(target.processes, SpecName) && Unique(target.jobs, JobName)
    ensures NameSet(target.processes, SpecName)
         == (if mode.Merge? then NameSet(current.processes, SpecName) else {}) + NameSet(loaded.processes, SpecName)
    ensures NameSet(target.jobs, JobName)
         == (if mode.Merge? then NameSet(current.jobs, JobName) else {}) + NameSet(loaded.jobs, JobName)
  {
    IncreasingIsUnique(target.processes, SpecName);
    IncreasingIsUnique(target.jobs, JobName);
    AdoptedNames(current.jobs, loaded.jobs, freshIds);
  }

  lemma AdoptedNames(current: seq<Job>, jobs: seq<Job>, freshIds: seq<nat>)
    requires |freshIds| == |jobs|
    ensures NameSet(AdoptedAll(current, jobs, freshIds), JobName) == NameSet(jobs, JobName)
  {
    var adopted := AdoptedAll(current, jobs, freshIds);
    forall n ensures n in NameSet(adopted, JobName) <==> n in NameSet(jobs, JobName) {
      NamesAreListed(adopted, JobName, n);
      NamesAreListed(jobs, JobName, n);
      if n in NameSet(jobs, JobName) {
        var i :| 0 <= i < |jobs| && JobName(jobs[i]) == n;
        assert JobName(adopted[i]) == n;
      }
      if n in NameSet(adopted, JobName) {
        var i :| 0 <= i < |adopted| && JobName(adopted[i]) == n;
        assert JobName(jobs[i]) == n;
      }
    }
  }

  /** A job that exists already keeps its id, whatever id the loader gave it. */
  lemma JobIdsAreKept(target: ConfigSnapshot, current: ConfigSnapshot, loaded: LoadedConfig, mode: ApplyMode,
                      freshIds: seq<nat>, job: Job, existing: Job)
    requires |freshIds| == |loaded.jobs| && IsTarget(target, current, loaded, mode, freshIds)
    requires Unique(current.jobs, JobName)
    requires job in target.jobs && existing in current.jobs && job.name == existing.name
    ensures job.id == existing.id
  {
    hide ByName, Increasing, Unique, NamesOf, Find;
    IncreasingIsUnique(target.jobs, JobName);
    ListedIsNamed(target.jobs, JobName, job);
    ListedIsNamed(current.jobs, JobName, existing);
    var adopted := AdoptedAll(current.jobs, loaded.jobs, freshIds);
    if job.name in ByName(adopted, JobName) {
      var i := LastOfName(adopted, JobName, job.name);
      FindIsUnique(current.jobs, existing);
    }
  }

  lemma FindIsUnique(jobs: seq<Job>, job: Job)
    requires Unique(jobs, JobName) && job in jobs
    ensures Find(jobs, job.name) == Some(job)
  {
    var i :| 0 <= i < |jobs| && jobs[i] == job;
    var found := Find(jobs, job.name);
    var j :| 0 <= j < |jobs| && jobs[j] == found.value;
    assert JobName(jobs[i]) == JobName(jobs[j]);
    assert i == j;
  }

  // ---------------------------------------------------------------- the diff

  datatype NameDiff = NameDiff(added: set<string>, updated: set<string>, removed: set<string>)

  function DiffOf<T(==)>(current: map<string, T>, target: map<string, T>): NameDiff {
    NameDiff(
      set n | n in target && n !in current,
      set n | n in target && n in current && target[n] != current[n],
      set n | n in current && n !in target)
  }

  datatype ConfigDiff = ConfigDiff(processes: NameDiff, jobs: NameDiff)

  const NO_CHANGES := NameDiff({}, {}, {})

  function Diff(current: ConfigSnapshot, target: ConfigSnapshot): ConfigDiff {
    ConfigDiff(
      DiffOf(ByName(current.processes, SpecName), ByName(target.processes, SpecName)),
      DiffOf(ByName(current.jobs, JobName), ByName(target.jobs, JobName)))
  }

  function Unchanged<T(==)>(current: map<string, T>, target: map<string, T>): set<string> {
    set n | n in current && n in target && current[n] == target[n]
  }

  /** Every name is in exactly one class, and an empty difference means equal tables. */
  lemma DiffPartitions<T>(current: map<string, T>, target: map<string, T>)
    ensures var d, same := DiffOf(current, target), Unchanged(current, target);
            && d.added !! d.updated !! d.removed !! same
            && d.added + d.updated + same == target.Keys
            && d.removed + d.updated + same == current.Keys
            && (d == NO_CHANGES <==> current == target)
  {
    var d := DiffOf(current, target);
    if d == NO_CHANGES {
      forall n ensures n in current <==> n in target {
        assert n !in d.added && n !in d.removed;
      }
      forall n | n in current ensures current[n] == target[n] {
        assert n !in d.updated;
      }
    }
  }

  // -------------------------------------------------------------- re-planning

  /** The same definitions read again: only job ids and trigger ids may differ. */
  predicate SameDefinitions(loaded: LoadedConfig, again: LoadedConfig) {
    && loaded.processes == again.processes
    && |loaded.jobs| == |again.jobs|
    && forall i :: 0 <= i < |loaded.jobs| ==>
      again.jobs[i] == loaded.jobs[i].(id := again.jobs[i].id, triggerId := again.jobs[i].triggerId)
  }

  /** The last definition of each loaded job leaves the trigger id out or repeats the planned one. */
  ghost predicate TriggerIdsAgree(target: ConfigSnapshot, again: LoadedConfig) {
    forall n :: n in ByName(again.jobs, JobName) ==>
      n in ByName(target.jobs, JobName)
      && ByName(again.jobs, JobName)[n].triggerId in {NIL_ID, ByName(target.jobs, JobName)[n].triggerId}
  }

  lemma AdoptedAgain(target: ConfigSnapshot, current: ConfigSnapshot, loaded: LoadedConfig, mode: ApplyMode,
                     freshIds: seq<nat>, again: LoadedConfig, freshAgain: seq<nat>, n: string)
    requires |freshIds| == |loaded.jobs| && IsTarget(target, current, loaded, mode, freshIds)
    requires SameDefinitions(loaded, again) && |freshAgain| == |again.jobs|
    requires n in ByName(again.jobs, JobName)
    ensures n in ByName(target.jobs, JobName) && n in ByName(AdoptedAll(target.jobs, again.jobs, freshAgain), JobName)
    ensures var planned, reloaded := ByName(target.jobs, JobName)[n], ByName(again.jobs, JobName)[n];
            ByName(AdoptedAll(target.jobs, again.jobs, freshAgain), JobName)[n]
            == if reloaded.triggerId == NIL_ID then planned else planned.(triggerId := reloaded.triggerId)
  {
    hide ByName, Find, Increasing, NamesOf;
    var adopted := AdoptedAll(current.jobs, loaded.jobs, freshIds);
    var readopted := AdoptedAll(target.jobs, again.jobs, freshAgain);
    AdoptedNames(target.jobs, again.jobs, freshAgain);
    AdoptedNames(current.jobs, loaded.jobs, freshIds);
    SameNames(loaded.jobs, again.jobs);
    var i := LastOfName(again.jobs, JobName, n);
    var j := LastOfName(adopted, JobName, n);
    var k := LastOfName(readopted, JobName, n);
    assert JobName(adopted[i]) == n && JobName(readopted[i]) == n && JobName(again.jobs[j]) == n && JobName(again.jobs[k]) == n;
    assert i == j == k;
    var planned := ByName(target.jobs, JobName)[n];
    assert planned == adopted[i];
    IncreasingIsUnique(target.jobs, JobName);
    NamedIsListed(target.jobs, JobName, n);
    FindIsUnique(target.jobs, planned);
  }

  /**
    Planning the same definitions again on top of their own result changes nothing exactly when
    every loaded trigger id is left out or is the planned one.
   */
  lemma ReplanningIsStableIff(target: ConfigSnapshot, current: ConfigSnapshot, loaded: LoadedConfig, mode: ApplyMode,
                              freshIds: seq<nat>, again: LoadedConfig, freshAgain: seq<nat>, replanned: ConfigSnapshot)
    requires |freshIds| == |loaded.jobs| && IsTarget(target, current, loaded, mode, freshIds)
    requires SameDefinitions(loaded, again) && |freshAgain| == |again.jobs|
    requires IsTarget(replanned, target, again, mode, freshAgain)
    ensures replanned == target <==> TriggerIdsAgree(target, again)
    ensures Diff(target, replanned) == ConfigDiff(NO_CHANGES, NO_CHANGES) <==> replanned == target
  {
    hide ByName, AdoptedAll, Increasing, NamesOf;
    var planned := ByName(target.jobs, JobName);
    var readopted := ByName(AdoptedAll(target.jobs, again.jobs, freshAgain), JobName);
    AdoptedNames(target.jobs, again.jobs, freshAgain);
    forall n | n in ByName(again.jobs, JobName)
      ensures n in planned && n in readopted
      ensures readopted[n] == planned[n] <==> ByName(again.jobs, JobName)[n].triggerId in {NIL_ID, planned[n].triggerId}
    {
      AdoptedAgain(target, current, loaded, mode, freshIds, again, freshAgain, n);
    }
    SameNames(loaded.jobs, again.jobs);
    AdoptedNames(current.jobs, loaded.jobs, freshIds);
    assert ByName(replanned.jobs, JobName) == Base(target.jobs, JobName, mode) + readopted;
    assert TriggerIdsAgree(target, again) <==> ByName(replanned.jobs, JobName) == planned;
    assert ByName(replanned.processes, SpecName) == ByName(target.processes, SpecName);
    EqualTables(target, replanned);
  }

  lemma EqualTables(target: ConfigSnapshot, replanned: ConfigSnapshot)
    requires Increasing(NamesOf(target.processes, SpecName)) && Increasing(NamesOf(target.jobs, JobName))
    requires Increasing(NamesOf(replanned.processes, SpecName)) && Increasing(NamesOf(replanned.jobs, JobName))
    requires ByName(replanned.processes, SpecName) == ByName(target.processes, SpecName)
    requires target.running == replanned.running
    ensures replanned == target <==> ByName(replanned.jobs, JobName) == ByName(target.jobs, JobName)
    ensures Diff(target, replanned) == ConfigDiff(NO_CHANGES, NO_CHANGES) <==> replanned == target
  {
    hide ByName, Increasing, NamesOf;
    SameTableSameList(replanned.processes, target.processes, SpecName);
    if ByName(replanned.jobs, JobName) == ByName(target.jobs, JobName) {
      SameTableSameList(replanned.jobs, target.jobs, JobName);
    }
    DiffPartitions(ByName(target.jobs, JobName), ByName(replanned.jobs, JobName));
    DiffPartitions(ByName(target.processes, SpecName), ByName(replanned.processes, SpecName));
  }

  lemma SameNames(jobs: seq<Job>, again: seq<Job>)
    requires |jobs| == |again| && forall i :: 0 <= i < |jobs| ==> jobs[i].name == again[i].name
    ensures NameSet(jobs, JobName) == NameSet(again, JobName)
  {
    forall n ensures n in NameSet(jobs, JobName) <==> n in NameSet(again, JobName) {
      NamesAreListed(jobs, JobName, n);
      NamesAreListed(again, JobName, n);
      if i :| 0 <= i < |jobs| && JobName(jobs[i]) == n {
        assert JobName(again[i]) == n;
      }
      if i :| 0 <= i < |again| && JobName(again[i]) == n {
        assert JobName(jobs[i]) == n;
      }
    }
  }

  lemma SameTableSameList<T>(items: seq<T>, other: seq<T>, name: T -> string)
    requires Increasing(NamesOf(items, name)) && Increasing(NamesOf(other, name))
    requires ByName(items, name) == ByName(other, name)
    ensures items == other
  {
    IncreasingIsUnique(items, name);
    IncreasingIsUnique(other, name);
    hide Increasing, Unique, NamesOf, ByName;
    forall item ensures item in items <==> item in other {
      if item in items {
        ListedIsNamed(items, name, item);
        NamedIsListed(other, name, name(item));
      }
      if item in other {
        ListedIsNamed(other, name, item);
        NamedIsListed(items, name, name(item));
      }
    }
    OrderIsUnique(items, other, name);
  }

  /** Planning a loaded configuration on top of its own result gives an empty difference. */
  lemma ReplanningIsIdempotent(target: ConfigSnapshot, current: ConfigSnapshot, loaded: LoadedConfig, mode: ApplyMode,
                               freshIds: seq<nat>, freshAgain: seq<nat>, replanned: ConfigSnapshot)
    requires |freshIds| == |loaded.jobs| == |freshAgain|
    requires IsTarget(target, current, loaded, mode, freshIds)
    requires IsTarget(replanned, target, loaded, mode, freshAgain)
    ensures replanned == target
    ensures Diff(target, replanned) == ConfigDiff(NO_CHANGES, NO_CHANGES)
  {
    hide ByName, Find, Increasing, NamesOf;
    var adopted := AdoptedAll(current.jobs, loaded.jobs, freshIds);
    AdoptedNames(current.jobs, loaded.jobs, freshIds);
    forall n | n in ByName(loaded.jobs, JobName)
      ensures n in ByName(target.jobs, JobName)
      ensures ByName(loaded.jobs, JobName)[n].triggerId in {NIL_ID, ByName(target.jobs, JobName)[n].triggerId}
    {
      var i := LastOfName(loaded.jobs, JobName, n);
      var j := LastOfName(adopted, JobName, n);
      assert JobName(adopted[i]) == n && JobName(loaded.jobs[j]) == n;
      assert i == j;
    }
    ReplanningIsStableIff(target, current, loaded, mode, freshIds, loaded, freshAgain, replanned);
  }

  // ------------------------------------------------------------- what must run

  predicate MustRun(spec: ProcessSpec, previous: ConfigSnapshot) {
    spec.mode.Direct? && (spec.autostart || spec.name in previous.running)
  }

  function DesiredRunning(previous: ConfigSnapshot, processes: seq<ProcessSpec>): (names: set<string>)
    ensures forall spec :: spec in processes && MustRun(spec, previous) ==> spec.name in names
    ensures forall n :: n in names ==> exists spec :: spec in processes && spec.name == n && MustRun(spec, previous)
  {
    set spec | spec in processes && MustRun(spec, previous) :: spec.name
  }

  /** A direct process that was running and stays in the target must run, whatever its autostart says. */
  lemma RunningStaysDesired(previous: ConfigSnapshot, target: ConfigSnapshot, spec: ProcessSpec)
    requires Unique(target.processes, SpecName) && spec in target.processes
    ensures spec.name in DesiredRunning(previous, target.processes)
         <==> spec.mode.Direct? && (spec.autostart || spec.name in previous.running)
  {
    if spec.name in DesiredRunning(previous, target.processes) {
      var other :| other in target.processes && other.name == spec.name && MustRun(other, previous);
      var i :| 0 <= i < |target.processes| && target.processes[i] == spec;
      var j :| 0 <= j < |target.processes| && target.processes[j] == other;
      assert SpecName(target.processes[i]) == SpecName(target.processes[j]);
      assert i == j;
    }
  }
}
