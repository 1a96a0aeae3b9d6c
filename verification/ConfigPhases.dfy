/**
  What each loop of the configuration saga does to the world when it runs to its end:
  registering, unregistering and restoring schedule entries, writing and removing unit
  files, draining jobs, stopping and starting processes.  One lemma for each loop, by
  induction over its list, so that the proofs above need not look at single operations.
 */
module ConfigPhases {
  import opened Options
  import opened Crashes
  import opened Names
  import opened Definitions
  import opened ConfigPlan
  import opened ConfigApply

  function Scheduled(jobs: seq<Job>): map<string, Entry> {
    if jobs == [] then map[] else map[jobs[0].name := FullJob(jobs[0])] + Scheduled(jobs[1..])
  }

  function TriggersOnly(entries: seq<ScheduledTrigger>): map<string, Entry> {
    if entries == [] then map[] else map[entries[0].name := TriggerOnly(entries[0].trigger)] + TriggersOnly(entries[1..])
  }

  function UnitFiles(specs: seq<ProcessSpec>): map<string, ProcessSpec> {
    if specs == [] then map[] else map[UnitOf(specs[0]) := specs[0]] + UnitFiles(specs[1..])
  }

  function JobNames(jobs: seq<Job>): set<string> {
    set job | job in jobs :: job.name
  }

  function SpecNames(specs: seq<ProcessSpec>): set<string> {
    set spec | spec in specs :: spec.name
  }

  function UnitNames(specs: seq<ProcessSpec>): set<string> {
    set spec | spec in specs :: UnitOf(spec)
  }

  lemma {:induction false} ScheduledNames(jobs: seq<Job>)
    ensures Scheduled(jobs).Keys == JobNames(jobs)
    ensures JobNames(jobs) == ByName(jobs, JobName).Keys
  {
    if jobs != [] {
      ScheduledNames(jobs[1..]);
      assert jobs == [jobs[0]] + jobs[1..];
    }
    forall n ensures n in JobNames(jobs) <==> n in ByName(jobs, JobName) {
      NamesAreListed(jobs, JobName, n);
      if job :| job in jobs && job.name == n {
        var i :| 0 <= i < |jobs| && jobs[i] == job;
        assert JobName(jobs[i]) == n;
      }
    }
  }

  lemma {:induction false} UnitFilesHold(specs: seq<ProcessSpec>)
    ensures UnitFiles(specs).Keys == UnitNames(specs)
    ensures forall u :: u in UnitFiles(specs) ==> UnitFiles(specs)[u] in specs && UnitOf(UnitFiles(specs)[u]) == u
  {
    if specs != [] {
      UnitFilesHold(specs[1..]);
      assert specs == [specs[0]] + specs[1..];
    }
  }

  lemma MinusTwice<V>(base: map<string, V>, first: set<string>, second: set<string>)
    ensures base - first - second == base - (first + second)
  {
  }

  lemma MinusAbsent<V>(base: map<string, V>, name: string)
    requires name !in base
    ensures base - {name} == base
  {
  }

  lemma PlusCons<V>(base: map<string, V>, name: string, value: V, rest: map<string, V>)
    ensures base[name := value] + rest == base + (map[name := value] + rest)
  {
  }

  lemma {:induction false} RegisterRun(w: World, jobs: seq<Job>)
    ensures RunAll(Exec, w, RegisterOps(jobs)) == w.(schedule := w.schedule + Scheduled(jobs))
    decreases |jobs|
  {
    hide RunAll;
    RunAllNone(Exec, w);
    if jobs == [] {
      assert w.schedule + map[] == w.schedule;
    } else {
      RunAllCons(Exec, w, Register(jobs[0]), RegisterOps(jobs[1..]));
      RegisterRun(Exec(w, Register(jobs[0])), jobs[1..]);
      PlusCons(w.schedule, jobs[0].name, FullJob(jobs[0]), Scheduled(jobs[1..]));
    }
  }

  lemma {:induction false} RestoreRun(w: World, entries: seq<ScheduledTrigger>)
    ensures RunAll(Exec, w, RestoreOps(entries)) == w.(schedule := w.schedule + TriggersOnly(entries))
    decreases |entries|
  {
    hide RunAll;
    RunAllNone(Exec, w);
    if entries == [] {
      assert w.schedule + map[] == w.schedule;
    } else {
      var first := RegisterTrigger(entries[0].name, entries[0].trigger);
      RunAllCons(Exec, w, first, RestoreOps(entries[1..]));
      RestoreRun(Exec(w, first), entries[1..]);
      PlusCons(w.schedule, entries[0].name, TriggerOnly(entries[0].trigger), TriggersOnly(entries[1..]));
    }
  }

  lemma {:induction false} UnregisterRun(w: World, jobs: seq<Job>)
    ensures RunAll(Exec, w, UnregisterOps(jobs)) == w.(schedule := w.schedule - JobNames(jobs))
    decreases |jobs|
  {
    hide RunAll;
    RunAllNone(Exec, w);
    if jobs == [] {
      assert w.schedule - JobNames(jobs) == w.schedule;
    } else {
      RunAllCons(Exec, w, Unregister(jobs[0].name), UnregisterOps(jobs[1..]));
      UnregisterRun(Exec(w, Unregister(jobs[0].name)), jobs[1..]);
      assert jobs == [jobs[0]] + jobs[1..];
      assert w.schedule - {jobs[0].name} - JobNames(jobs[1..]) == w.schedule - JobNames(jobs);
    }
  }

  lemma {:induction false} WriteRun(w: World, specs: seq<ProcessSpec>)
    ensures RunAll(Exec, w, WriteOps(specs)) == w.(units := w.units + UnitFiles(specs))
    decreases |specs|
  {
    hide RunAll;
    RunAllNone(Exec, w);
    if specs == [] {
      assert w.units + map[] == w.units;
    } else {
      RunAllCons(Exec, w, WriteUnit(specs[0]), WriteOps(specs[1..]));
      WriteRun(Exec(w, WriteUnit(specs[0])), specs[1..]);
      PlusCons(w.units, UnitOf(specs[0]), specs[0], UnitFiles(specs[1..]));
    }
  }

  lemma {:induction false} RemoveRun(w: World, specs: seq<ProcessSpec>)
    ensures RunAll(Exec, w, RemoveOps(specs))
         == w.(units := w.units - UnitNames(specs), loaded := w.loaded - UnitNames(specs))
    decreases |specs|
  {
    hide RunAll;
    RunAllNone(Exec, w);
    if specs == [] {
      assert w.units - {} == w.units && w.loaded - {} == w.loaded;
    } else {
      var first := RemoveUnit(UnitOf(specs[0]));
      RunAllCons(Exec, w, first, RemoveOps(specs[1..]));
      RemoveRun(Exec(w, first), specs[1..]);
      assert specs == [specs[0]] + specs[1..];
      assert UnitNames(specs) == {UnitOf(specs[0])} + UnitNames(specs[1..]);
      MinusTwice(w.units, {UnitOf(specs[0])}, UnitNames(specs[1..]));
      MinusTwice(w.loaded, {UnitOf(specs[0])}, UnitNames(specs[1..]));
    }
  }

  lemma {:induction false} DrainRun(w: World, jobs: seq<Job>)
    ensures RunAll(Exec, w, DrainOps(jobs))
         == w.(schedule := w.schedule - JobNames(jobs), drained := w.drained + JobNames(jobs))
    decreases |jobs|
  {
    hide RunAll;
    RunAllNone(Exec, w);
    if jobs == [] {
      assert w.schedule - {} == w.schedule && w.drained + {} == w.drained;
    } else {
      var name := jobs[0].name;
      assert DrainOps(jobs) == [Unregister(name)] + ([Drain(name)] + DrainOps(jobs[1..]));
      RunAllCons(Exec, w, Unregister(name), [Drain(name)] + DrainOps(jobs[1..]));
      RunAllCons(Exec, Exec(w, Unregister(name)), Drain(name), DrainOps(jobs[1..]));
      DrainRun(Exec(Exec(w, Unregister(name)), Drain(name)), jobs[1..]);
      assert jobs == [jobs[0]] + jobs[1..];
      assert JobNames(jobs) == {name} + JobNames(jobs[1..]);
      MinusTwice(w.schedule, {name}, JobNames(jobs[1..]));
    }
  }

  /** A stop for a configuration change ends an owned process, or else a survivor found by its handle. */
  lemma {:induction false} StopRun(w: World, specs: seq<ProcessSpec>)
    requires w.owned.Keys !! w.survivors.Keys
    ensures RunAll(Exec, w, StopOps(specs))
         == w.(owned := w.owned - SpecNames(specs), survivors := w.survivors - SpecNames(specs))
    decreases |specs|
  {
    hide RunAll;
    RunAllNone(Exec, w);
    if specs == [] {
      assert w.owned - {} == w.owned && w.survivors - {} == w.survivors;
    } else {
      var name := specs[0].name;
      RunAllCons(Exec, w, StopDirect(name), StopOps(specs[1..]));
      var next := w.(owned := w.owned - {name}, survivors := w.survivors - {name});
      if name in w.owned {
        MinusAbsent(w.survivors, name);
      } else {
        MinusAbsent(w.owned, name);
      }
      assert Exec(w, StopDirect(name)) == next;
      StopRun(next, specs[1..]);
      assert specs == [specs[0]] + specs[1..];
      assert SpecNames(specs) == {name} + SpecNames(specs[1..]);
      MinusTwice(w.owned, {name}, SpecNames(specs[1..]));
      MinusTwice(w.survivors, {name}, SpecNames(specs[1..]));
    }
  }

  lemma {:induction false} StopOwnedRun(w: World, specs: seq<ProcessSpec>)
    ensures RunAll(Exec, w, StopOwnedOps(specs)) == w.(owned := w.owned - SpecNames(specs))
    decreases |specs|
  {
    hide RunAll;
    RunAllNone(Exec, w);
    if specs == [] {
      assert w.owned - {} == w.owned;
    } else {
      var first := StopOwned(specs[0].name);
      RunAllCons(Exec, w, first, StopOwnedOps(specs[1..]));
      StopOwnedRun(Exec(w, first), specs[1..]);
      assert specs == [specs[0]] + specs[1..];
      assert w.owned - {specs[0].name} - SpecNames(specs[1..]) == w.owned - SpecNames(specs);
    }
  }

  lemma {:induction false} StartUnitRun(w: World, specs: seq<ProcessSpec>)
    requires forall spec :: spec in specs ==> UnitOf(spec) in w.units && w.units[UnitOf(spec)] == spec
    ensures RunAll(Exec, w, StartUnitOps(specs)) == w.(loaded := w.loaded + UnitFiles(specs))
    decreases |specs|
  {
    hide RunAll;
    RunAllNone(Exec, w);
    if specs == [] {
      assert w.loaded + map[] == w.loaded;
    } else {
      var first := StartUnit(UnitOf(specs[0]));
      RunAllCons(Exec, w, first, StartUnitOps(specs[1..]));
      StartUnitRun(Exec(w, first), specs[1..]);
      PlusCons(w.loaded, UnitOf(specs[0]), specs[0], UnitFiles(specs[1..]));
    }
  }

  /** The named processes run: those that did not are started, and a survivor of the name loses its record. */
  ghost predicate Restarted(w: World, r: World, names: set<string>) {
    && names <= w.specs.Keys
    && r == w.(owned := r.owned, survivors := r.survivors, strays := r.strays)
    && r.owned.Keys == w.owned.Keys + names
    && r.survivors == w.survivors - (names - w.owned.Keys)
    && r.strays == w.strays + (names - w.owned.Keys) * w.survivors.Keys
    && forall n :: n in r.owned ==> r.owned[n] == if n in w.owned then w.owned[n] else w.specs[n]
  }

  lemma RestartedTwice(w: World, next: World, r: World, name: string, rest: set<string>)
    requires Restarted(w, next, {name}) && Restarted(next, r, rest)
    requires forall n :: n in {name} + rest ==> n in w.specs
    ensures Restarted(w, r, {name} + rest)
  {
    MinusTwice(w.survivors, {name} - w.owned.Keys, rest - next.owned.Keys);
    assert ({name} - w.owned.Keys) + (rest - next.owned.Keys) == {name} + rest - w.owned.Keys;
    assert r.strays == w.strays + ({name} + rest - w.owned.Keys) * w.survivors.Keys;
  }

  lemma RestartOne(w: World, name: string)
    requires name in w.specs
    ensures Restarted(w, Exec(w, StartPrevious(name)), {name})
  {
    assert w.survivors - {} == w.survivors;
    assert name in w.owned ==> {name} - w.owned.Keys == {};
    assert name !in w.owned ==> {name} - w.owned.Keys == {name};
  }

  function Members(names: seq<string>): set<string> {
    set n | n in names
  }

  /** Starting the previously running processes again: whatever survived unowned loses its record. */
  lemma {:induction false} StartPreviousRun(w: World, names: seq<string>)
    requires forall n :: n in names ==> n in w.specs
    ensures Restarted(w, RunAll(Exec, w, StartPreviousOps(names)), Members(names))
    decreases |names|
  {
    RunAllNone(Exec, w);
    if names == [] {
      assert w.survivors - ({} - w.owned.Keys) == w.survivors;
    } else {
      hide RunAll, Restarted, Exec;
      var name, next := names[0], Exec(w, StartPrevious(names[0]));
      RunAllCons(Exec, w, StartPrevious(name), StartPreviousOps(names[1..]));
      RestartOne(w, name);
      assert next.specs == w.specs by { RestartedKeepsSpecs(w, next, {name}); }
      StartPreviousRun(next, names[1..]);
      RestartedTwice(w, next, RunAll(Exec, next, StartPreviousOps(names[1..])), name, Members(names[1..]));
      assert names == [name] + names[1..];
      assert Members(names) == {name} + Members(names[1..]);
    }
  }

  lemma RestartedKeepsSpecs(w: World, r: World, names: set<string>)
    requires Restarted(w, r, names)
    ensures r.specs == w.specs
  {
  }

  /** The named processes run their stored definition; a survivor that already does is taken over. */
  ghost predicate Launched(w: World, r: World, names: set<string>) {
    && names <= w.specs.Keys
    && r == w.(owned := r.owned, survivors := w.survivors - names)
    && r.owned.Keys == w.owned.Keys + names
    && forall n :: n in r.owned ==> r.owned[n] == if n in w.owned then w.owned[n] else w.specs[n]
  }

  ghost predicate SurvivorsAreCurrent(w: World) {
    forall n :: n in w.survivors ==>
      n !in w.owned && n in w.specs && w.survivors[n] == w.specs[n] && w.survivors[n].lifecycle.Detached?
  }

  lemma LaunchOne(w: World, spec: ProcessSpec)
    requires spec.name in w.specs && w.specs[spec.name] == spec && SurvivorsAreCurrent(w)
    ensures Launched(w, Exec(w, StartTarget(spec)), {spec.name}) && SurvivorsAreCurrent(Exec(w, StartTarget(spec)))
  {
    if spec.name !in w.survivors {
      MinusAbsent(w.survivors, spec.name);
    }
  }

  lemma LaunchedTwice(w: World, next: World, r: World, name: string, rest: set<string>)
    requires Launched(w, next, {name}) && Launched(next, r, rest)
    requires forall n :: n in {name} + rest ==> n in w.specs
    ensures Launched(w, r, {name} + rest)
  {
    MinusTwice(w.survivors, {name}, rest);
  }

  /** Launching the target: a survivor that may be detached is taken over, everything else is spawned. */
  lemma {:induction false} StartRun(w: World, specs: seq<ProcessSpec>)
    requires forall spec :: spec in specs ==> spec.name in w.specs && w.specs[spec.name] == spec
    requires SurvivorsAreCurrent(w)
    ensures Launched(w, RunAll(Exec, w, StartOps(specs)), SpecNames(specs))
    decreases |specs|
  {
    RunAllNone(Exec, w);
    if specs == [] {
      assert w.survivors - {} == w.survivors;
    } else {
      var spec, next := specs[0], Exec(w, StartTarget(specs[0]));
      hide RunAll, Exec;
      RunAllCons(Exec, w, StartTarget(spec), StartOps(specs[1..]));
      LaunchOne(w, spec);
      StartRun(next, specs[1..]);
      hide Launched, SurvivorsAreCurrent;
      LaunchedTwice(w, next, RunAll(Exec, next, StartOps(specs[1..])), spec.name, SpecNames(specs[1..]));
      assert specs == [spec] + specs[1..];
      assert SpecNames(specs) == {spec.name} + SpecNames(specs[1..]);
    }
  }
}
