/** The depth-first search that keeps job dependencies acyclic. */
module DependencyCycles {
  import opened Options
  import opened Names
  import opened Definitions
  import opened ConfigPlan

  function DependenciesOf(trigger: Trigger): seq<string> {
    if trigger.DependsOn? then trigger.jobs else []
  }

  /** What a name depends on; an unknown name depends on nothing. */
  function Deps(jobs: seq<Job>, name: string): seq<string> {
    var job := Find(jobs, name);
    if job.Some? then DependenciesOf(job.value.trigger) else []
  }

  predicate IsPath(jobs: seq<Job>, path: seq<string>) {
    |path| > 0 && forall i :: 0 <= i < |path| - 1 ==> path[i + 1] in Deps(jobs, path[i])
  }

  ghost predicate Leads(jobs: seq<Job>, path: seq<string>, start: seq<string>, end: string) {
    IsPath(jobs, path) && path[0] in start && path[|path| - 1] == end
  }

  /** Some chain of dependencies leads from one of these names to that one. */
  ghost predicate Reaches(jobs: seq<Job>, start: seq<string>, end: string) {
    exists path :: Leads(jobs, path, start, end)
  }

  ghost predicate FormsCycle(job: Job, existing: seq<Job>) {
    Reaches(existing, DependenciesOf(job.trigger), job.name)
  }

  ghost predicate IsCycle(jobs: seq<Job>, path: seq<string>) {
    IsPath(jobs, path) && |path| >= 2 && path[0] == path[|path| - 1]
  }

  ghost predicate Acyclic(jobs: seq<Job>) {
    forall path :: !IsCycle(jobs, path)
  }

  /** A job of the first name is triggered by the completion of a job of the second. */
  ghost predicate WaitsFor(jobs: seq<Job>, name: string, other: string) {
    exists job :: job in jobs && job.name == name && job.trigger.DependsOn? && other in job.trigger.jobs
  }

  /** Jobs each of which waits for the next, the last one being the first again. */
  ghost predicate IsRing(jobs: seq<Job>, path: seq<string>) {
    |path| >= 2 && path[0] == path[|path| - 1] && forall i :: 0 <= i < |path| - 1 ==> WaitsFor(jobs, path[i], path[i + 1])
  }

  lemma WaitsForIff(jobs: seq<Job>, name: string, other: string)
    requires Unique(jobs, JobName)
    ensures other in Deps(jobs, name) <==> WaitsFor(jobs, name, other)
  {
    FindIsThere(jobs, name);
    if job :| job in jobs && job.name == name && job.trigger.DependsOn? && other in job.trigger.jobs {
      FindUnique(jobs, job);
    }
  }

  lemma {:induction false} FindIsThere(jobs: seq<Job>, name: string)
    ensures Find(jobs, name).Some? ==> Find(jobs, name).value in jobs && Find(jobs, name).value.name == name
  {
    if jobs != [] {
      FindIsThere(jobs[1..], name);
    }
  }

  lemma {:induction false} FindUnique(jobs: seq<Job>, job: Job)
    requires Unique(jobs, JobName) && job in jobs
    ensures Find(jobs, job.name) == Some(job)
  {
    if jobs[0] != job {
      var i :| 0 < i < |jobs| && jobs[i] == job;
      assert JobName(jobs[0]) != JobName(jobs[i]);
      assert Unique(jobs[1..], JobName) by {
        forall a, b | 0 <= a < b < |jobs[1..]| ensures JobName(jobs[1..][a]) != JobName(jobs[1..][b]) {
          assert JobName(jobs[a + 1]) != JobName(jobs[b + 1]);
        }
      }
      FindUnique(jobs[1..], job);
    }
  }

  /** Of uniquely named jobs, acyclic means that none waits, over whatever others, for itself. */
  lemma AcyclicIffNoRing(jobs: seq<Job>)
    requires Unique(jobs, JobName)
    ensures Acyclic(jobs) <==> forall path :: !IsRing(jobs, path)
  {
    forall path ensures IsCycle(jobs, path) <==> IsRing(jobs, path) {
      forall i | 0 <= i < |path| - 1 ensures path[i + 1] in Deps(jobs, path[i]) <==> WaitsFor(jobs, path[i], path[i + 1]) {
        WaitsForIff(jobs, path[i], path[i + 1]);
      }
      hide Deps, WaitsFor, Unique;
    }
    hide IsCycle, IsRing;
  }

  // ------------------------------------------------------------------- the search

  function Mentioned(jobs: seq<Job>): set<string> {
    set job, name | job in jobs && name in DependenciesOf(job.trigger) :: name
  }

  lemma DepsAreMentioned(jobs: seq<Job>, name: string)
    ensures forall d :: d in Deps(jobs, name) ==> d in Mentioned(jobs)
  {
  }

  lemma ExtendPath(jobs: seq<Job>, start: seq<string>, name: string, next: string)
    requires Reaches(jobs, start, name) && next in Deps(jobs, name)
    ensures Reaches(jobs, start, next)
  {
    var path :| Leads(jobs, path, start, name);
    assert Leads(jobs, path + [next], start, next);
  }

  /** A set that holds the start and what its members depend on holds everything that can be reached. */
  lemma {:induction false} ClosedHoldsPath(jobs: seq<Job>, closed: set<string>, path: seq<string>)
    requires IsPath(jobs, path) && path[0] in closed
    requires forall n, d :: n in closed && d in Deps(jobs, n) ==> d in closed
    ensures path[|path| - 1] in closed
    decreases |path|
  {
    if |path| > 1 {
      var front := path[..|path| - 1];
      assert forall i :: 0 <= i < |front| - 1 ==> front[i + 1] in Deps(jobs, front[i]);
      ClosedHoldsPath(jobs, closed, front);
    }
  }

  /** Everything on the stack or seen can be reached, and what the seen names depend on is on the stack or seen. */
  ghost predicate Explored(existing: seq<Job>, start: seq<string>, stack: seq<string>, seen: set<string>, universe: set<string>) {
    && seen <= universe
    && (forall n :: n in stack ==> n in universe && Reaches(existing, start, n))
    && (forall d :: d in start ==> d in seen || d in stack)
    && forall n, d :: n in seen && d in Deps(existing, n) ==> d in seen || d in stack
  }

  lemma ExploredAtFirst(existing: seq<Job>, start: seq<string>)
    ensures Explored(existing, start, start, {}, (set d | d in start) + Mentioned(existing))
  {
    forall d | d in start ensures Reaches(existing, start, d) {
      assert Leads(existing, [d], start, d);
    }
  }

  lemma ExploreOn(existing: seq<Job>, start: seq<string>, rest: seq<string>, current: string, seen: set<string>, universe: set<string>)
    requires Mentioned(existing) <= universe
    requires Explored(existing, start, rest + [current], seen, universe)
    ensures current in universe && Reaches(existing, start, current)
    ensures current in seen ==> Explored(existing, start, rest, seen, universe)
    ensures Explored(existing, start, rest + Deps(existing, current), seen + {current}, universe)
  {
    assert current in rest + [current];
    DepsAreMentioned(existing, current);
    forall d | d in Deps(existing, current) ensures Reaches(existing, start, d) {
      ExtendPath(existing, start, current, d);
    }
    hide Deps, Reaches, Mentioned;
  }

  lemma ExploredAll(existing: seq<Job>, start: seq<string>, seen: set<string>, universe: set<string>, end: string)
    requires Explored(existing, start, [], seen, universe) && end !in seen
    ensures !Reaches(existing, start, end)
  {
    if path :| Leads(existing, path, start, end) {
      ClosedHoldsPath(existing, seen, path);
    }
  }

  method SearchCycle(job: Job, existing: seq<Job>) returns (found: bool)
    ensures found <==> FormsCycle(job, existing)
  {
    hide Explored, Reaches, Deps, Mentioned;
    var direct := DependenciesOf(job.trigger);
    var stack, seen := direct, {};
    ghost var universe := (set d | d in direct) + Mentioned(existing);
    ExploredAtFirst(existing, direct);
    while stack != []
      invariant Explored(existing, direct, stack, seen, universe)
      invariant job.name !in seen
      decreases |universe - seen|, |stack|
    {
      var current := stack[|stack| - 1];
      assert stack == stack[..|stack| - 1] + [current];
      stack := stack[..|stack| - 1];
      ExploreOn(existing, direct, stack, current, seen, universe);
      if current == job.name {
        return true;
      }
      if current in seen {
        continue;
      }
      SmallerSet(universe - (seen + {current}), universe - seen);
      seen := seen + {current};
      stack := stack + Deps(existing, current);
    }
    ExploredAll(existing, direct, seen, universe, job.name);
    return false;
  }

  lemma SmallerSet(a: set<string>, b: set<string>)
    requires a < b
    ensures |a| < |b|
  {
    var x :| x in b && x !in a;
    assert a <= b - {x};
    SubsetSize(a, b - {x});
  }

  lemma {:induction false} SubsetSize(a: set<string>, b: set<string>)
    requires a <= b
    ensures |a| <= |b|
    decreases |a|
  {
    if a != {} {
      var x :| x in a;
      SubsetSize(a - {x}, b - {x});
    }
  }

  // ------------------------------------------------------------------- what passing means

  function Others(jobs: seq<Job>, name: string): (others: seq<Job>)
    ensures forall job :: job in others <==> job in jobs && job.name != name
  {
    if jobs == [] then []
    else (if jobs[0].name != name then [jobs[0]] else []) + Others(jobs[1..], name)
  }

  lemma {:induction false} FindInOthers(jobs: seq<Job>, name: string, n: string)
    ensures Find(Others(jobs, name), n) == if n == name then None else Find(jobs, n)
  {
    if jobs != [] {
      FindInOthers(jobs[1..], name, n);
      if jobs[0].name != name {
        assert Others(jobs, name)[1..] == Others(jobs[1..], name);
      } else {
        assert Others(jobs, name) == Others(jobs[1..], name);
      }
    }
  }

  lemma {:induction false} FindAfterAdding(jobs: seq<Job>, job: Job, n: string)
    requires Find(jobs, job.name).None?
    ensures Find(jobs + [job], n) == if n == job.name then Some(job) else Find(jobs, n)
  {
    if jobs == [] {
      assert (jobs + [job])[1..] == [];
    } else {
      assert (jobs + [job])[1..] == jobs[1..] + [job];
      FindAfterAdding(jobs[1..], job, n);
    }
  }

  /** The first return to where a cycle starts uses no edge of that name but its first. */
  lemma {:induction false} FirstReturn(path: seq<string>, name: string) returns (i: nat)
    requires name in path
    ensures i < |path| && path[i] == name && forall j :: 0 <= j < i ==> path[j] != name
    decreases |path|
  {
    if path[0] == name {
      i := 0;
    } else {
      var rest := FirstReturn(path[1..], name);
      i := rest + 1;
    }
  }

  lemma CycleFoundFrom(jobs: seq<Job>, rest: seq<Job>, job: Job, path: seq<string>)
    requires forall n :: n != job.name ==> Deps(rest, n) == Deps(jobs, n)
    requires Deps(jobs, job.name) == DependenciesOf(job.trigger)
    requires IsCycle(jobs, path) && path[0] == job.name
    ensures FormsCycle(job, rest)
  {
    var tail := path[1..];
    assert tail[|tail| - 1] == job.name;
    var i := FirstReturn(tail, job.name);
    var back := tail[..i + 1];
    forall j | 0 <= j < |back| - 1 ensures back[j + 1] in Deps(rest, back[j]) {
      assert path[j + 2] in Deps(jobs, path[j + 1]);
    }
    assert path[0 + 1] in Deps(jobs, path[0]);
    assert Leads(rest, back, DependenciesOf(job.trigger), job.name);
  }

  lemma SearchedFromIsCycle(jobs: seq<Job>, rest: seq<Job>, job: Job)
    requires forall n, d :: d in Deps(rest, n) ==> d in Deps(jobs, n)
    requires Deps(jobs, job.name) == DependenciesOf(job.trigger)
    requires FormsCycle(job, rest)
    ensures !Acyclic(jobs)
  {
    var path :| Leads(rest, path, DependenciesOf(job.trigger), job.name);
    var cycle := [job.name] + path;
    forall i | 0 <= i < |cycle| - 1 ensures cycle[i + 1] in Deps(jobs, cycle[i]) {
      if i > 0 {
        assert path[i - 1 + 1] in Deps(rest, path[i - 1]);
      }
    }
    assert IsCycle(jobs, cycle);
  }

  /** A snapshot has no dependency cycle exactly when every job passes its own check against the others. */
  lemma SnapshotIsAcyclicIff(jobs: seq<Job>)
    requires Unique(jobs, JobName)
    ensures Acyclic(jobs) <==> forall job :: job in jobs ==> !FormsCycle(job, Others(jobs, job.name))
  {
    forall job | job in jobs && FormsCycle(job, Others(jobs, job.name)) ensures !Acyclic(jobs) {
      OthersKeepDeps(jobs, job);
      SearchedFromIsCycle(jobs, Others(jobs, job.name), job);
    }
    if !Acyclic(jobs) {
      var path :| IsCycle(jobs, path);
      assert path[0 + 1] in Deps(jobs, path[0]);
      var job := Find(jobs, path[0]).value;
      OthersKeepDeps(jobs, job);
      CycleFoundFrom(jobs, Others(jobs, job.name), job, path);
    }
  }

  lemma OthersKeepDeps(jobs: seq<Job>, job: Job)
    requires Unique(jobs, JobName) && job in jobs
    ensures Deps(jobs, job.name) == DependenciesOf(job.trigger)
    ensures forall n :: Deps(Others(jobs, job.name), n) == if n == job.name then [] else Deps(jobs, n)
  {
    FindIsUnique(jobs, job);
    forall n ensures Deps(Others(jobs, job.name), n) == if n == job.name then [] else Deps(jobs, n) {
      FindInOthers(jobs, job.name, n);
    }
  }

  /** Adding a job, or putting it in the place of the one of its name, keeps the graph acyclic exactly when the check passes. */
  lemma AddingIsAcyclicIff(others: seq<Job>, job: Job)
    requires Find(others, job.name).None?
    ensures Acyclic(others + [job]) <==> Acyclic(others) && !FormsCycle(job, others)
  {
    var all := others + [job];
    forall n ensures Deps(all, n) == if n == job.name then DependenciesOf(job.trigger) else Deps(others, n) {
      FindAfterAdding(others, job, n);
    }
    if FormsCycle(job, others) {
      SearchedFromIsCycle(all, others, job);
    }
    if path :| IsCycle(others, path) {
      forall i | 0 <= i < |path| - 1 ensures path[i + 1] in Deps(all, path[i]) {
        assert path[i + 1] in Deps(others, path[i]);
      }
      assert IsCycle(all, path);
    }
    if !Acyclic(all) {
      var path :| IsCycle(all, path);
      CycleThroughNewJob(others, job, all, path);
    }
  }

  lemma CycleThroughNewJob(others: seq<Job>, job: Job, all: seq<Job>, path: seq<string>)
    requires forall n :: Deps(all, n) == if n == job.name then DependenciesOf(job.trigger) else Deps(others, n)
    requires IsCycle(all, path)
    ensures FormsCycle(job, others) || IsCycle(others, path)
  {
    if i :| 0 <= i < |path| - 1 && path[i] == job.name {
      var turned := path[i..] + path[1..i + 1];
      forall k | 0 <= k < |turned| - 1 ensures turned[k + 1] in Deps(all, turned[k]) {
        if k < |path| - i - 1 {
          assert path[i + k + 1] in Deps(all, path[i + k]);
        } else {
          var j := k - (|path| - i - 1);
          assert path[j + 1] in Deps(all, path[j]);
        }
      }
      assert IsCycle(all, turned);
      CycleFoundFrom(all, others, job, turned);
    } else {
      forall i | 0 <= i < |path| - 1 ensures path[i + 1] in Deps(others, path[i]) {
        assert path[i + 1] in Deps(all, path[i]);
      }
    }
  }

  // ------------------------------------------------------------------- the whole check

  /** A dependent job names at least one job, none twice, all of them registered and none of them itself. */
  predicate DependenciesAreRegistered(job: Job, others: seq<Job>) {
    job.trigger.DependsOn? ==>
      && job.trigger.jobs != []
      && (forall i, j :: 0 <= i < j < |job.trigger.jobs| ==> job.trigger.jobs[i] != job.trigger.jobs[j])
      && forall name :: name in job.trigger.jobs ==> name != job.name && Find(others, name).Some?
  }

  method ValidateDependsOn(job: Job, others: seq<Job>) returns (ok: bool)
    ensures ok <==> DependenciesAreRegistered(job, others)
  {
    if !job.trigger.DependsOn? {
      return true;
    }
    var names := job.trigger.jobs;
    if names == [] {
      return false;
    }
    var unique := {};
    for i := 0 to |names|
      invariant forall n :: n in unique <==> n in names[..i]
      invariant forall j, k :: 0 <= j < k < i ==> names[j] != names[k]
      invariant forall n :: n in names[..i] ==> n != job.name && Find(others, n).Some?
    {
      assert names[i] in names;
      if names[i] == job.name || names[i] in unique || Find(others, names[i]).None? {
        assert names[i] in unique ==> exists j :: 0 <= j < i && names[j] == names[i];
        return false;
      }
      unique := unique + {names[i]};
    }
    assert names[..|names|] == names;
    return true;
  }

  ghost predicate JobPasses(job: Job, jobs: seq<Job>) {
    DependenciesAreRegistered(job, Others(jobs, job.name)) && !FormsCycle(job, Others(jobs, job.name))
  }

  method ValidateJob(job: Job, jobs: seq<Job>) returns (ok: bool)
    ensures ok <==> JobPasses(job, jobs)
  {
    var others := Others(jobs, job.name);
    ok := ValidateDependsOn(job, others);
    if ok {
      var cyclic := SearchCycle(job, others);
      ok := !cyclic;
    }
  }

  /** Jobs that fit together: distinct names, registered dependencies, no cycle. */
  ghost predicate FitTogether(jobs: seq<Job>) {
    Unique(jobs, JobName) && Acyclic(jobs)
    && forall job :: job in jobs ==> DependenciesAreRegistered(job, Others(jobs, job.name))
  }

  lemma EachPassesIff(jobs: seq<Job>)
    ensures FitTogether(jobs) <==> Unique(jobs, JobName) && forall i :: 0 <= i < |jobs| ==> JobPasses(jobs[i], jobs)
  {
    if Unique(jobs, JobName) {
      SnapshotIsAcyclicIff(jobs);
      hide Acyclic, FormsCycle, DependenciesAreRegistered, Unique, Others;
      if forall i :: 0 <= i < |jobs| ==> JobPasses(jobs[i], jobs) {
        forall job | job in jobs ensures JobPasses(job, jobs) {
          var i :| 0 <= i < |jobs| && jobs[i] == job;
        }
      }
    }
  }

  /** A configuration's jobs pass as a whole exactly when they fit together. */
  method ValidateJobs(jobs: seq<Job>) returns (ok: bool)
    ensures ok <==> FitTogether(jobs)
  {
    EachPassesIff(jobs);
    hide JobPasses, FitTogether;
    var names := {};
    for i := 0 to |jobs|
      invariant forall n :: n in names <==> exists j :: 0 <= j < i && JobName(jobs[j]) == n
      invariant forall j, k :: 0 <= j < k < i ==> JobName(jobs[j]) != JobName(jobs[k])
      invariant forall j :: 0 <= j < i ==> JobPasses(jobs[j], jobs)
    {
      if jobs[i].name in names {
        return false;
      }
      names := names + {jobs[i].name};
      var passes := ValidateJob(jobs[i], jobs);
      if !passes {
        return false;
      }
    }
    return true;
  }
}
