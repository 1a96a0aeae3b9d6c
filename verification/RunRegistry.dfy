/**
  The registry of active job runs: four linked tables, FIFO promotion, cancellation,
  tombstones and drain.  Every locked operation is one step.  A run identifier is
  modelled by the number of runs registered before it.
 */
module RunRegistry {
  import opened Options

  datatype Phase = Queued | Starting | Running | Tombstoned

  datatype Record = Record(job: nat, phase: Phase)

  datatype OverlapPolicy = Skip | Queue | Parallel

  datatype Registry = Registry(
    born: nat,
    runs: map<nat, Record>,
    runsByJob: map<nat, set<nat>>,
    queuedByJob: map<nat, seq<nat>>,
    cleanupByJob: map<nat, set<nat>>,
    tombstoned: set<nat>,
    frozen: set<nat>)

  const EMPTY := Registry(0, map[], map[], map[], map[], {}, {})

  function RunsOf(s: Registry, job: nat): set<nat> {
    if job in s.runsByJob then s.runsByJob[job] else {}
  }

  function QueueOf(s: Registry, job: nat): seq<nat> {
    if job in s.queuedByJob then s.queuedByJob[job] else []
  }

  function CleanupOf(s: Registry, job: nat): set<nat> {
    if job in s.cleanupByJob then s.cleanupByJob[job] else {}
  }

  predicate OccupiesSlot(phase: Phase) {
    phase.Starting? || phase.Running?
  }

  predicate HasActive(s: Registry, job: nat) {
    exists run :: run in RunsOf(s, job) && run in s.runs && OccupiesSlot(s.runs[run].phase)
  }

  predicate HasRuns(s: Registry, job: nat) {
    RunsOf(s, job) != {} || CleanupOf(s, job) != {}
  }

  predicate ShouldPersistTerminal(s: Registry, run: nat) {
    run in s.runs && s.runs[run].phase != Tombstoned && s.runs[run].job !in s.tombstoned
  }

  // ------------------------------------------------------------------- the operations

  function Register(s: Registry, job: nat, phase: Phase): Registry {
    s.(born := s.born + 1, runs := s.runs[s.born := Record(job, phase)],
      runsByJob := s.runsByJob[job := RunsOf(s, job) + {s.born}])
  }

  function Enqueue(s: Registry, job: nat, run: nat): Registry {
    s.(queuedByJob := s.queuedByJob[job := QueueOf(s, job) + [run]])
  }

  /** Admission: frozen jobs are skipped, an occupied slot goes by the overlap policy. */
  function Dispatch(s: Registry, job: nat, policy: OverlapPolicy): Registry {
    if job in s.frozen || (HasActive(s, job) && policy.Skip?) then s
    else if HasActive(s, job) && policy.Queue? then Enqueue(Register(s, job, Queued), job, s.born)
    else Register(s, job, Starting)
  }

  function PublishChild(s: Registry, run: nat): Registry {
    if run in s.runs && s.runs[run].phase != Tombstoned then s.(runs := s.runs[run := s.runs[run].(phase := Running)])
    else s
  }

  /** A job whose last run goes loses its entry. */
  function WithoutRuns(s: Registry, job: nat, gone: set<nat>): map<nat, set<nat>> {
    if job !in s.runsByJob then s.runsByJob
    else if s.runsByJob[job] - gone == {} then s.runsByJob - {job}
    else s.runsByJob[job := s.runsByJob[job] - gone]
  }

  function Unlink(s: Registry, run: nat): Registry
    requires run in s.runs
  {
    s.(runs := s.runs - {run}, runsByJob := WithoutRuns(s, s.runs[run].job, {run}))
  }

  function Without(queue: seq<nat>, run: nat): (rest: seq<nat>)
    ensures forall r :: r in rest <==> r in queue && r != run
  {
    if queue == [] then []
    else if queue[0] == run then Without(queue[1..], run)
    else [queue[0]] + Without(queue[1..], run)
  }

  datatype Cancelled = WasQueued | WasActive | Missing

  function CancelOutcome(s: Registry, job: nat, run: nat): Cancelled {
    if run !in s.runs || s.runs[run].job != job then Missing
    else if s.runs[run].phase != Queued then WasActive
    else WasQueued
  }

  /** Only a run of the named job is touched, and only a queued one leaves here. */
  function CancelOwned(s: Registry, job: nat, run: nat): Registry {
    if CancelOutcome(s, job, run) != WasQueued then s
    else Unlink(s, run).(queuedByJob := s.queuedByJob[job := Without(QueueOf(s, job), run)])
  }

  function Promote(s: Registry, job: nat): Registry {
    var queue := QueueOf(s, job);
    if queue == [] then s
    else
      var popped := s.(queuedByJob := s.queuedByJob[job := queue[1..]]);
      if queue[0] in s.runs then popped.(runs := s.runs[queue[0] := s.runs[queue[0]].(phase := Starting)]) else popped
  }

  /** The run that gets the slot, if any. */
  function Promoted(s: Registry, job: nat): Option<nat> {
    if QueueOf(s, job) != [] && QueueOf(s, job)[0] in s.runs then Some(QueueOf(s, job)[0]) else None
  }

  function Finish(s: Registry, run: nat): Registry {
    if run !in s.runs then s
    else
      var job, rest := s.runs[run].job, Unlink(s, run);
      if HasActive(rest, job) then rest else Promote(rest, job)
  }

  /** A run whose child could not be reaped frees its slot at once and owes a clean-up. */
  function FinishUnreaped(s: Registry, run: nat): Registry {
    if run !in s.runs then s
    else
      var job := s.runs[run].job;
      Promote(Unlink(s, run).(cleanupByJob := s.cleanupByJob[job := CleanupOf(s, job) + {run}]), job)
  }

  function FinishCleanup(s: Registry, job: nat, run: nat): Registry {
    if job !in s.cleanupByJob then s
    else if s.cleanupByJob[job] - {run} == {} then s.(cleanupByJob := s.cleanupByJob - {job})
    else s.(cleanupByJob := s.cleanupByJob[job := s.cleanupByJob[job] - {run}])
  }

  function QueuedRuns(s: Registry, job: nat): set<nat> {
    set run | run in RunsOf(s, job) && run in s.runs && s.runs[run].phase == Queued
  }

  function ActiveRuns(s: Registry, job: nat): set<nat> {
    set run | run in RunsOf(s, job) && run in s.runs && s.runs[run].phase != Queued
  }

  /** Queued runs leave, active ones are asked to stop and, with a tombstone, may no longer report. */
  function BeginDrain(s: Registry, job: nat, tombstone: bool): Registry {
    var queued, active := QueuedRuns(s, job), ActiveRuns(s, job);
    s.(tombstoned := if tombstone then s.tombstoned + {job} else s.tombstoned,
      runs := map run | run in s.runs && run !in queued ::
        if tombstone && run in active then s.runs[run].(phase := Tombstoned) else s.runs[run],
      runsByJob := WithoutRuns(s, job, queued),
      queuedByJob := s.queuedByJob - {job})
  }

  datatype Event =
    | Dispatches(job: nat, policy: OverlapPolicy)
    | Publishes(run: nat)
    | Cancels(job: nat, run: nat)
    | Drains(job: nat, tombstone: bool)
    | Finishes(run: nat)
    | FinishesUnreaped(run: nat)
    | Cleans(job: nat, run: nat)
    | Freezes(job: nat)
    | Thaws(job: nat)

  /** A runner reports only for a run that was started. */
  predicate IsPossible(s: Registry, event: Event) {
    match event
    case Publishes(run) => run in s.runs ==> s.runs[run].phase != Queued
    case Finishes(run) => run in s.runs ==> s.runs[run].phase != Queued
    case FinishesUnreaped(run) => run in s.runs ==> s.runs[run].phase != Queued
    case _ => true
  }

  function Step(s: Registry, event: Event): Registry {
    match event
    case Dispatches(job, policy) => Dispatch(s, job, policy)
    case Publishes(run) => PublishChild(s, run)
    case Cancels(job, run) => CancelOwned(s, job, run)
    case Drains(job, tombstone) => BeginDrain(s, job, tombstone)
    case Finishes(run) => Finish(s, run)
    case FinishesUnreaped(run) => FinishUnreaped(s, run)
    case Cleans(job, run) => FinishCleanup(s, job, run)
    case Freezes(job) => s.(frozen := s.frozen + {job})
    case Thaws(job) => s.(frozen := s.frozen - {job})
  }

  function Life(s: Registry, events: seq<Event>): Registry
    decreases |events|
  {
    if events == [] then s else Life(Step(s, events[0]), events[1..])
  }

  predicate ArePossible(s: Registry, events: seq<Event>)
    decreases |events|
  {
    events == [] || (IsPossible(s, events[0]) && ArePossible(Step(s, events[0]), events[1..]))
  }

  /** A history grows at its end: the next event happens in the state the others have led to, and must be possible there. */
  lemma {:induction false} LifeSnoc(s: Registry, events: seq<Event>, event: Event)
    ensures Life(s, events + [event]) == Step(Life(s, events), event)
    ensures ArePossible(s, events + [event]) <==> ArePossible(s, events) && IsPossible(Life(s, events), event)
    decreases |events|
  {
    if events == [] {
      assert [] + [event] == [event] && [event][1..] == [];
    } else {
      assert (events + [event])[1..] == events[1..] + [event];
      LifeSnoc(Step(s, events[0]), events[1..], event);
    }
  }

  // ------------------------------------------------------------------- the invariant

  /** `runsByJob` is the exact inverse of `runs`, with no empty entry. */
  ghost predicate Linked(s: Registry) {
    && (forall job, run :: run in RunsOf(s, job) <==> run in s.runs && s.runs[run].job == job)
    && (forall run :: run in s.runs ==> run < s.born)
    && (forall job :: job in s.runsByJob ==> s.runsByJob[job] != {})
  }

  predicate Ascending(queue: seq<nat>) {
    forall i, j :: 0 <= i < j < |queue| ==> queue[i] < queue[j]
  }

  /** A queue holds exactly its job's queued runs, oldest first. */
  ghost predicate QueuesMatch(s: Registry) {
    && (forall job :: Ascending(QueueOf(s, job)))
    && (forall job, run :: run in QueueOf(s, job) <==> run in s.runs && s.runs[run] == Record(job, Queued))
  }

  /** Nobody waits for a slot that nobody holds. */
  ghost predicate QueuesMove(s: Registry) {
    forall job :: QueueOf(s, job) != [] ==> HasActive(s, job)
  }

  /** What a job still has to clean up is no run any more. */
  ghost predicate OwesOnlyOver(s: Registry, owed: set<nat>) {
    forall run :: run in owed ==> run !in s.runs && run < s.born
  }

  ghost predicate CleanupsAreOver(s: Registry) {
    && (forall job :: job in s.cleanupByJob ==> s.cleanupByJob[job] != {})
    && (forall job :: OwesOnlyOver(s, CleanupOf(s, job)))
  }

  ghost predicate Valid(s: Registry) {
    Linked(s) && QueuesMatch(s) && QueuesMove(s) && CleanupsAreOver(s)
  }

  lemma EmptyIsValid()
    ensures Valid(EMPTY)
  {
  }

  // ------------------------------------------------------------------- links

  lemma RegisterKeepsLinks(s: Registry, job: nat, phase: Phase)
    requires Linked(s)
    ensures Linked(Register(s, job, phase))
  {
    var r := Register(s, job, phase);
    forall j, run ensures run in RunsOf(r, j) <==> run in r.runs && r.runs[run].job == j {
      assert run in RunsOf(s, j) <==> run in s.runs && s.runs[run].job == j;
    }
  }

  /** Dropping runs of one job from both tables. */
  lemma DroppingKeepsLinks(s: Registry, r: Registry, job: nat, gone: set<nat>)
    requires Linked(s) && gone <= RunsOf(s, job)
    requires r.runs.Keys == s.runs.Keys - gone && r.born == s.born
    requires forall run :: run in r.runs ==> r.runs[run].job == s.runs[run].job
    requires r.runsByJob == WithoutRuns(s, job, gone)
    ensures Linked(r)
    ensures forall j :: RunsOf(r, j) == if j == job then RunsOf(s, j) - gone else RunsOf(s, j)
  {
    forall j, run ensures run in RunsOf(r, j) <==> run in r.runs && r.runs[run].job == j {
      assert run in RunsOf(s, j) <==> run in s.runs && s.runs[run].job == j;
      assert run in gone ==> run in RunsOf(s, job);
    }
  }

  lemma UnlinkKeepsLinks(s: Registry, run: nat)
    requires Linked(s) && run in s.runs
    ensures Linked(Unlink(s, run))
    ensures forall j :: RunsOf(Unlink(s, run), j) == if j == s.runs[run].job then RunsOf(s, j) - {run} else RunsOf(s, j)
  {
    assert run in RunsOf(s, s.runs[run].job);
    DroppingKeepsLinks(s, Unlink(s, run), s.runs[run].job, {run});
  }

  /** Changing phases changes no link. */
  lemma RephasingKeepsLinks(s: Registry, r: Registry)
    requires Linked(s) && r.runs.Keys == s.runs.Keys && r.runsByJob == s.runsByJob && r.born == s.born
    requires forall run :: run in s.runs ==> r.runs[run].job == s.runs[run].job
    ensures Linked(r)
    ensures forall j :: RunsOf(r, j) == RunsOf(s, j)
  {
    assert forall j :: RunsOf(r, j) == RunsOf(s, j);
  }

  lemma CleanupsStay(s: Registry, r: Registry)
    requires CleanupsAreOver(s) && r.cleanupByJob == s.cleanupByJob && s.born <= r.born
    requires forall run :: run in r.runs ==> run in s.runs || s.born <= run
    ensures CleanupsAreOver(r)
  {
    forall j ensures OwesOnlyOver(r, CleanupOf(r, j)) {
      assert OwesOnlyOver(s, CleanupOf(s, j)) && CleanupOf(r, j) == CleanupOf(s, j);
    }
  }

  // ------------------------------------------------------------------- every step keeps the invariant

  lemma DispatchKeepsQueues(s: Registry, job: nat, policy: OverlapPolicy)
    requires Linked(s) && QueuesMatch(s) && job !in s.frozen
    ensures QueuesMatch(Dispatch(s, job, policy))
  {
    var r := Dispatch(s, job, policy);
    assert s.born !in s.runs;
    forall i | 0 <= i < |QueueOf(s, job)| ensures QueueOf(s, job)[i] < s.born {
      assert QueueOf(s, job)[i] in QueueOf(s, job);
      assert QueueOf(s, job)[i] in s.runs;
    }
    forall j ensures Ascending(QueueOf(r, j)) {
      assert Ascending(QueueOf(s, j));
    }
    forall j, run ensures run in QueueOf(r, j) <==> run in r.runs && r.runs[run] == Record(j, Queued) {
      assert run in QueueOf(s, j) <==> run in s.runs && s.runs[run] == Record(j, Queued);
    }
  }

  /** A slot that stays held keeps its job moving. */
  lemma SlotsStay(s: Registry, r: Registry, job: nat)
    requires RunsOf(s, job) <= RunsOf(r, job)
    requires forall run :: run in RunsOf(s, job) && run in s.runs && OccupiesSlot(s.runs[run].phase) ==>
               run in r.runs && OccupiesSlot(r.runs[run].phase)
    ensures HasActive(s, job) ==> HasActive(r, job)
  {
    if HasActive(s, job) {
      var run :| run in RunsOf(s, job) && run in s.runs && OccupiesSlot(s.runs[run].phase);
      assert run in RunsOf(r, job) && run in r.runs && OccupiesSlot(r.runs[run].phase);
    }
  }

  lemma DispatchKeepsMoving(s: Registry, job: nat, policy: OverlapPolicy)
    requires Linked(s) && QueuesMove(s) && job !in s.frozen
    ensures QueuesMove(Dispatch(s, job, policy))
  {
    var r := Dispatch(s, job, policy);
    forall j | QueueOf(r, j) != [] ensures HasActive(r, j) {
      assert j != job ==> QueueOf(r, j) == QueueOf(s, j);
      hide Linked;
      assert s.born !in s.runs;
      hide HasActive, QueueOf;
      SlotsStay(s, r, j);
    }
  }

  lemma DispatchKeepsLinks(s: Registry, job: nat, policy: OverlapPolicy)
    requires Linked(s)
    ensures Linked(Dispatch(s, job, policy))
  {
    RegisterKeepsLinks(s, job, Queued);
    RegisterKeepsLinks(s, job, Starting);
    hide HasActive;
    if Dispatch(s, job, policy).queuedByJob != s.queuedByJob {
      RephasingKeepsLinks(Register(s, job, Queued), Dispatch(s, job, policy));
    }
  }

  lemma DispatchKeepsCleanups(s: Registry, job: nat, policy: OverlapPolicy)
    requires CleanupsAreOver(s)
    ensures CleanupsAreOver(Dispatch(s, job, policy))
  {
    hide HasActive;
    CleanupsStay(s, Dispatch(s, job, policy));
  }

  lemma DispatchKeepsValid(s: Registry, job: nat, policy: OverlapPolicy)
    requires Valid(s)
    ensures Valid(Dispatch(s, job, policy))
  {
    if job !in s.frozen {
      hide Dispatch, Linked, QueuesMatch, QueuesMove, CleanupsAreOver;
      DispatchKeepsLinks(s, job, policy);
      DispatchKeepsCleanups(s, job, policy);
      DispatchKeepsMoving(s, job, policy);
      DispatchKeepsQueues(s, job, policy);
    }
  }

  /** At most the phases of started runs change. */
  ghost predicate Rephased(s: Registry, r: Registry) {
    && r.runsByJob == s.runsByJob && r.queuedByJob == s.queuedByJob && r.runs.Keys == s.runs.Keys
    && forall run :: run in s.runs ==>
         && r.runs[run].job == s.runs[run].job
         && (r.runs[run].phase.Queued? <==> s.runs[run].phase.Queued?)
         && (OccupiesSlot(s.runs[run].phase) ==> OccupiesSlot(r.runs[run].phase))
  }

  lemma RephasedKeepsQueues(s: Registry, r: Registry)
    requires QueuesMatch(s) && Rephased(s, r)
    ensures QueuesMatch(r)
  {
    forall j ensures QueueOf(r, j) == QueueOf(s, j) && Ascending(QueueOf(r, j)) {
    }
    forall j, run ensures run in QueueOf(r, j) <==> run in r.runs && r.runs[run] == Record(j, Queued) {
      assert run in QueueOf(s, j) <==> run in s.runs && s.runs[run] == Record(j, Queued);
    }
  }

  lemma RephasedKeepsMoving(s: Registry, r: Registry)
    requires QueuesMove(s) && Rephased(s, r)
    ensures QueuesMove(r)
  {
    forall j | QueueOf(r, j) != [] ensures HasActive(r, j) {
      assert QueueOf(s, j) != [];
      hide HasActive;
      SlotsStay(s, r, j);
    }
  }

  lemma PublishRephases(s: Registry, run: nat)
    requires IsPossible(s, Publishes(run))
    ensures Rephased(s, PublishChild(s, run))
  {
  }

  lemma PublishKeepsValid(s: Registry, run: nat)
    requires Valid(s) && IsPossible(s, Publishes(run))
    ensures Valid(PublishChild(s, run))
  {
    var r := PublishChild(s, run);
    PublishRephases(s, run);
    hide PublishChild, Linked, QueuesMatch, QueuesMove, CleanupsAreOver;
    RephasingKeepsLinks(s, r);
    RephasedKeepsQueues(s, r);
    RephasedKeepsMoving(s, r);
    CleanupsStay(s, r);
  }

  lemma {:induction false} WithoutAscends(queue: seq<nat>, run: nat)
    requires Ascending(queue)
    ensures Ascending(Without(queue, run))
  {
    if queue != [] {
      var rest := Without(queue[1..], run);
      WithoutAscends(queue[1..], run);
      forall k | 0 <= k < |rest| ensures queue[0] < rest[k] {
        assert rest[k] in rest;
        assert rest[k] in queue[1..];
      }
    }
  }

  lemma CancelShape(s: Registry, job: nat, run: nat)
    requires CancelOutcome(s, job, run) == WasQueued && QueuesMatch(s)
    ensures var r := CancelOwned(s, job, run);
            && r.runs == s.runs - {run} && run in s.runs && s.runs[run] == Record(job, Queued)
            && (forall j :: Ascending(QueueOf(r, j)))
            && (forall j :: j != job ==> QueueOf(r, j) == QueueOf(s, j))
            && (forall other :: other in QueueOf(r, job) <==> other in QueueOf(s, job) && other != run)
  {
    var r := CancelOwned(s, job, run);
    WithoutAscends(QueueOf(s, job), run);
    assert QueueOf(r, job) == Without(QueueOf(s, job), run);
    forall j ensures Ascending(QueueOf(r, j)) {
      assert Ascending(QueueOf(s, j));
    }
  }

  lemma CancelKeepsQueues(s: Registry, job: nat, run: nat)
    requires Linked(s) && QueuesMatch(s) && CancelOutcome(s, job, run) == WasQueued
    ensures QueuesMatch(CancelOwned(s, job, run))
  {
    hide Linked, CancelOwned, QueueOf, Without, CancelOutcome;
    var r := CancelOwned(s, job, run);
    CancelShape(s, job, run);
    forall j, other ensures other in QueueOf(r, j) <==> other in r.runs && r.runs[other] == Record(j, Queued) {
      assert other in QueueOf(s, j) <==> other in s.runs && s.runs[other] == Record(j, Queued);
    }
  }

  lemma CancelKeepsValid(s: Registry, job: nat, run: nat)
    requires Valid(s)
    ensures Valid(CancelOwned(s, job, run))
  {
    if CancelOutcome(s, job, run) == WasQueued {
      var r := CancelOwned(s, job, run);
      UnlinkKeepsLinks(s, run);
      CancelKeepsQueues(s, job, run);
      CleanupsStay(s, r);
      hide QueuesMatch, CleanupsAreOver;
      assert forall j :: RunsOf(r, j) == RunsOf(Unlink(s, run), j);
      assert Linked(r);
      assert forall j :: QueueOf(r, j) == if j == job then Without(QueueOf(s, job), run) else QueueOf(s, j);
      forall j | HasActive(s, j) ensures HasActive(r, j) {
        var other :| other in RunsOf(s, j) && other in s.runs && OccupiesSlot(s.runs[other].phase);
        assert other in RunsOf(r, j) && other in r.runs;
      }
    }
  }

  /** Everything but that somebody holds the slot of this job. */
  ghost predicate ValidBut(s: Registry, job: nat) {
    Linked(s) && QueuesMatch(s) && CleanupsAreOver(s) && forall j :: j != job && QueueOf(s, j) != [] ==> HasActive(s, j)
  }

  /** The head of a queue leaves it and starts. */
  lemma PromoteShape(s: Registry, job: nat)
    requires Linked(s) && QueuesMatch(s) && QueueOf(s, job) != []
    ensures var queue, r := QueueOf(s, job), Promote(s, job);
            && queue[0] in s.runs && s.runs[queue[0]] == Record(job, Queued) && queue[0] in RunsOf(s, job)
            && r == s.(queuedByJob := s.queuedByJob[job := queue[1..]], runs := s.runs[queue[0] := Record(job, Starting)])
            && (forall j :: QueueOf(r, j) == if j == job then queue[1..] else QueueOf(s, j))
  {
    var queue := QueueOf(s, job);
    assert queue[0] in queue;
    hide HasActive;
  }

  lemma PromoteKeepsQueues(s: Registry, job: nat)
    requires Linked(s) && QueuesMatch(s) && QueueOf(s, job) != []
    ensures QueuesMatch(Promote(s, job))
  {
    var queue, r := QueueOf(s, job), Promote(s, job);
    PromoteShape(s, job);
    hide Promote, Linked, QueueOf;
    assert queue == [queue[0]] + queue[1..];
    forall j ensures Ascending(QueueOf(r, j)) {
      assert Ascending(QueueOf(s, j));
    }
    forall j, run ensures run in QueueOf(r, j) <==> run in r.runs && r.runs[run] == Record(j, Queued) {
      assert run in QueueOf(s, j) <==> run in s.runs && s.runs[run] == Record(j, Queued);
      assert run in queue <==> run == queue[0] || run in queue[1..];
      assert Ascending(queue);
      assert run in queue[1..] ==> run != queue[0];
    }
  }

  lemma PromoteKeepsMoving(s: Registry, job: nat)
    requires ValidBut(s, job) && QueueOf(s, job) != []
    ensures QueuesMove(Promote(s, job))
  {
    var queue, r := QueueOf(s, job), Promote(s, job);
    PromoteShape(s, job);
    hide Promote, Linked, QueuesMatch, CleanupsAreOver, QueueOf;
    assert queue[0] in RunsOf(r, job) && queue[0] in r.runs && OccupiesSlot(r.runs[queue[0]].phase);
    forall j | j != job && QueueOf(r, j) != [] ensures HasActive(r, j) {
      hide HasActive;
      SlotsStay(s, r, j);
    }
  }

  /** The oldest waiting run gets the free slot. */
  lemma PromoteKeepsValid(s: Registry, job: nat)
    requires ValidBut(s, job)
    ensures Valid(Promote(s, job))
    ensures Promoted(s, job) == if QueueOf(s, job) == [] then None else Some(QueueOf(s, job)[0])
  {
    if QueueOf(s, job) != [] {
      var r := Promote(s, job);
      PromoteShape(s, job);
      hide Promote, Linked, QueuesMatch, CleanupsAreOver, QueuesMove;
      RephasingKeepsLinks(s, r);
      CleanupsStay(s, r);
      PromoteKeepsQueues(s, job);
      PromoteKeepsMoving(s, job);
    }
  }

  lemma UnlinkKeepsRest(s: Registry, run: nat)
    requires Valid(s) && run in s.runs && s.runs[run].phase != Queued
    ensures ValidBut(Unlink(s, run), s.runs[run].job)
    ensures forall j :: QueueOf(Unlink(s, run), j) == QueueOf(s, j)
  {
    var r, job := Unlink(s, run), s.runs[run].job;
    UnlinkKeepsLinks(s, run);
    CleanupsStay(s, r);
    hide CleanupsAreOver;
    assert forall j :: QueueOf(r, j) == QueueOf(s, j);
    forall j | j != job && HasActive(s, j) ensures HasActive(r, j) {
      var other :| other in RunsOf(s, j) && other in s.runs && OccupiesSlot(s.runs[other].phase);
      assert other in RunsOf(r, j) && s.runs[other].job == j;
    }
  }

  lemma FinishKeepsValid(s: Registry, run: nat)
    requires Valid(s) && IsPossible(s, Finishes(run))
    ensures Valid(Finish(s, run))
  {
    if run in s.runs {
      UnlinkKeepsRest(s, run);
      PromoteKeepsValid(Unlink(s, run), s.runs[run].job);
    }
  }

  lemma FinishUnreapedKeepsValid(s: Registry, run: nat)
    requires Valid(s) && IsPossible(s, FinishesUnreaped(run))
    ensures Valid(FinishUnreaped(s, run))
  {
    if run in s.runs {
      var job := s.runs[run].job;
      UnlinkKeepsRest(s, run);
      var unlinked := Unlink(s, run);
      var owing := unlinked.(cleanupByJob := s.cleanupByJob[job := CleanupOf(s, job) + {run}]);
      assert forall j :: RunsOf(owing, j) == RunsOf(unlinked, j) && QueueOf(owing, j) == QueueOf(unlinked, j);
      assert forall j :: CleanupOf(owing, j) == if j == job then CleanupOf(s, job) + {run} else CleanupOf(s, j);
      forall j ensures OwesOnlyOver(owing, CleanupOf(owing, j)) {
        assert OwesOnlyOver(s, CleanupOf(s, j));
      }
      assert CleanupsAreOver(owing);
      forall j | j != job && HasActive(unlinked, j) ensures HasActive(owing, j) {
      }
      hide CleanupsAreOver;
      assert ValidBut(owing, job);
      PromoteKeepsValid(owing, job);
    }
  }

  lemma CleanShrinks(s: Registry, job: nat, run: nat)
    requires CleanupsAreOver(s)
    ensures CleanupsAreOver(FinishCleanup(s, job, run))
  {
    var r := FinishCleanup(s, job, run);
    forall j ensures OwesOnlyOver(r, CleanupOf(r, j)) {
      assert OwesOnlyOver(s, CleanupOf(s, j)) && CleanupOf(r, j) <= CleanupOf(s, j);
    }
  }

  lemma CleanKeepsValid(s: Registry, job: nat, run: nat)
    requires Valid(s)
    ensures Valid(FinishCleanup(s, job, run))
  {
    var r := FinishCleanup(s, job, run);
    CleanShrinks(s, job, run);
    hide CleanupsAreOver, Linked, QueuesMatch, QueuesMove;
    RephasingKeepsLinks(s, r);
    RephasedKeepsQueues(s, r);
    RephasedKeepsMoving(s, r);
  }

  lemma DrainKeepsQueues(s: Registry, job: nat, tombstone: bool)
    requires Linked(s) && QueuesMatch(s)
    ensures QueuesMatch(BeginDrain(s, job, tombstone))
  {
    var r := BeginDrain(s, job, tombstone);
    assert forall j :: QueueOf(r, j) == if j == job then [] else QueueOf(s, j);
    forall j ensures Ascending(QueueOf(r, j)) {
      assert Ascending(QueueOf(s, j));
    }
    forall j, run ensures run in QueueOf(r, j) <==> run in r.runs && r.runs[run] == Record(j, Queued) {
      assert run in QueueOf(s, j) <==> run in s.runs && s.runs[run] == Record(j, Queued);
      assert run in RunsOf(s, job) <==> run in s.runs && s.runs[run].job == job;
    }
  }

  lemma DrainKeepsLinks(s: Registry, job: nat, tombstone: bool)
    requires Linked(s)
    ensures var r, queued := BeginDrain(s, job, tombstone), QueuedRuns(s, job);
            Linked(r) && forall j :: RunsOf(r, j) == if j == job then RunsOf(s, j) - queued else RunsOf(s, j)
  {
    DroppingKeepsLinks(s, BeginDrain(s, job, tombstone), job, QueuedRuns(s, job));
  }

  lemma DrainKeepsValid(s: Registry, job: nat, tombstone: bool)
    requires Valid(s)
    ensures Valid(BeginDrain(s, job, tombstone))
  {
    var r := BeginDrain(s, job, tombstone);
    DrainKeepsLinks(s, job, tombstone);
    DrainKeepsQueues(s, job, tombstone);
    CleanupsStay(s, r);
    assert forall j :: QueueOf(r, j) == if j == job then [] else QueueOf(s, j);
    hide QueuesMatch, CleanupsAreOver;
    forall j | j != job && HasActive(s, j) ensures HasActive(r, j) {
      var other :| other in RunsOf(s, j) && other in s.runs && OccupiesSlot(s.runs[other].phase);
      assert s.runs[other].job == j;
      assert other !in RunsOf(s, job);
    }
  }

  lemma FreezeKeepsValid(s: Registry, r: Registry)
    requires Valid(s) && r == s.(frozen := r.frozen)
    ensures Valid(r)
  {
    hide CleanupsAreOver, Linked, QueuesMatch, QueuesMove;
    RephasingKeepsLinks(s, r);
    RephasedKeepsQueues(s, r);
    RephasedKeepsMoving(s, r);
    CleanupsStay(s, r);
  }

  /** The four tables stay linked, the queues exact and moving, under every operation. */
  lemma StepKeepsValid(s: Registry, event: Event)
    requires Valid(s) && IsPossible(s, event)
    ensures Valid(Step(s, event))
  {
    hide Valid;
    match event
    case Dispatches(job, policy) => DispatchKeepsValid(s, job, policy);
    case Publishes(run) => PublishKeepsValid(s, run);
    case Cancels(job, run) => CancelKeepsValid(s, job, run);
    case Drains(job, tombstone) => DrainKeepsValid(s, job, tombstone);
    case Finishes(run) => FinishKeepsValid(s, run);
    case FinishesUnreaped(run) => FinishUnreapedKeepsValid(s, run);
    case Cleans(job, run) => CleanKeepsValid(s, job, run);
    case Freezes(job) => FreezeKeepsValid(s, Step(s, event));
    case Thaws(job) => FreezeKeepsValid(s, Step(s, event));
  }

  lemma {:induction false} LifeKeepsValid(s: Registry, events: seq<Event>)
    requires Valid(s) && ArePossible(s, events)
    ensures Valid(Life(s, events))
    decreases |events|
  {
    hide Valid, Step;
    if events != [] {
      StepKeepsValid(s, events[0]);
      LifeKeepsValid(Step(s, events[0]), events[1..]);
    }
  }

  // ------------------------------------------------------------------- leaving the queue

  /** What left the queue with a promotion was its head. */
  lemma LeavingByPromotion(s: Registry, rest: Registry, j: nat, job: nat, run: nat)
    requires run in QueueOf(s, job) && run !in QueueOf(Promote(rest, j), job) && QueueOf(rest, job) == QueueOf(s, job)
    requires QueueOf(s, job)[0] in rest.runs && rest.runs[QueueOf(s, job)[0]] == Record(job, Queued)
    ensures var r, queue := Promote(rest, j), QueueOf(s, job);
            run == queue[0] && QueueOf(r, job) == queue[1..] && run in r.runs && r.runs[run] == Record(job, Starting)
  {
    var queue := QueueOf(s, job);
    assert queue == [queue[0]] + queue[1..];
  }

  lemma LeavingByFinish(s: Registry, finished: nat, job: nat, run: nat)
    requires Valid(s) && IsPossible(s, Finishes(finished)) && run in QueueOf(s, job)
    ensures var queue, r, u := QueueOf(s, job), Finish(s, finished), FinishUnreaped(s, finished);
            && (run !in QueueOf(r, job) ==>
                  run == queue[0] && QueueOf(r, job) == queue[1..] && run in r.runs && r.runs[run] == Record(job, Starting))
            && (run !in QueueOf(u, job) ==>
                  run == queue[0] && QueueOf(u, job) == queue[1..] && run in u.runs && u.runs[run] == Record(job, Starting))
  {
    if finished in s.runs {
      var j, rest := s.runs[finished].job, Unlink(s, finished);
      var owing := rest.(cleanupByJob := s.cleanupByJob[j := CleanupOf(s, j) + {finished}]);
      assert QueueOf(s, job)[0] in QueueOf(s, job);
      assert s.runs[QueueOf(s, job)[0]] == Record(job, Queued);
      assert QueueOf(rest, job) == QueueOf(s, job) == QueueOf(owing, job);
      hide Valid, Linked, QueuesMatch, QueuesMove, CleanupsAreOver, HasActive, QueueOf, Promote;
      if run !in QueueOf(Promote(rest, j), job) {
        LeavingByPromotion(s, rest, j, job, run);
      }
      if run !in QueueOf(Promote(owing, j), job) {
        LeavingByPromotion(s, owing, j, job, run);
      }
    }
  }

  lemma LeavingOtherwise(s: Registry, event: Event, job: nat, run: nat)
    requires Valid(s) && run in QueueOf(s, job) && run !in QueueOf(Step(s, event), job)
    requires !event.Finishes? && !event.FinishesUnreaped?
    ensures var r := Step(s, event);
            || (event.Cancels? && event.run == run && run !in r.runs)
            || (event.Drains? && event.job == job && run !in r.runs)
  {
    assert s.runs[run] == Record(job, Queued) && run in RunsOf(s, job);
    hide Valid, Linked, QueuesMatch, QueuesMove, CleanupsAreOver, HasActive;
  }

  /** A queued run leaves as the oldest one when a slot is freed, by its own cancellation, or in a drain. */
  lemma LeavingTheQueue(s: Registry, event: Event, job: nat, run: nat)
    requires Valid(s) && IsPossible(s, event)
    requires run in QueueOf(s, job) && run !in QueueOf(Step(s, event), job)
    ensures var r, queue := Step(s, event), QueueOf(s, job);
            match event
            case Finishes(_) => run == queue[0] && QueueOf(r, job) == queue[1..] && run in r.runs && r.runs[run] == Record(job, Starting)
            case FinishesUnreaped(_) => run == queue[0] && QueueOf(r, job) == queue[1..] && run in r.runs && r.runs[run] == Record(job, Starting)
            case Cancels(_, cancelled) => cancelled == run && run !in r.runs
            case Drains(drained, _) => drained == job && run !in r.runs
            case _ => false
  {
    hide Valid, QueueOf, Finish, FinishUnreaped, Dispatch, CancelOwned, BeginDrain, PublishChild, FinishCleanup;
    match event
    case Finishes(finished) => LeavingByFinish(s, finished, job, run);
    case FinishesUnreaped(finished) => LeavingByFinish(s, finished, job, run);
    case _ => LeavingOtherwise(s, event, job, run);
  }

  lemma UnlinkedSlot(s: Registry, run: nat)
    requires Valid(s) && IsPossible(s, Finishes(run)) && run in s.runs
    ensures HasActive(Unlink(s, run), s.runs[run].job)
       <==> exists other :: other != run && other in RunsOf(s, s.runs[run].job) && other in s.runs && OccupiesSlot(s.runs[other].phase)
  {
    var rest, job := Unlink(s, run), s.runs[run].job;
    UnlinkKeepsLinks(s, run);
    hide Valid, Linked;
    if HasActive(rest, job) {
      var other :| other in RunsOf(rest, job) && other in rest.runs && OccupiesSlot(rest.runs[other].phase);
      assert other != run && other in RunsOf(s, job) && other in s.runs && OccupiesSlot(s.runs[other].phase);
    }
    if other :| other != run && other in RunsOf(s, job) && other in s.runs && OccupiesSlot(s.runs[other].phase) {
      assert other in RunsOf(rest, job) && other in rest.runs && OccupiesSlot(rest.runs[other].phase);
    }
  }

  /**
    A finished run passes its slot to the head of the queue exactly when no other run of the job holds one; an
    unreaped run always does.
   */
  lemma SlotIsPassedOnIff(s: Registry, run: nat)
    requires Valid(s) && IsPossible(s, Finishes(run)) && run in s.runs && QueueOf(s, s.runs[run].job) != []
    ensures var job, queue := s.runs[run].job, QueueOf(s, s.runs[run].job);
            && (QueueOf(Finish(s, run), job) == queue[1..]
                <==> !exists other :: other != run && other in RunsOf(s, job) && other in s.runs && OccupiesSlot(s.runs[other].phase))
            && QueueOf(FinishUnreaped(s, run), job) == queue[1..]
  {
    UnlinkedSlot(s, run);
    hide Valid, HasActive, RunsOf;
  }

  predicate IsQueued(s: Registry, run: nat) {
    run in s.runs && s.runs[run].phase == Queued
  }

  lemma OnlyNewRunsAreQueued(s: Registry, event: Event, run: nat)
    requires Valid(s) && IsPossible(s, event) && run < s.born && !IsQueued(s, run)
    ensures !IsQueued(Step(s, event), run) && run < Step(s, event).born
  {
    hide QueuesMatch, QueuesMove, CleanupsAreOver, HasActive;
  }

  /** A run that has left its queue, however it left, never waits again. */
  lemma {:induction false} NeverQueuedTwice(s: Registry, events: seq<Event>, run: nat)
    requires Valid(s) && ArePossible(s, events) && run < s.born && !IsQueued(s, run)
    ensures !IsQueued(Life(s, events), run)
    decreases |events|
  {
    hide Valid, Step, IsQueued;
    if events != [] {
      StepKeepsValid(s, events[0]);
      OnlyNewRunsAreQueued(s, events[0], run);
      NeverQueuedTwice(Step(s, events[0]), events[1..], run);
    }
  }

  // ------------------------------------------------------------------- the drain barrier

  /** A drain takes the job's queue and leaves its active runs; no other job notices. */
  lemma DrainIsLocal(s: Registry, job: nat, tombstone: bool)
    requires Valid(s)
    ensures var r := BeginDrain(s, job, tombstone);
            && RunsOf(r, job) == ActiveRuns(s, job) && QueueOf(r, job) == []
            && (forall j :: j != job ==> RunsOf(r, j) == RunsOf(s, j) && QueueOf(r, j) == QueueOf(s, j))
            && (forall run :: run in s.runs && s.runs[run].job != job ==> run in r.runs && r.runs[run] == s.runs[run])
            && (tombstone ==> forall run :: run in RunsOf(r, job) ==> r.runs[run].phase == Tombstoned)
  {
    var r := BeginDrain(s, job, tombstone);
    DrainKeepsLinks(s, job, tombstone);
    hide QueuesMatch, QueuesMove, CleanupsAreOver;
    assert RunsOf(s, job) - QueuedRuns(s, job) == ActiveRuns(s, job);
    forall run | run in s.runs && s.runs[run].job != job ensures run in r.runs && r.runs[run] == s.runs[run] {
      assert run !in RunsOf(s, job);
    }
  }

  /** Frozen and tombstoned: only these former runs are left, and none of them may report. */
  ghost predicate BehindTheBarrier(s: Registry, job: nat, former: set<nat>) {
    && job in s.frozen && job in s.tombstoned
    && RunsOf(s, job) <= former && QueueOf(s, job) == []
    && forall run :: run in RunsOf(s, job) && run in s.runs ==> s.runs[run].phase == Tombstoned
  }

  lemma StepStaysBehindTheBarrier(s: Registry, event: Event, job: nat, former: set<nat>)
    requires Valid(s) && IsPossible(s, event) && BehindTheBarrier(s, job, former) && event != Thaws(job)
    ensures BehindTheBarrier(Step(s, event), job, former)
  {
    match event
    case Finishes(run) => FinishStaysBehind(s, run, job, former);
    case FinishesUnreaped(run) => FinishStaysBehind(s, run, job, former);
    case Drains(j, tombstone) =>
      DrainKeepsLinks(s, j, tombstone);
      hide Valid;
    case Cancels(j, run) =>
      hide QueuesMatch, QueuesMove, CleanupsAreOver, HasActive;
      if CancelOutcome(s, j, run) == WasQueued {
        UnlinkKeepsLinks(s, run);
      }
    case _ =>
      hide QueuesMatch, QueuesMove, CleanupsAreOver, HasActive;
      assert event.Dispatches? ==> RunsOf(Step(s, event), job) == RunsOf(s, job);
  }

  lemma PromoteStaysBehind(s: Registry, j: nat, job: nat, former: set<nat>)
    requires Linked(s) && BehindTheBarrier(s, job, former)
    requires forall run :: run in QueueOf(s, j) ==> run in s.runs && s.runs[run].job == j
    ensures BehindTheBarrier(Promote(s, j), job, former)
  {
    var r := Promote(s, j);
    assert RunsOf(r, job) == RunsOf(s, job);
    if j != job && QueueOf(s, j) != [] {
      assert QueueOf(s, j)[0] in QueueOf(s, j);
    }
  }

  lemma FinishStaysBehind(s: Registry, run: nat, job: nat, former: set<nat>)
    requires Valid(s) && IsPossible(s, Finishes(run)) && BehindTheBarrier(s, job, former)
    ensures BehindTheBarrier(Finish(s, run), job, former) && BehindTheBarrier(FinishUnreaped(s, run), job, former)
  {
    if run in s.runs {
      var j, rest := s.runs[run].job, Unlink(s, run);
      var owing := rest.(cleanupByJob := s.cleanupByJob[j := CleanupOf(s, j) + {run}]);
      UnlinkKeepsLinks(s, run);
      UnlinkKeepsRest(s, run);
      assert RunsOf(owing, job) == RunsOf(rest, job) && QueueOf(owing, job) == QueueOf(rest, job);
      assert Linked(owing) by { RephasingKeepsLinks(rest, owing); }
      assert BehindTheBarrier(rest, job, former) && BehindTheBarrier(owing, job, former);
      assert forall other :: other in QueueOf(s, j) ==> other in s.runs && s.runs[other].job == j && other != run;
      assert QueueOf(owing, j) == QueueOf(rest, j) == QueueOf(s, j);
      hide Valid, Linked, BehindTheBarrier, ValidBut, Unlink;
      PromoteStaysBehind(rest, j, job, former);
      PromoteStaysBehind(owing, j, job, former);
    }
  }

  /** Until it is thawed the job keeps only its former active runs and no queue ever comes back. */
  lemma {:induction false} BarrierHolds(s: Registry, events: seq<Event>, job: nat, former: set<nat>)
    requires Valid(s) && ArePossible(s, events) && BehindTheBarrier(s, job, former) && Thaws(job) !in events
    ensures BehindTheBarrier(Life(s, events), job, former)
    decreases |events|
  {
    hide Valid, Step, BehindTheBarrier;
    if events != [] {
      assert events[0] in events;
      StepKeepsValid(s, events[0]);
      StepStaysBehindTheBarrier(s, events[0], job, former);
      BarrierHolds(Step(s, events[0]), events[1..], job, former);
    }
  }

  /** The drain is over exactly when the former active runs have finished and nothing is left to clean up. */
  lemma DrainCompletesIff(s: Registry, events: seq<Event>, job: nat)
    requires Valid(s) && job in s.frozen && Thaws(job) !in events && ArePossible(BeginDrain(s, job, true), events)
    ensures var r := Life(BeginDrain(s, job, true), events);
            HasRuns(r, job) <==> (exists run :: run in ActiveRuns(s, job) && run in r.runs) || CleanupOf(r, job) != {}
  {
    var drained := BeginDrain(s, job, true);
    DrainIsLocal(s, job, true);
    DrainKeepsValid(s, job, true);
    var former, r := ActiveRuns(s, job), Life(drained, events);
    assert BehindTheBarrier(drained, job, former) by { assert RunsOf(drained, job) == former; }
    hide Life, ArePossible, BeginDrain, ActiveRuns;
    BarrierHolds(drained, events, job, former);
    LifeKeepsValid(drained, events);
    LifeKeepsJobs(drained, events, job);
    forall run | run in former && run in r.runs ensures run in RunsOf(r, job) {
      OwnRuns(drained, job, run);
      OwnRuns(r, job, run);
    }
    forall run | run in RunsOf(r, job) ensures run in former && run in r.runs {
      OwnRuns(r, job, run);
    }
    hide Valid, BehindTheBarrier;
  }

  lemma OwnRuns(s: Registry, job: nat, run: nat)
    requires Valid(s)
    ensures run in RunsOf(s, job) <==> run in s.runs && s.runs[run].job == job
  {
    hide QueuesMatch, QueuesMove, CleanupsAreOver;
  }

  lemma StepKeepsJobs(s: Registry, event: Event, run: nat)
    requires Valid(s) && run < s.born && run in Step(s, event).runs
    ensures run in s.runs && Step(s, event).runs[run].job == s.runs[run].job && s.born <= Step(s, event).born
  {
    hide QueuesMatch, QueuesMove, CleanupsAreOver, HasActive;
  }

  /** A run never changes its job. */
  lemma {:induction false} LifeKeepsJobs(s: Registry, events: seq<Event>, job: nat)
    requires Valid(s) && ArePossible(s, events)
    ensures forall run :: run in s.runs && run in Life(s, events).runs ==> Life(s, events).runs[run].job == s.runs[run].job
    ensures forall run :: run < s.born && run in Life(s, events).runs ==> run in s.runs
    ensures s.born <= Life(s, events).born
    decreases |events|
  {
    if events != [] {
      var next := Step(s, events[0]);
      StepKeepsValid(s, events[0]);
      assert s.born <= next.born;
      forall run | run < s.born && run in next.runs ensures run in s.runs && next.runs[run].job == s.runs[run].job {
        StepKeepsJobs(s, events[0], run);
      }
      hide Step;
      assert forall run :: run in s.runs ==> run < s.born;
      hide Valid;
      LifeKeepsJobs(next, events[1..], job);
    }
  }

  /** Nothing in a tombstoned job may ever write a terminal state again. */
  lemma {:induction false} TombstonesAreForever(s: Registry, events: seq<Event>, job: nat)
    requires job in s.tombstoned
    ensures var r := Life(s, events);
            job in r.tombstoned && forall run :: run in r.runs && r.runs[run].job == job ==> !ShouldPersistTerminal(r, run)
    decreases |events|
  {
    if events != [] {
      TombstonesAreForever(Step(s, events[0]), events[1..], job);
    }
  }
}
