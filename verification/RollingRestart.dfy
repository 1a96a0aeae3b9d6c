/**
  Rolling restart: each slot is replaced through a temporary surge slot.  Every
  external effect may fail; the runtime's live set is recorded after each change.
 */
module RollingRestart {
  import opened Options

  datatype Slot = Slot(id: nat, ordinal: nat)

  /** `ordinals` are the active instances in the store, `live` those in the runtime; identifiers at or above `next` are fresh. */
  datatype Fleet = Fleet(ordinals: map<nat, nat>, live: set<nat>, next: nat)

  /**
    What goes wrong with one slot, and how far that failure got.  A replacement whose guard cannot be started is `listed`
    in the runtime for a moment.
   */
  datatype Fault =
    | NoFault
    | AllocateFails
    | SpawnFails(listed: bool, retired: bool)
    | NeverReady(stopped: bool, retired: bool)
    | DrainFails(gone: bool)
    | PromoteConflicts
    | PromoteFails

  datatype Status = Completed | FailedClosed | Aborted

  /** The end of an operation and the live sets on the way. */
  datatype Outcome = Outcome(fleet: Fleet, status: Status, trace: seq<set<nat>>)

  function FaultAt(faults: seq<Fault>): Fault {
    if faults == [] then NoFault else faults[0]
  }

  function Rest(faults: seq<Fault>): seq<Fault> {
    if faults == [] then [] else faults[1..]
  }

  function Allocated(f: Fleet, surge: nat): Fleet {
    f.(ordinals := f.ordinals[f.next := surge], next := f.next + 1)
  }

  function Retired(f: Fleet, id: nat): Fleet {
    f.(ordinals := f.ordinals - {id})
  }

  function Promoted(f: Fleet, retiring: Slot, replacement: nat): Fleet {
    f.(ordinals := (f.ordinals - {retiring.id})[replacement := retiring.ordinal])
  }

  function Then(first: seq<set<nat>>, rest: Outcome): Outcome {
    rest.(trace := first + rest.trace)
  }

  function Surged(f: Fleet, surge: nat): Fleet {
    Allocated(f, surge).(live := f.live + {f.next})
  }

  function Drained(f: Fleet, slot: Slot, surge: nat): Fleet {
    Surged(f, surge).(live := f.live + {f.next} - {slot.id})
  }

  /** One slot replaced. */
  function Advanced(f: Fleet, slot: Slot, surge: nat): Fleet {
    Promoted(Drained(f, slot, surge), slot, f.next)
  }

  /** One slot that fails ends the operation. */
  function Broken(f: Fleet, slot: Slot, surge: nat, fault: Fault): Outcome
    requires !fault.NoFault?
  {
    var id, added, surged, drained := f.next, Allocated(f, surge), Surged(f, surge), Drained(f, slot, surge);
    match fault
    case AllocateFails => Outcome(f, Aborted, [])
    case SpawnFails(listed, retired) =>
      var left := if listed then surged.(live := surged.live - {id}) else added;
      Outcome(if retired then Retired(left, id) else left, FailedClosed, if listed then [surged.live, left.live] else [])
    case NeverReady(stopped, retired) =>
      var left := if stopped then surged.(live := surged.live - {id}) else surged;
      Outcome(if retired then Retired(left, id) else left, FailedClosed, [surged.live, left.live])
    case DrainFails(gone) =>
      var left := if gone then drained else surged;
      Outcome(left, FailedClosed, [surged.live, left.live])
    case PromoteConflicts => Outcome(drained, FailedClosed, [surged.live, drained.live])
    case PromoteFails => Outcome(drained, Aborted, [surged.live, drained.live])
  }

  function Roll(f: Fleet, slots: seq<Slot>, instances: nat, batch: nat, faults: seq<Fault>): Outcome
    decreases |slots|
  {
    if slots == [] then Outcome(f, Completed, [])
    else if slots[0].id !in f.live then Outcome(f, FailedClosed, [])
    else
      var surge := instances + batch;
      if !FaultAt(faults).NoFault? then Broken(f, slots[0], surge, FaultAt(faults))
      else
        Then([Surged(f, surge).live, Drained(f, slots[0], surge).live],
             Roll(Advanced(f, slots[0], surge), slots[1..], instances, batch + 1, Rest(faults)))
  }

  ghost predicate AreSlots(f: Fleet, slots: seq<Slot>) {
    && (forall i, j :: 0 <= i < j < |slots| ==> slots[i].id != slots[j].id)
    && (forall i :: 0 <= i < |slots| ==> slots[i].id in f.ordinals && f.ordinals[slots[i].id] == slots[i].ordinal)
    && (forall id :: id in f.ordinals ==> id < f.next)
    && (forall id :: id in f.live ==> id < f.next)
  }

  lemma NextSlots(f: Fleet, slots: seq<Slot>, surge: nat)
    requires slots != [] && AreSlots(f, slots)
    ensures AreSlots(Advanced(f, slots[0], surge), slots[1..])
  {
  }

  lemma NextIsFresh(f: Fleet, slots: seq<Slot>)
    requires AreSlots(f, slots)
    ensures f.next !in f.live && forall i :: 0 <= i < |slots| ==> slots[i].id != f.next
  {
    forall i | 0 <= i < |slots| ensures slots[i].id != f.next {
      assert slots[i].id in f.ordinals;
    }
  }

  ghost predicate KeepsCapacity(count: nat, o: Outcome) {
    && (forall i :: 0 <= i < |o.trace| ==> count <= |o.trace[i]| <= count + 1)
    && count <= |o.fleet.live| <= count + 1
    && (o.status.Completed? ==> |o.fleet.live| == count)
  }

  lemma LiveCounts(f: Fleet, slot: Slot, surge: nat)
    requires f.next !in f.live && slot.id in f.live
    ensures |Surged(f, surge).live| == |f.live| + 1
    ensures |Drained(f, slot, surge).live| == |Advanced(f, slot, surge).live| == |f.live|
    ensures Surged(f, surge).live - {f.next} == f.live
  {
  }

  lemma BrokenKeepsCapacity(f: Fleet, slot: Slot, surge: nat, fault: Fault)
    requires f.next !in f.live && slot.id in f.live && !fault.NoFault?
    ensures KeepsCapacity(|f.live|, Broken(f, slot, surge, fault))
  {
    LiveCounts(f, slot, surge);
    hide Surged, Drained;
  }

  /** The cases of one round. */
  lemma RollUnfolds(f: Fleet, slots: seq<Slot>, instances: nat, batch: nat, faults: seq<Fault>)
    ensures var o, surge := Roll(f, slots, instances, batch, faults), instances + batch;
            if slots == [] then o == Outcome(f, Completed, [])
            else if slots[0].id !in f.live then o == Outcome(f, FailedClosed, [])
            else if !FaultAt(faults).NoFault? then o == Broken(f, slots[0], surge, FaultAt(faults))
            else o == Then([Surged(f, surge).live, Drained(f, slots[0], surge).live],
                           Roll(Advanced(f, slots[0], surge), slots[1..], instances, batch + 1, Rest(faults)))
  {
  }

  lemma ThenKeepsCapacity(count: nat, first: set<nat>, second: set<nat>, o: Outcome)
    requires count <= |first| <= count + 1 && count <= |second| <= count + 1 && KeepsCapacity(count, o)
    ensures KeepsCapacity(count, Then([first, second], o))
  {
  }

  lemma StoppingKeepsCapacity(f: Fleet, status: Status)
    ensures KeepsCapacity(|f.live|, Outcome(f, status, []))
  {
  }

  /** At every moment, whatever fails, no fewer instances live than at the start and at most one more. */
  lemma {:induction false} CapacityIsNeverLost(f: Fleet, slots: seq<Slot>, instances: nat, batch: nat, faults: seq<Fault>)
    requires AreSlots(f, slots)
    ensures KeepsCapacity(|f.live|, Roll(f, slots, instances, batch, faults))
    decreases |slots|
  {
    hide *;
    NextIsFresh(f, slots);
    RollUnfolds(f, slots, instances, batch, faults);
    StoppingKeepsCapacity(f, Completed);
    StoppingKeepsCapacity(f, FailedClosed);
    if slots != [] && slots[0].id in f.live {
      if FaultAt(faults).NoFault? {
        NextSlots(f, slots, instances + batch);
        LiveCounts(f, slots[0], instances + batch);
        CapacityIsNeverLost(Advanced(f, slots[0], instances + batch), slots[1..], instances, batch + 1, Rest(faults));
        ThenKeepsCapacity(|f.live|, Surged(f, instances + batch).live, Drained(f, slots[0], instances + batch).live,
                          Roll(Advanced(f, slots[0], instances + batch), slots[1..], instances, batch + 1, Rest(faults)));
      } else {
        BrokenKeepsCapacity(f, slots[0], instances + batch, FaultAt(faults));
      }
    }
  }

  function Ids(slots: seq<Slot>): set<nat> {
    if slots == [] then {} else {slots[0].id} + Ids(slots[1..])
  }

  /** Fresh identifiers, numbered from `next`, at the ordinals of the slots they replace. */
  function Replacements(slots: seq<Slot>, next: nat): (r: map<nat, nat>)
    ensures forall id :: id in r ==> next <= id < next + |slots|
  {
    if slots == [] then map[] else map[next := slots[0].ordinal] + Replacements(slots[1..], next + 1)
  }

  lemma {:induction false} ReplacementAt(slots: seq<Slot>, next: nat, i: nat)
    requires i < |slots|
    ensures next + i in Replacements(slots, next) && Replacements(slots, next)[next + i] == slots[i].ordinal
    ensures slots[i].id in Ids(slots)
    decreases i
  {
    if i > 0 {
      ReplacementAt(slots[1..], next + 1, i - 1);
    }
  }

  /** Every slot's instance gone, a fresh one in its place. */
  function Replaced(f: Fleet, slots: seq<Slot>): Fleet {
    Fleet(f.ordinals - Ids(slots) + Replacements(slots, f.next),
      f.live - Ids(slots) + Replacements(slots, f.next).Keys,
      f.next + |slots|)
  }

  lemma {:induction false} IdsAreOld(f: Fleet, slots: seq<Slot>)
    requires AreSlots(f, slots)
    ensures forall id :: id in Ids(slots) ==> id < f.next
  {
    if slots != [] {
      assert AreSlots(f, slots[1..]);
      IdsAreOld(f, slots[1..]);
    }
  }

  lemma OrdinalsMerge(ordinals: map<nat, nat>, id: nat, ids: set<nat>, next: nat, ordinal: nat, rest: map<nat, nat>)
    requires next !in ids && next != id && forall r :: r in rest ==> next < r
    ensures (ordinals[next := 0] - {id})[next := ordinal] - ids + rest == ordinals - ({id} + ids) + (map[next := ordinal] + rest)
  {
  }

  lemma LiveMerge(live: set<nat>, id: nat, ids: set<nat>, next: nat, rest: set<nat>)
    requires next !in ids && next != id
    ensures live + {next} - {id} - ids + rest == live - ({id} + ids) + ({next} + rest)
  {
  }

  lemma ReplacedStep(f: Fleet, slots: seq<Slot>, surge: nat)
    requires slots != [] && AreSlots(f, slots)
    ensures Replaced(Advanced(f, slots[0], surge), slots[1..]) == Replaced(f, slots)
  {
    IdsAreOld(f, slots);
    var rest := Replacements(slots[1..], f.next + 1);
    assert slots[0].id in Ids(slots) && Ids(slots[1..]) <= Ids(slots);
    OrdinalsMerge(f.ordinals, slots[0].id, Ids(slots[1..]), f.next, slots[0].ordinal, rest);
    assert f.ordinals[f.next := surge] - {slots[0].id} == (f.ordinals - {slots[0].id})[f.next := surge];
    assert (f.ordinals[f.next := 0] - {slots[0].id})[f.next := slots[0].ordinal]
        == (f.ordinals[f.next := surge] - {slots[0].id})[f.next := slots[0].ordinal];
    LiveMerge(f.live, slots[0].id, Ids(slots[1..]), f.next, rest.Keys);
    assert Replacements(slots, f.next).Keys == {f.next} + rest.Keys;
  }

  predicate Succeeds(f: Fleet, slots: seq<Slot>, faults: seq<Fault>) {
    forall i :: 0 <= i < |slots| ==> slots[i].id in f.live && (i < |faults| ==> faults[i].NoFault?)
  }

  /**
    The operation is reported completed exactly when every slot was live and nothing failed, and then every
    slot's identifier is replaced by a fresh one at the same ordinal, nothing else having changed.
   */
  lemma {:induction false} CompletedIffAllReplaced(f: Fleet, slots: seq<Slot>, instances: nat, batch: nat, faults: seq<Fault>)
    requires AreSlots(f, slots)
    ensures var o := Roll(f, slots, instances, batch, faults);
            (o.status.Completed? <==> Succeeds(f, slots, faults)) && (o.status.Completed? ==> o.fleet == Replaced(f, slots))
    decreases |slots|
  {
    hide *;
    RollUnfolds(f, slots, instances, batch, faults);
    NothingToReplace(f, faults);
    if slots != [] {
      if slots[0].id in f.live && FaultAt(faults).NoFault? {
        var next := Advanced(f, slots[0], instances + batch);
        NextSlots(f, slots, instances + batch);
        ReplacedStep(f, slots, instances + batch);
        SucceedsStep(f, next, slots, instances + batch, faults);
        CompletedIffAllReplaced(next, slots[1..], instances, batch + 1, Rest(faults));
        ThenIsAsGood([Surged(f, instances + batch).live, Drained(f, slots[0], instances + batch).live],
                     Roll(next, slots[1..], instances, batch + 1, Rest(faults)));
      } else {
        FirstSlotDecides(f, slots, faults);
        BrokenIsNotCompleted(f, slots[0], instances + batch, FaultAt(faults));
      }
    }
  }

  lemma ThenIsAsGood(first: seq<set<nat>>, o: Outcome)
    ensures Then(first, o).status == o.status && Then(first, o).fleet == o.fleet
  {
  }

  lemma BrokenIsNotCompleted(f: Fleet, slot: Slot, surge: nat, fault: Fault)
    ensures !fault.NoFault? ==> !Broken(f, slot, surge, fault).status.Completed?
  {
  }

  lemma FirstSlotDecides(f: Fleet, slots: seq<Slot>, faults: seq<Fault>)
    requires slots != [] && (slots[0].id !in f.live || !FaultAt(faults).NoFault?)
    ensures !Succeeds(f, slots, faults)
  {
    if slots[0].id in f.live {
      assert !faults[0].NoFault?;
    }
  }

  lemma NothingToReplace(f: Fleet, faults: seq<Fault>)
    ensures Replaced(f, []) == f && Succeeds(f, [], faults)
  {
    assert f.ordinals - {} + map[] == f.ordinals;
  }

  lemma SucceedsStep(f: Fleet, next: Fleet, slots: seq<Slot>, surge: nat, faults: seq<Fault>)
    requires slots != [] && slots[0].id in f.live && FaultAt(faults).NoFault?
    requires AreSlots(f, slots) && next == Advanced(f, slots[0], surge)
    ensures Succeeds(f, slots, faults) <==> Succeeds(next, slots[1..], Rest(faults))
  {
    assert forall i :: 1 <= i < |slots| ==> slots[i] == slots[1..][i - 1];
    assert forall i :: 1 <= i < |faults| ==> faults[i] == Rest(faults)[i - 1];
    if Succeeds(f, slots, faults) {
      forall i | 0 <= i < |slots| - 1 ensures slots[1..][i].id in next.live && (i < |Rest(faults)| ==> Rest(faults)[i].NoFault?) {
        assert slots[i + 1].id in f.live;
      }
    }
    if Succeeds(next, slots[1..], Rest(faults)) {
      forall i | 0 <= i < |slots| ensures slots[i].id in f.live && (i < |faults| ==> faults[i].NoFault?) {
        if i > 0 {
          assert slots[1..][i - 1].id in next.live;
        }
      }
    }
  }

  /** An operation that stops early leaves every later slot as it was. */
  lemma {:induction false} LaterSlotsAreUntouched(f: Fleet, slots: seq<Slot>, instances: nat, batch: nat, faults: seq<Fault>)
    returns (stopped: nat)
    requires AreSlots(f, slots) && !Succeeds(f, slots, faults)
    ensures stopped < |slots|
    ensures var o := Roll(f, slots, instances, batch, faults);
            && (forall i :: 0 <= i < stopped ==> slots[i].id !in o.fleet.ordinals)
            && (forall i :: stopped <= i < |slots| ==> slots[i].id in o.fleet.ordinals && o.fleet.ordinals[slots[i].id] == slots[i].ordinal)
            && (forall i :: stopped < i < |slots| ==> (slots[i].id in o.fleet.live <==> slots[i].id in f.live))
    decreases |slots|
  {
    hide *;
    stopped := 0;
    RollUnfolds(f, slots, instances, batch, faults);
    if slots == [] {
      NothingToReplace(f, faults);
    } else if slots[0].id in f.live && FaultAt(faults).NoFault? {
      var next := Advanced(f, slots[0], instances + batch);
      NextSlots(f, slots, instances + batch);
      SucceedsStep(f, next, slots, instances + batch, faults);
      IsOldAndGone(f, slots, instances + batch);
      ShiftedSlots(f, slots, instances + batch);
      var rest := LaterSlotsAreUntouched(next, slots[1..], instances, batch + 1, Rest(faults));
      OldStaysGone(next, slots[1..], instances, batch + 1, Rest(faults), slots[0].id);
      ThenIsAsGood([Surged(f, instances + batch).live, Drained(f, slots[0], instances + batch).live],
                   Roll(next, slots[1..], instances, batch + 1, Rest(faults)));
      stopped := rest + 1;
    } else {
      BrokenLeavesSlots(f, slots, instances + batch, FaultAt(faults));
    }
  }

  lemma IsOldAndGone(f: Fleet, slots: seq<Slot>, surge: nat)
    requires slots != [] && AreSlots(f, slots)
    ensures var next := Advanced(f, slots[0], surge); slots[0].id !in next.ordinals && slots[0].id < next.next
  {
  }

  lemma ShiftedSlots(f: Fleet, slots: seq<Slot>, surge: nat)
    requires slots != [] && AreSlots(f, slots)
    ensures forall i :: 1 <= i < |slots| ==> slots[i] == slots[1..][i - 1]
    ensures forall i :: 1 <= i < |slots| ==> (slots[i].id in Advanced(f, slots[0], surge).live <==> slots[i].id in f.live)
  {
  }

  lemma BrokenLeavesSlots(f: Fleet, slots: seq<Slot>, surge: nat, fault: Fault)
    requires slots != [] && AreSlots(f, slots)
    ensures forall i :: 0 <= i < |slots| ==> slots[i].id in f.ordinals && f.ordinals[slots[i].id] == slots[i].ordinal
    ensures !fault.NoFault? ==>
      var o := Broken(f, slots[0], surge, fault);
      forall i :: 0 <= i < |slots| ==>
        slots[i].id in o.fleet.ordinals && o.fleet.ordinals[slots[i].id] == slots[i].ordinal
        && (i > 0 ==> (slots[i].id in o.fleet.live <==> slots[i].id in f.live))
  {
  }

  lemma {:induction false} OldStaysGone(f: Fleet, slots: seq<Slot>, instances: nat, batch: nat, faults: seq<Fault>, id: nat)
    requires AreSlots(f, slots) && id !in f.ordinals && id < f.next
    ensures id !in Roll(f, slots, instances, batch, faults).fleet.ordinals
    decreases |slots|
  {
    if slots != [] && slots[0].id in f.live && FaultAt(faults).NoFault? {
      NextSlots(f, slots, instances + batch);
      OldStaysGone(Advanced(f, slots[0], instances + batch), slots[1..], instances, batch + 1, Rest(faults), id);
    }
  }

  // ------------------------------------------------------------------- what a failure leaves

  /** The first slot that is not live or meets a failure. */
  function StopsAt(f: Fleet, slots: seq<Slot>, faults: seq<Fault>): nat {
    if slots == [] || slots[0].id !in f.live || !FaultAt(faults).NoFault? then 0
    else 1 + StopsAt(f, slots[1..], Rest(faults))
  }

  lemma {:induction false} StopsAtIs(f: Fleet, slots: seq<Slot>, faults: seq<Fault>)
    ensures var k := StopsAt(f, slots, faults);
            && k <= |slots| && (forall i :: 0 <= i < k ==> slots[i].id in f.live && FaultAfter(faults, i).NoFault?)
            && (k < |slots| ==> slots[k].id !in f.live || !FaultAfter(faults, k).NoFault?)
    decreases |slots|
  {
    if slots != [] && slots[0].id in f.live && FaultAt(faults).NoFault? {
      StopsAtIs(f, slots[1..], Rest(faults));
      forall i | 0 < i <= |slots| ensures FaultAfter(faults, i) == FaultAfter(Rest(faults), i - 1) {
      }
      assert forall i :: 0 < i < |slots| ==> slots[i] == slots[1..][i - 1];
    }
  }

  function FaultAfter(faults: seq<Fault>, k: nat): Fault {
    if k < |faults| then faults[k] else NoFault
  }

  /** After this fault the new instance is still listed in the store. */
  predicate KeepsReplacementListed(fault: Fault) {
    match fault
    case NoFault => false
    case AllocateFails => false
    case SpawnFails(_, retired) => !retired
    case NeverReady(_, retired) => !retired
    case _ => true
  }

  /** After this fault the new instance runs. */
  predicate KeepsReplacementLive(fault: Fault) {
    match fault
    case NoFault => false
    case AllocateFails => false
    case SpawnFails(_, _) => false
    case NeverReady(stopped, _) => !stopped
    case _ => true
  }

  /** After this fault the old instance runs no more. */
  predicate DrainsTheOld(fault: Fault) {
    match fault
    case DrainFails(gone) => gone
    case PromoteConflicts => true
    case PromoteFails => true
    case _ => false
  }

  /** How a fleet differs once replacing this slot has failed: nothing else changes. */
  ghost predicate IsLeftBehind(before: Fleet, after: Fleet, slot: Slot, surge: nat, fault: Fault) {
    && after.ordinals == (if KeepsReplacementListed(fault) then before.ordinals[before.next := surge] else before.ordinals)
    && after.live == before.live + (if KeepsReplacementLive(fault) then {before.next} else {}) - (if DrainsTheOld(fault) then {slot.id} else {})
  }

  lemma BrokenLeaves(f: Fleet, slots: seq<Slot>, surge: nat, fault: Fault)
    requires slots != [] && AreSlots(f, slots) && slots[0].id in f.live && !fault.NoFault?
    ensures IsLeftBehind(f, Broken(f, slots[0], surge, fault).fleet, slots[0], surge, fault)
  {
    assert f.next !in f.ordinals && f.next !in f.live;
    assert f.ordinals[f.next := surge] - {f.next} == f.ordinals;
  }

  lemma StopsLater(f: Fleet, next: Fleet, slots: seq<Slot>, faults: seq<Fault>)
    requires forall i :: 0 <= i < |slots| ==> (slots[i].id in next.live <==> slots[i].id in f.live)
    ensures StopsAt(next, slots, faults) == StopsAt(f, slots, faults)
  {
    if slots != [] {
      StopsLater(f, next, slots[1..], Rest(faults));
    }
  }

  lemma PrefixIsSlots(f: Fleet, slots: seq<Slot>, k: nat)
    requires AreSlots(f, slots) && k <= |slots|
    ensures AreSlots(f, slots[..k])
  {
  }

  /**
    Wherever an operation stops: all slots before are replaced, every other instance is as it was, and of the slot in
    question the old instance keeps its place and the new one is left at a surge ordinal, or nowhere, as the fault says.
   */
  lemma {:induction false} FailureLeavesExactly(f: Fleet, slots: seq<Slot>, instances: nat, batch: nat, faults: seq<Fault>)
    requires AreSlots(f, slots) && StopsAt(f, slots, faults) < |slots|
    ensures var k, o := StopsAt(f, slots, faults), Roll(f, slots, instances, batch, faults);
            var fault := if slots[k].id in f.live then FaultAfter(faults, k) else NoFault;
            IsLeftBehind(Replaced(f, slots[..k]), o.fleet, slots[k], instances + batch + k, fault)
    decreases |slots|
  {
    hide *;
    var surge := instances + batch;
    RollUnfolds(f, slots, instances, batch, faults);
    StopsAtUnfolds(f, slots, faults);
    NothingToReplace(f, faults);
    assert slots[..0] == [];
    if slots[0].id in f.live && FaultAt(faults).NoFault? {
      var next := Advanced(f, slots[0], surge);
      NextSlots(f, slots, surge);
      ShiftedSlots(f, slots, surge);
      StopsLater(f, next, slots[1..], Rest(faults));
      FailureLeavesExactly(next, slots[1..], instances, batch + 1, Rest(faults));
      var k := StopsAt(f, slots, faults);
      FaultShifts(faults, k);
      PrefixIsSlots(f, slots, k);
      ReplacedStep(f, slots[..k], surge);
      assert slots[..k][1..] == slots[1..][..k - 1];
      ThenIsAsGood([Surged(f, surge).live, Drained(f, slots[0], surge).live], Roll(next, slots[1..], instances, batch + 1, Rest(faults)));
    } else if slots[0].id in f.live {
      FaultIsFirst(faults);
      BrokenLeaves(f, slots, surge, FaultAt(faults));
    } else {
      NothingIsLeft(f, slots[0], surge);
    }
  }

  lemma StopsAtUnfolds(f: Fleet, slots: seq<Slot>, faults: seq<Fault>)
    ensures StopsAt(f, slots, faults)
         == if slots == [] || slots[0].id !in f.live || !FaultAt(faults).NoFault? then 0 else 1 + StopsAt(f, slots[1..], Rest(faults))
  {
  }

  lemma FaultShifts(faults: seq<Fault>, k: nat)
    requires k > 0
    ensures FaultAfter(faults, k) == FaultAfter(Rest(faults), k - 1)
  {
  }

  lemma FaultIsFirst(faults: seq<Fault>)
    ensures FaultAfter(faults, 0) == FaultAt(faults)
  {
  }

  lemma NothingIsLeft(f: Fleet, slot: Slot, surge: nat)
    ensures IsLeftBehind(f, f, slot, surge, NoFault)
  {
  }

  // ------------------------------------------------------------------- the loop

  class Operation {
    var fleet: Fleet
    ghost var trace: seq<set<nat>>

    constructor (fleet: Fleet)
      ensures this.fleet == fleet && trace == []
    {
      this.fleet, trace := fleet, [];
    }

    /** A change of the runtime's live set. */
    method SetLive(live: set<nat>)
      modifies this
      ensures fleet == old(fleet).(live := live) && trace == old(trace) + [live]
    {
      fleet := fleet.(live := live);
      trace := trace + [live];
    }

    /** One slot through surge, drain and promotion; anything but success ends the operation. */
    method ReplaceSlot(slot: Slot, surge: nat, fault: Fault) returns (ended: Option<Status>)
      modifies this
      ensures fault.NoFault? ==>
        ended.None? && fleet == Advanced(old(fleet), slot, surge)
        && trace == old(trace) + [Surged(old(fleet), surge).live, Drained(old(fleet), slot, surge).live]
      ensures !fault.NoFault? ==>
        ended.Some? && Outcome(fleet, ended.value, trace) == Then(old(trace), Broken(old(fleet), slot, surge, fault))
    {
      ghost var before := trace;
      assert before + [] == before;
      if fault.AllocateFails? {
        return Some(Aborted);
      }
      var id := fleet.next;
      fleet := Allocated(fleet, surge);
      if fault.SpawnFails? {
        if fault.listed {
          SetLive(fleet.live + {id});
          SetLive(fleet.live - {id});
        }
        if fault.retired {
          fleet := Retired(fleet, id);
        }
        return Some(FailedClosed);
      }
      SetLive(fleet.live + {id});
      if fault.NeverReady? {
        SetLive(if fault.stopped then fleet.live - {id} else fleet.live);
        if fault.retired {
          fleet := Retired(fleet, id);
        }
        return Some(FailedClosed);
      }
      if fault.DrainFails? && !fault.gone {
        SetLive(fleet.live);
        return Some(FailedClosed);
      }
      SetLive(fleet.live - {slot.id});
      if fault.DrainFails? || fault.PromoteConflicts? {
        return Some(FailedClosed);
      }
      if fault.PromoteFails? {
        return Some(Aborted);
      }
      fleet := Promoted(fleet, slot, id);
      return None;
    }

    method RollingRestartProcess(slots: seq<Slot>, instances: nat, faults: seq<Fault>) returns (status: Status)
      requires trace == []
      modifies this
      ensures Outcome(fleet, status, trace) == Roll(old(fleet), slots, instances, 0, faults)
    {
      hide *;
      var left := faults;
      WholeRoll(fleet, slots, instances, faults);
      for batch := 0 to |slots|
        invariant Then(trace, Roll(fleet, slots[batch..], instances, batch, left)) == Roll(old(fleet), slots, instances, 0, faults)
      {
        RollStep(trace, fleet, slots, instances, batch, left);
        if slots[batch].id !in fleet.live {
          return FailedClosed;
        }
        var fault := FaultAt(left);
        left := Rest(left);
        var ended := ReplaceSlot(slots[batch], instances + batch, fault);
        if ended.Some? {
          return ended.value;
        }
      }
      NothingLeft(trace, fleet, slots, instances, left);
      return Completed;
    }
  }

  lemma WholeRoll(f: Fleet, slots: seq<Slot>, instances: nat, faults: seq<Fault>)
    ensures Then([], Roll(f, slots[0..], instances, 0, faults)) == Roll(f, slots, instances, 0, faults)
  {
    assert slots[0..] == slots;
    assert [] + Roll(f, slots, instances, 0, faults).trace == Roll(f, slots, instances, 0, faults).trace;
  }

  /** One round of the loop, in terms of what is recorded so far and what is left. */
  lemma RollStep(trace: seq<set<nat>>, f: Fleet, slots: seq<Slot>, instances: nat, batch: nat, faults: seq<Fault>)
    requires batch < |slots|
    ensures var slot, surge := slots[batch], instances + batch;
            Then(trace, Roll(f, slots[batch..], instances, batch, faults))
            == if slot.id !in f.live then Outcome(f, FailedClosed, trace)
               else if !FaultAt(faults).NoFault? then Then(trace, Broken(f, slot, surge, FaultAt(faults)))
               else Then(trace + [Surged(f, surge).live, Drained(f, slot, surge).live],
                         Roll(Advanced(f, slot, surge), slots[batch + 1..], instances, batch + 1, Rest(faults)))
  {
    var slot, surge := slots[batch], instances + batch;
    var step := [Surged(f, surge).live, Drained(f, slot, surge).live];
    var rest := Roll(Advanced(f, slot, surge), slots[batch + 1..], instances, batch + 1, Rest(faults));
    RollUnfolds(f, slots[batch..], instances, batch, faults);
    hide Roll, Advanced, Surged, Drained, Broken;
    assert slots[batch..][1..] == slots[batch + 1..];
    assert trace + (step + rest.trace) == (trace + step) + rest.trace;
    assert trace + [] == trace;
  }

  lemma NothingLeft(trace: seq<set<nat>>, f: Fleet, slots: seq<Slot>, instances: nat, faults: seq<Fault>)
    ensures Then(trace, Roll(f, slots[|slots|..], instances, |slots|, faults)) == Outcome(f, Completed, trace)
  {
    assert slots[|slots|..] == [] && trace + [] == trace;
  }
}
