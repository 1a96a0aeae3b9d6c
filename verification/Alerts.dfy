/** Alert episodes under their dedupe keys, and leased notification deliveries. */
module Alerts {
  import opened Options

  // ------------------------------------------------------------------- episodes

  datatype AlertState = Active | Acknowledged | Resolved

  /** What an episode is about; at most one unresolved episode for each. */
  datatype Key = Key(rule: nat, source: string, cause: string)

  datatype Episode = Episode(key: Key, state: AlertState, openedAt: int)

  /** `used` remembers every identifier ever given to an episode. */
  datatype Book = Book(keys: map<Key, nat>, alerts: map<nat, Episode>, used: set<nat>)

  datatype Operation =
    | Open(id: nat, key: Key, at: int)
    | Acknowledge(id: nat)
    | Resolve(id: nat)
    | Forget(ids: set<nat>)

  predicate IsUnresolved(b: Book, id: nat) {
    id in b.alerts && b.alerts[id].state != Resolved
  }

  /** The key decides: only the first opener inserts the episode. */
  function Opened(b: Book, id: nat, key: Key, at: int): Book {
    if key in b.keys then b
    else b.(keys := b.keys[key := id], alerts := b.alerts[id := Episode(key, Active, at)], used := b.used + {id})
  }

  function WithoutKeysOf(b: Book, id: nat): map<Key, nat> {
    map key | key in b.keys && b.keys[key] != id :: b.keys[key]
  }

  function ResolvedBook(b: Book, id: nat): Book {
    if id !in b.alerts then b
    else b.(alerts := b.alerts[id := b.alerts[id].(state := Resolved)], keys := WithoutKeysOf(b, id))
  }

  /** What an acknowledgement writes back from an episode it read. */
  function AcknowledgeWrite(b: Book, id: nat, read: Episode): Book {
    if id !in b.alerts then b else b.(alerts := b.alerts[id := read.(state := Acknowledged)])
  }

  function AcknowledgedBook(b: Book, id: nat): Book {
    if !IsUnresolved(b, id) then b else AcknowledgeWrite(b, id, b.alerts[id])
  }

  /** Retention removes resolved episodes only, then keys without an episode. */
  function Forgotten(b: Book, ids: set<nat>): Book {
    var kept := map id | id in b.alerts && !(id in ids && b.alerts[id].state == Resolved) :: b.alerts[id];
    b.(keys := map key | key in b.keys && b.keys[key] in kept :: b.keys[key], alerts := kept)
  }

  function Apply(b: Book, op: Operation): Book {
    match op
    case Open(id, key, at) => Opened(b, id, key, at)
    case Acknowledge(id) => AcknowledgedBook(b, id)
    case Resolve(id) => ResolvedBook(b, id)
    case Forget(ids) => Forgotten(b, ids)
  }

  function ApplyAll(b: Book, ops: seq<Operation>): Book
    decreases |ops|
  {
    if ops == [] then b else ApplyAll(Apply(b, ops[0]), ops[1..])
  }

  /** Episode identifiers are fresh. */
  predicate AreFresh(b: Book, ops: seq<Operation>)
    decreases |ops|
  {
    ops == [] || ((ops[0].Open? ==> ops[0].id !in b.used) && AreFresh(Apply(b, ops[0]), ops[1..]))
  }

  /** A history grows at its end: the next operation happens on the tables the others have left, with a fresh identifier there. */
  lemma {:induction false} ApplyAllSnoc(b: Book, ops: seq<Operation>, op: Operation)
    ensures ApplyAll(b, ops + [op]) == Apply(ApplyAll(b, ops), op)
    ensures AreFresh(b, ops + [op]) <==> AreFresh(b, ops) && (op.Open? ==> op.id !in ApplyAll(b, ops).used)
    decreases |ops|
  {
    if ops == [] {
      assert [] + [op] == [op] && [op][1..] == [];
    } else {
      assert (ops + [op])[1..] == ops[1..] + [op];
      ApplyAllSnoc(Apply(b, ops[0]), ops[1..], op);
    }
  }

  /** Keys and unresolved episodes correspond one to one. */
  ghost predicate KeysMatch(b: Book) {
    && (forall id :: id in b.alerts ==> id in b.used)
    && (forall key :: key in b.keys ==> IsUnresolved(b, b.keys[key]) && b.alerts[b.keys[key]].key == key)
    && (forall id :: IsUnresolved(b, id) ==> b.alerts[id].key in b.keys && b.keys[b.alerts[id].key] == id)
  }

  lemma ApplyKeepsKeys(b: Book, op: Operation)
    requires KeysMatch(b) && (op.Open? ==> op.id !in b.used)
    ensures KeysMatch(Apply(b, op))
  {
    var r := Apply(b, op);
    match op
    case Open(id, key, at) =>
      if key !in b.keys {
        forall other | IsUnresolved(r, other) ensures r.alerts[other].key in r.keys && r.keys[r.alerts[other].key] == other {
          assert other != id ==> IsUnresolved(b, other);
        }
      }
    case Acknowledge(id) => assert forall other :: IsUnresolved(r, other) <==> IsUnresolved(b, other);
    case Resolve(id) => assert forall other :: IsUnresolved(r, other) <==> other != id && IsUnresolved(b, other);
    case Forget(ids) => assert forall other :: IsUnresolved(r, other) <==> IsUnresolved(b, other);
  }

  /** Whatever is first, acknowledged, resolved or forgotten, one at a time: one key for each unresolved episode. */
  lemma {:induction false} KeysAlwaysMatch(b: Book, ops: seq<Operation>)
    requires KeysMatch(b) && AreFresh(b, ops)
    ensures KeysMatch(ApplyAll(b, ops))
    decreases |ops|
  {
    hide KeysMatch, Apply;
    if ops != [] {
      ApplyKeepsKeys(b, ops[0]);
      KeysAlwaysMatch(Apply(b, ops[0]), ops[1..]);
    }
  }

  /** At most one unresolved episode for a rule, source and cause. */
  lemma NoDuplicateEpisodes(b: Book, x: nat, y: nat)
    requires KeysMatch(b) && IsUnresolved(b, x) && IsUnresolved(b, y) && b.alerts[x].key == b.alerts[y].key
    ensures x == y
  {
    assert b.keys[b.alerts[x].key] == x && b.keys[b.alerts[y].key] == y;
  }

  /**
    An acknowledgement reads and writes in separate statements.  With anything in between, the write keeps keys and
    episodes in step exactly when the episode is gone or still unresolved under its key when it lands.
   */
  lemma LateAcknowledgementIff(before: Book, between: seq<Operation>, id: nat)
    requires KeysMatch(before) && AreFresh(before, between) && IsUnresolved(before, id)
    ensures var b := ApplyAll(before, between);
            KeysMatch(AcknowledgeWrite(b, id, before.alerts[id])) <==> (id in b.alerts ==> IsUnresolved(b, id))
  {
    var b := ApplyAll(before, between);
    KeysAlwaysMatch(before, between);
    KeyNeverChanges(before, between, id);
    hide ApplyAll, AreFresh;
    LateWriteIff(b, id, before.alerts[id]);
  }

  lemma LateWriteIff(b: Book, id: nat, read: Episode)
    requires KeysMatch(b) && (id in b.alerts ==> read.key == b.alerts[id].key)
    ensures KeysMatch(AcknowledgeWrite(b, id, read)) <==> (id in b.alerts ==> IsUnresolved(b, id))
  {
    var r := AcknowledgeWrite(b, id, read);
    if id in b.alerts {
      assert IsUnresolved(r, id);
      assert forall other :: other != id ==> (IsUnresolved(r, other) <==> IsUnresolved(b, other));
      if !IsUnresolved(b, id) {
        assert forall key :: key in b.keys ==> b.keys[key] != id;
        assert !KeysMatch(r);
      } else {
        assert forall other :: IsUnresolved(r, other) ==> r.alerts[other].key == b.alerts[other].key;
      }
    }
  }

  lemma {:induction false} KeyNeverChanges(b: Book, ops: seq<Operation>, id: nat)
    requires AreFresh(b, ops) && id in b.used && KeysMatch(b)
    ensures id in ApplyAll(b, ops).alerts ==> id in b.alerts && ApplyAll(b, ops).alerts[id].key == b.alerts[id].key
    decreases |ops|
  {
    if ops != [] {
      var next := Apply(b, ops[0]);
      ApplyKeepsKeys(b, ops[0]);
      assert id in next.used && (id in next.alerts ==> id in b.alerts && next.alerts[id].key == b.alerts[id].key);
      hide KeysMatch, Apply;
      KeyNeverChanges(next, ops[1..], id);
    }
  }

  const SOME_KEY := Key(0, "s", "c")

  /** An acknowledgement that lands after the resolution revives the episode without a key, and its key can be first twice. */
  lemma LateAcknowledgementDuplicates()
    ensures var first := Opened(Book(map[], map[], {}), 0, SOME_KEY, 0);
            var revived := AcknowledgeWrite(ResolvedBook(first, 0), 0, first.alerts[0]);
            var twice := Opened(revived, 1, SOME_KEY, 1);
            KeysMatch(first) && !KeysMatch(revived)
            && IsUnresolved(twice, 0) && IsUnresolved(twice, 1) && twice.alerts[0].key == twice.alerts[1].key
  {
    var first := Opened(Book(map[], map[], {}), 0, SOME_KEY, 0);
    assert first == Book(map[SOME_KEY := 0], map[0 := Episode(SOME_KEY, Active, 0)], {} + {0});
    var resolved := ResolvedBook(first, 0);
    assert WithoutKeysOf(first, 0) == map[];
    var revived := AcknowledgeWrite(resolved, 0, first.alerts[0]);
    assert IsUnresolved(revived, 0) && revived.alerts[0].key !in revived.keys;
  }

  // ------------------------------------------------------------------- deliveries

  /** A candidate row, the claims handed out and not finished yet, and the finishes that found the row, by attempt number. */
  datatype Delivery = Delivery(
    row: Option<Row>,
    claims: nat,
    outstanding: set<nat>,
    finished: seq<nat>)

  datatype Row = Row(attempts: nat, lease: Option<int>)

  predicate IsFree(row: Row, now: int) {
    row.lease.None? || row.lease.value <= now
  }

  const MAX_ATTEMPTS := 3

  /** The claimed copy carries its attempt number in eight bits. */
  function Copied(attempts: nat): nat {
    attempts % 256
  }

  function Backoff(attempt: nat): nat {
    if attempt == 0 then 1 else 5 * Backoff(attempt - 1)
  }

  predicate IsClaimable(d: Delivery, now: int) {
    d.row.Some? && IsFree(d.row.value, now)
  }

  /** A claim leases the row and counts the attempt. */
  function Claim(d: Delivery, now: int, until: int): Delivery {
    if !IsClaimable(d, now) then d
    else
      var attempt := d.row.value.attempts + 1;
      d.(row := Some(Row(attempt, Some(until))), claims := d.claims + 1, outstanding := d.outstanding + {attempt})
  }

  /** A failed early attempt is given back with a growing delay; anything else ends the candidate. */
  function Finish(d: Delivery, attempt: nat, failed: bool, at: int): Delivery {
    if attempt !in d.outstanding then d
    else
      var row := if d.row.None? then None
                 else if failed && Copied(attempt) < MAX_ATTEMPTS then Some(d.row.value.(lease := Some(at + Backoff(Copied(attempt)))))
                 else None;
      d.(row := row, outstanding := d.outstanding - {attempt},
      finished := if d.row.Some? then d.finished + [attempt] else d.finished)
  }

  datatype DeliveryEvent = Claims(now: int, until: int) | Finishes(attempt: nat, failed: bool, at: int)

  function Deliver(d: Delivery, event: DeliveryEvent): Delivery {
    match event
    case Claims(now, until) => Claim(d, now, until)
    case Finishes(attempt, failed, at) => Finish(d, attempt, failed, at)
  }

  function DeliverAll(d: Delivery, events: seq<DeliveryEvent>): Delivery
    decreases |events|
  {
    if events == [] then d else DeliverAll(Deliver(d, events[0]), events[1..])
  }

  const ENQUEUED := Delivery(Some(Row(0, None)), 0, {}, [])

  /** A finish that takes effect: its claim was handed out and not finished yet, and the row is still there - whoever holds it now. */
  predicate TakesEffect(d: Delivery, event: DeliveryEvent) {
    event.Finishes? && event.attempt in d.outstanding && d.row.Some?
  }

  /** The last finish among these events that took effect. */
  function LastFinish(d: Delivery, events: seq<DeliveryEvent>): Option<DeliveryEvent>
    decreases |events|
  {
    if events == [] then None
    else
      var later := LastFinish(Deliver(d, events[0]), events[1..]);
      if later.Some? then later else if TakesEffect(d, events[0]) then Some(events[0]) else None
  }

  /** A finish gives the row back for another attempt instead of deleting it. */
  predicate GivesBack(event: DeliveryEvent) {
    event.Finishes? && event.failed && Copied(event.attempt) < MAX_ATTEMPTS
  }

  lemma GoneStays(d: Delivery, events: seq<DeliveryEvent>)
    requires d.row.None?
    ensures DeliverAll(d, events).row.None? && LastFinish(d, events).None?
    decreases |events|
  {
    if events != [] {
      GoneStays(Deliver(d, events[0]), events[1..]);
    }
  }

  lemma StepCases(d: Delivery, event: DeliveryEvent)
    requires d.row.Some? && Deliver(d, event).claims == d.claims
    ensures var r := Deliver(d, event);
            && (TakesEffect(d, event) && !GivesBack(event) ==> r.row.None?)
            && (TakesEffect(d, event) && GivesBack(event) ==>
                  r.row == Some(d.row.value.(lease := Some(event.at + Backoff(Copied(event.attempt))))))
            && (!TakesEffect(d, event) ==> r.row == d.row)
  {
    hide Backoff, Copied;
  }

  lemma {:induction false} ClaimsOnlyGrow(d: Delivery, events: seq<DeliveryEvent>)
    ensures d.claims <= DeliverAll(d, events).claims
    decreases |events|
  {
    if events != [] {
      assert d.claims <= Deliver(d, events[0]).claims by { hide Backoff, Copied; }
      hide Deliver;
      ClaimsOnlyGrow(Deliver(d, events[0]), events[1..]);
    }
  }

  /**
    Exactly when a leased candidate can be claimed again, with any finishes in between and no other claim: at the end of
    the lease if no finish took effect; otherwise it is the last such finish alone that decides, even a late one of an
    earlier claim - if it was an early failure, its retry delay has replaced the lease of the present holder, and if
    not, the candidate is gone.
   */
  lemma {:induction false} ClaimableIff(d: Delivery, events: seq<DeliveryEvent>, until: int, now: int)
    requires d.row.Some? && d.row.value.lease == Some(until)
    requires DeliverAll(d, events).claims == d.claims
    ensures IsClaimable(DeliverAll(d, events), now)
       <==> match LastFinish(d, events)
            case None => until <= now
            case Some(finish) => GivesBack(finish) && finish.at + Backoff(Copied(finish.attempt)) <= now
    ensures DeliverAll(d, events).row.None? <==> LastFinish(d, events).Some? && !GivesBack(LastFinish(d, events).value)
    decreases |events|
  {
    if events != [] {
      var next := Deliver(d, events[0]);
      ClaimsOnlyGrow(next, events[1..]);
      assert d.claims <= next.claims by { hide Backoff, Copied; }
      StepCases(d, events[0]);
      hide Deliver, Backoff, Copied, MAX_ATTEMPTS;
      if next.row.None? {
        GoneStays(next, events[1..]);
      } else if TakesEffect(d, events[0]) {
        ClaimableIff(next, events[1..], events[0].at + Backoff(Copied(events[0].attempt)), now);
      } else {
        ClaimableIff(next, events[1..], until, now);
      }
    }
  }

  /** A second claimer holds the candidate until 120 when the first claimer's failure arrives: a third one claims it at 66. */
  lemma LateFinishFreesTheHolder()
    ensures var held := DeliverAll(ENQUEUED, [Claims(0, 60), Claims(60, 120)]);
            var freed := Deliver(held, Finishes(1, true, 61));
            && held.row == Some(Row(2, Some(120))) && !IsClaimable(held, 66) && IsClaimable(freed, 66) && 2 in freed.outstanding
  {
    var one := Deliver(ENQUEUED, Claims(0, 60));
    var two := Deliver(one, Claims(60, 120));
    assert [Claims(0, 60), Claims(60, 120)][1..] == [Claims(60, 120)] && [Claims(60, 120)][1..] == [];
    assert DeliverAll(ENQUEUED, [Claims(0, 60), Claims(60, 120)]) == DeliverAll(one, [Claims(60, 120)]) == DeliverAll(two, []) == two;
    assert Backoff(1) == 5 * Backoff(0);
  }

  ghost predicate AttemptsAreCounted(d: Delivery) {
    && (d.row.Some? ==> d.row.value.attempts == d.claims)
    && (forall a :: a in d.outstanding ==> 1 <= a <= d.claims && a !in d.finished)
    && (forall i :: 0 <= i < |d.finished| ==> 1 <= d.finished[i] <= d.claims)
    && (forall i, j :: 0 <= i < j < |d.finished| ==> d.finished[i] != d.finished[j])
    && (d.row.Some? ==> forall i :: 0 <= i < |d.finished| ==> Copied(d.finished[i]) < MAX_ATTEMPTS)
    && (d.row.None? && |d.finished| > 0 ==> forall i :: 0 <= i < |d.finished| - 1 ==> Copied(d.finished[i]) < MAX_ATTEMPTS)
  }

  lemma DeliverKeepsCount(d: Delivery, event: DeliveryEvent)
    requires AttemptsAreCounted(d)
    ensures AttemptsAreCounted(Deliver(d, event)) && d.claims <= Deliver(d, event).claims
  {
    hide Copied, Backoff;
  }

  lemma {:induction false} DeliverAllKeepsCount(d: Delivery, events: seq<DeliveryEvent>)
    requires AttemptsAreCounted(d)
    ensures AttemptsAreCounted(DeliverAll(d, events))
    decreases |events|
  {
    hide AttemptsAreCounted, Deliver;
    if events != [] {
      DeliverKeepsCount(d, events[0]);
      DeliverAllKeepsCount(Deliver(d, events[0]), events[1..]);
    }
  }

  lemma {:induction false} DistinctFit(numbers: seq<nat>, all: set<nat>)
    requires forall i :: 0 <= i < |numbers| ==> numbers[i] in all
    requires forall i, j :: 0 <= i < j < |numbers| ==> numbers[i] != numbers[j]
    ensures |numbers| <= |all|
    decreases |numbers|
  {
    if numbers != [] {
      DistinctFit(numbers[..|numbers| - 1], all - {numbers[|numbers| - 1]});
    }
  }

  /** How many of these finishes take effect. */
  function Effects(d: Delivery, events: seq<DeliveryEvent>): nat
    decreases |events|
  {
    if events == [] then 0 else (if TakesEffect(d, events[0]) then 1 else 0) + Effects(Deliver(d, events[0]), events[1..])
  }

  lemma {:induction false} EffectsAreRecorded(d: Delivery, events: seq<DeliveryEvent>)
    ensures |DeliverAll(d, events).finished| == |d.finished| + Effects(d, events)
    decreases |events|
  {
    if events != [] {
      EffectsAreRecorded(Deliver(d, events[0]), events[1..]);
    }
  }

  /** With each claim finished at most once and fewer than 256 claims, at most three finishes find the candidate. */
  lemma FinishedAtMostThreeTimes(events: seq<DeliveryEvent>)
    requires DeliverAll(ENQUEUED, events).claims < 256
    ensures Effects(ENQUEUED, events) <= MAX_ATTEMPTS
  {
    var d := DeliverAll(ENQUEUED, events);
    DeliverAllKeepsCount(ENQUEUED, events);
    hide DeliverAll;
    var front := if d.finished == [] then [] else d.finished[..|d.finished| - 1];
    forall i | 0 <= i < |front| ensures front[i] in {1, 2} {
      assert Copied(d.finished[i]) == d.finished[i];
    }
    DistinctFit(front, {1, 2});
    EffectsAreRecorded(ENQUEUED, events);
  }

  /** The failure of the 256th claim is taken for that of a zeroth one and retried after a second: the attempt number handed out has eight bits. */
  lemma AttemptsWrapAround(d: Delivery, at: int)
    requires d.row.Some? && 256 in d.outstanding
    ensures IsClaimable(Finish(d, 256, true, at), at + 1)
  {
  }

  /** A failed first attempt is claimable again five seconds later, a failed second one twenty-five seconds later, and neither sooner. */
  lemma RetryDelays(d: Delivery, at: int, now: int)
    requires d.row.Some?
    ensures 1 in d.outstanding ==> (IsClaimable(Finish(d, 1, true, at), now) <==> at + 5 <= now)
    ensures 2 in d.outstanding ==> (IsClaimable(Finish(d, 2, true, at), now) <==> at + 25 <= now)
  {
    assert Backoff(1) == 5 * Backoff(0) && Backoff(2) == 5 * Backoff(1);
  }

  // ------------------------------------------------------------------- claims on the table

  function FreeRows(rows: seq<Row>, now: int): nat {
    if rows == [] then 0
    else FreeRows(rows[..|rows| - 1], now) + (if IsFree(rows[|rows| - 1], now) then 1 else 0)
  }

  /** A row is leased exactly when it is free and fewer than `limit` earlier ones are; no other row changes. */
  function ClaimedRow(rows: seq<Row>, now: int, until: int, limit: nat, i: nat): Row
    requires i < |rows|
  {
    if IsFree(rows[i], now) && FreeRows(rows[..i], now) < limit then Row(rows[i].attempts + 1, Some(until)) else rows[i]
  }

  lemma {:induction false} FreeRowsGrow(rows: seq<Row>, now: int, i: nat, j: nat)
    requires i <= j <= |rows|
    ensures FreeRows(rows[..i], now) <= FreeRows(rows[..j], now)
    decreases j
  {
    if i < j {
      assert rows[..j][..j - 1] == rows[..j - 1];
      FreeRowsGrow(rows, now, i, j - 1);
    }
  }

  /** All rows after one claim. */
  function ClaimedRows(rows: seq<Row>, now: int, until: int, limit: nat): (claimed: seq<Row>)
    ensures |claimed| == |rows|
  {
    seq(|rows|, i requires 0 <= i < |rows| => ClaimedRow(rows, now, until, limit, i))
  }

  /** Two claimers never share a row: what the first leased, the second leaves alone until that lease has run out. */
  lemma ClaimsAreExclusive(rows: seq<Row>, now: int, until: int, limit: nat, later: int, laterUntil: int, laterLimit: nat, i: nat)
    requires i < |rows| && later < until
    ensures var first := ClaimedRows(rows, now, until, limit);
            var second := ClaimedRows(first, later, laterUntil, laterLimit);
            first[i] != rows[i] ==> second[i] == first[i]
  {
  }

  lemma {:induction false} ClaimedRowsBelow(rows: seq<Row>, now: int, until: int, limit: nat)
    requires rows != []
    ensures ClaimedRows(rows, now, until, limit)[..|rows| - 1] == ClaimedRows(rows[..|rows| - 1], now, until, limit)
  {
    var front := rows[..|rows| - 1];
    forall i | 0 <= i < |front| ensures ClaimedRow(rows, now, until, limit, i) == ClaimedRow(front, now, until, limit, i) {
      assert front[..i] == rows[..i];
    }
  }

  /** A claim takes as many free rows as there are, up to the limit: exactly those stop being free. */
  lemma {:induction false} ClaimTakesUpToLimit(rows: seq<Row>, now: int, until: int, limit: nat)
    requires now < until
    ensures var free := FreeRows(rows, now);
            FreeRows(ClaimedRows(rows, now, until, limit), now) == if free <= limit then 0 else free - limit
    decreases |rows|
  {
    if rows != [] {
      var front := rows[..|rows| - 1];
      ClaimTakesUpToLimit(front, now, until, limit);
      ClaimedRowsBelow(rows, now, until, limit);
    }
  }

  class Candidates {
    var rows: seq<Row>

    constructor (rows: seq<Row>)
      ensures this.rows == rows
    {
      this.rows := rows;
    }

    /** Select in order, then update each row under the same condition. */
    method ClaimDeliveryCandidates(now: int, until: int, limit: nat) returns (claimed: nat)
      modifies this
      ensures claimed <= limit
      ensures rows == ClaimedRows(old(rows), now, until, limit)
    {
      claimed := 0;
      var i := 0;
      ghost var all := rows;
      while i < |rows| && claimed < limit
        invariant 0 <= i <= |rows| == |all| && claimed == FreeRows(all[..i], now) <= limit
        invariant forall j :: 0 <= j < |rows| ==> rows[j] == if j < i then ClaimedRow(all, now, until, limit, j) else all[j]
      {
        assert all[..i + 1][..i] == all[..i];
        if IsFree(rows[i], now) {
          rows := rows[i := Row(rows[i].attempts + 1, Some(until))];
          claimed := claimed + 1;
        }
        i := i + 1;
      }
      forall j | i <= j < |all| ensures all[j] == ClaimedRow(all, now, until, limit, j) {
        FreeRowsGrow(all, now, i, j);
      }
    }
  }

  // ------------------------------------------------------------------- the tables of episodes and keys

  class AlertTables {
    var keys: map<Key, nat>
    var alerts: map<nat, Episode>
    ghost var used: set<nat>

    constructor ()
      ensures Value() == Book(map[], map[], {})
    {
      keys, alerts, used := map[], map[], {};
    }

    ghost function Value(): Book
      reads this
    {
      Book(keys, alerts, used)
    }

    method UpsertAlertEpisode(id: nat, key: Key, at: int) returns (inserted: bool)
      modifies this
      ensures Value() == Opened(old(Value()), id, key, at) && inserted == (key !in old(keys))
    {
      inserted := key !in keys;
      if inserted {
        keys, alerts, used := keys[key := id], alerts[id := Episode(key, Active, at)], used + {id};
      }
    }

    method ResolveAlertEpisode(id: nat) returns (updated: bool)
      modifies this
      ensures Value() == ResolvedBook(old(Value()), id) && updated == (id in old(alerts))
    {
      updated := id in alerts;
      if updated {
        alerts := alerts[id := alerts[id].(state := Resolved)];
        keys := map key | key in keys && keys[key] != id :: keys[key];
      }
    }

    method AcknowledgeAlert(id: nat) returns (acknowledged: bool)
      modifies this
      ensures Value() == AcknowledgedBook(old(Value()), id) && acknowledged == IsUnresolved(old(Value()), id)
    {
      if id !in alerts || alerts[id].state == Resolved {
        return false;
      }
      alerts := alerts[id := alerts[id].(state := Acknowledged)];
      return true;
    }

    method ForgetResolved(ids: set<nat>)
      modifies this
      ensures Value() == Forgotten(old(Value()), ids)
    {
      alerts := map id | id in alerts && !(id in ids && alerts[id].state == Resolved) :: alerts[id];
      keys := map key | key in keys && keys[key] in alerts :: keys[key];
    }
  }
}
