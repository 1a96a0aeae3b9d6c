/** One pass of the alert rules over a batch of samples: what it opens and what it resolves. */
module AlertEvaluation {
  import opened Options
  import opened Alerts

  // ------------------------------------------------------------------- listings

  /** Rows are listed by time and then by identifier, the first PAGE of them at most. */
  const PAGE := 500

  predicate Before(at: map<nat, int>, x: nat, y: nat)
    requires x in at && y in at
  {
    at[x] < at[y] || (at[x] == at[y] && x < y)
  }

  function Ahead(at: map<nat, int>, id: nat): set<nat>
    requires id in at
  {
    set other | other in at && Before(at, other, id)
  }

  predicate IsFirst(at: map<nat, int>, ids: set<nat>, first: nat)
    requires ids <= at.Keys
  {
    first in ids && forall other :: other in ids ==> other == first || Before(at, first, other)
  }

  lemma {:induction false} FirstExists(at: map<nat, int>, ids: set<nat>)
    requires ids != {} && ids <= at.Keys
    ensures exists first :: IsFirst(at, ids, first)
    decreases |ids|
  {
    var id :| id in ids;
    if ids == {id} {
      assert IsFirst(at, ids, id);
    } else {
      var rest := ids - {id};
      assert ids == rest + {id};
      FirstExists(at, rest);
      var first :| IsFirst(at, rest, first);
      var least := if Before(at, id, first) then id else first;
      forall other | other in ids ensures other == least || Before(at, least, other) {
        assert other == id || other in rest;
      }
      assert IsFirst(at, ids, least);
    }
  }

  function First(at: map<nat, int>, ids: set<nat>): (first: nat)
    requires ids != {} && ids <= at.Keys
    ensures IsFirst(at, ids, first)
  {
    FirstExists(at, ids);
    var first :| IsFirst(at, ids, first);
    first
  }

  function InOrder(at: map<nat, int>, ids: set<nat>): seq<nat>
    requires ids <= at.Keys
    decreases |ids|
  {
    if ids == {} then [] else [First(at, ids)] + InOrder(at, ids - {First(at, ids)})
  }

  function FirstPage(at: map<nat, int>): seq<nat> {
    var all := InOrder(at, at.Keys);
    if |all| <= PAGE then all else all[..PAGE]
  }

  lemma {:induction false} InOrderIsOrdered(at: map<nat, int>, ids: set<nat>)
    requires ids <= at.Keys
    ensures forall id :: id in InOrder(at, ids) <==> id in ids
    ensures forall i, j :: 0 <= i < j < |InOrder(at, ids)| ==> Before(at, InOrder(at, ids)[i], InOrder(at, ids)[j])
    decreases |ids|
  {
    if ids != {} {
      var first := First(at, ids);
      InOrderIsOrdered(at, ids - {first});
      assert InOrder(at, ids) == [first] + InOrder(at, ids - {first});
    }
  }

  function Elements(numbers: seq<nat>): set<nat> {
    set n | n in numbers
  }

  lemma {:induction false} DistinctSize(numbers: seq<nat>)
    requires forall i, j :: 0 <= i < j < |numbers| ==> numbers[i] != numbers[j]
    ensures |Elements(numbers)| == |numbers|
    decreases |numbers|
  {
    if numbers == [] {
    } else {
      var front, last := numbers[..|numbers| - 1], numbers[|numbers| - 1];
      DistinctSize(front);
      assert numbers == front + [last];
      assert Elements(numbers) == Elements(front) + {last};
      assert last !in Elements(front);
    }
  }

  lemma AheadIsFront(at: map<nat, int>, all: seq<nat>, i: nat, other: nat)
    requires i < |all| && (forall id :: id in all <==> id in at)
    requires forall j, k :: 0 <= j < k < |all| ==> Before(at, all[j], all[k])
    ensures other in Ahead(at, all[i]) <==> other in all[..i]
  {
    if other in at {
      var j :| 0 <= j < |all| && all[j] == other;
      assert j < i ==> all[..i][j] == other;
    }
  }

  lemma {:induction false} AheadInOrder(at: map<nat, int>, i: nat)
    requires i < |InOrder(at, at.Keys)|
    ensures InOrder(at, at.Keys)[i] in at && |Ahead(at, InOrder(at, at.Keys)[i])| == i
  {
    var all := InOrder(at, at.Keys);
    InOrderIsOrdered(at, at.Keys);
    hide InOrder, Ahead;
    forall other ensures other in Ahead(at, all[i]) <==> other in all[..i] {
      AheadIsFront(at, all, i, other);
    }
    assert Ahead(at, all[i]) == Elements(all[..i]);
    DistinctSize(all[..i]);
  }

  lemma OnFirstPageIff(at: map<nat, int>, id: nat)
    ensures id in FirstPage(at) <==> id in at && |Ahead(at, id)| < PAGE
  {
    var all := InOrder(at, at.Keys);
    InOrderIsOrdered(at, at.Keys);
    hide InOrder, Ahead, Before;
    if id in at {
      var i: nat :| i < |all| && all[i] == id;
      AheadInOrder(at, i);
      if i < PAGE {
        assert FirstPage(at)[i] == id;
      }
      if id in FirstPage(at) {
        var j: nat :| j < |FirstPage(at)| && FirstPage(at)[j] == id;
        AheadInOrder(at, j);
      }
    }
  }

  /** A row is on the first page exactly when fewer than five hundred rows are ahead of it, and the page has no row twice. */
  lemma IsOnFirstPageIff(at: map<nat, int>)
    ensures forall id :: id in FirstPage(at) <==> id in at && |Ahead(at, id)| < PAGE
    ensures forall i, j :: 0 <= i < j < |FirstPage(at)| ==> FirstPage(at)[i] != FirstPage(at)[j]
  {
    InOrderIsOrdered(at, at.Keys);
    hide InOrder, Ahead;
    forall id ensures id in FirstPage(at) <==> id in at && |Ahead(at, id)| < PAGE {
      OnFirstPageIff(at, id);
    }
  }

  // ------------------------------------------------------------------- rules and samples

  datatype Measure = Cpu | Memory | Unknown

  /** A condition compares a measure with a threshold; one that cannot be read has none.  The cause is the condition without blanks. */
  datatype Rule = Rule(measure: Measure, threshold: Option<real>, cause: string, enabled: bool)

  datatype Sample = Sample(source: string, at: int, cpu: Option<real>, memory: Option<nat>)

  predicate Matches(rule: Rule, sample: Sample) {
    rule.threshold.Some?
    && match rule.measure
       case Cpu => sample.cpu.Some? && sample.cpu.value > rule.threshold.value
       case Memory => sample.memory.Some? && sample.memory.value as real > rule.threshold.value
       case Unknown => false
  }

  function ListedRules(rules: map<nat, Rule>): seq<nat> {
    FirstPage(map id | id in rules :: 0)
  }

  function ListedAlerts(b: Book): seq<nat> {
    FirstPage(map id | id in b.alerts :: b.alerts[id].openedAt)
  }

  lemma ListedRulesExist(rules: map<nat, Rule>)
    ensures forall id :: id in ListedRules(rules) ==> id in rules
  {
    IsOnFirstPageIff(map id | id in rules :: 0);
  }

  lemma ListedAlertsExist(b: Book)
    ensures forall id :: id in ListedAlerts(b) ==> id in b.alerts
  {
    IsOnFirstPageIff(map id | id in b.alerts :: b.alerts[id].openedAt);
  }

  // ------------------------------------------------------------------- opening

  /** The book so far, the episodes announced by a notification, and how many insertions were tried. */
  datatype Pass = Pass(book: Book, announced: seq<nat>, tries: nat)

  /**
    Opens an episode for a rule and a sample.  `draw` gives each insertion its random identifier, and None if storing it
    fails; only a new episode is announced.
   */
  function OpenOne(p: Pass, id: nat, rule: Rule, sample: Sample, draw: nat -> Option<nat>): Pass {
    if !rule.enabled || !Matches(rule, sample) then p
    else if draw(p.tries).None? then p.(tries := p.tries + 1)
    else
      var key := Key(id, sample.source, rule.cause);
      Pass(
        Opened(p.book, draw(p.tries).value, key, sample.at),
        if key in p.book.keys then p.announced else p.announced + [draw(p.tries).value],
        p.tries + 1)
  }

  /** The first `n` listed rules with one sample. */
  function OpenFor(p: Pass, rules: map<nat, Rule>, order: seq<nat>, sample: Sample, draw: nat -> Option<nat>, n: nat): Pass
    requires n <= |order| && forall id :: id in order ==> id in rules
  {
    if n == 0 then p
    else OpenOne(OpenFor(p, rules, order, sample, draw, n - 1), order[n - 1], rules[order[n - 1]], sample, draw)
  }

  /** All listed rules with the first `n` samples. */
  function OpenAll(p: Pass, rules: map<nat, Rule>, order: seq<nat>, samples: seq<Sample>, draw: nat -> Option<nat>, n: nat): Pass
    requires n <= |samples| && forall id :: id in order ==> id in rules
  {
    if n == 0 then p
    else OpenFor(OpenAll(p, rules, order, samples, draw, n - 1), rules, order, samples[n - 1], draw, |order|)
  }

  /** No identifier is drawn twice, and none still to be drawn was ever used. */
  ghost predicate IsSupplied(p: Pass, draw: nat -> Option<nat>) {
    && (forall k: nat :: p.tries <= k && draw(k).Some? ==> draw(k).value !in p.book.used)
    && (forall j: nat, k: nat :: j != k && draw(j).Some? && draw(k).Some? ==> draw(j) != draw(k))
  }

  /** What opening never changes, and that each new episode is announced once. */
  ghost predicate Grows(p: Pass, r: Pass) {
    && (forall key :: key in p.book.keys ==> key in r.book.keys && r.book.keys[key] == p.book.keys[key])
    && (forall id :: id in p.book.alerts ==> id in r.book.alerts && r.book.alerts[id] == p.book.alerts[id])
    && (forall id :: multiset(r.announced)[id] ==
                     multiset(p.announced)[id] + if id in r.book.alerts && id !in p.book.alerts then 1 else 0)
  }

  /** The key's rule is listed and enabled, its condition is the key's, and one of these samples of the key's source exceeds it. */
  predicate Fires(rules: map<nat, Rule>, order: seq<nat>, samples: seq<Sample>, key: Key) {
    && key.rule in order && key.rule in rules && rules[key.rule].enabled && rules[key.rule].cause == key.cause
    && exists i :: 0 <= i < |samples| && samples[i].source == key.source && Matches(rules[key.rule], samples[i])
  }

  lemma OpenOneGrows(p: Pass, id: nat, rule: Rule, sample: Sample, draw: nat -> Option<nat>)
    requires KeysMatch(p.book) && IsSupplied(p, draw)
    ensures var r := OpenOne(p, id, rule, sample, draw);
            KeysMatch(r.book) && IsSupplied(r, draw) && Grows(p, r)
  {
    var r := OpenOne(p, id, rule, sample, draw);
    var key := Key(id, sample.source, rule.cause);
    if rule.enabled && Matches(rule, sample) && draw(p.tries).Some? {
      ApplyKeepsKeys(p.book, Open(draw(p.tries).value, key, sample.at));
      assert Apply(p.book, Open(draw(p.tries).value, key, sample.at)) == r.book;
    }
  }

  lemma GrowsOn(p: Pass, q: Pass, r: Pass)
    requires Grows(p, q) && Grows(q, r)
    ensures Grows(p, r)
  {
  }

  lemma {:induction false} OpenForGrows(p: Pass, rules: map<nat, Rule>, order: seq<nat>, sample: Sample, draw: nat -> Option<nat>, n: nat)
    requires KeysMatch(p.book) && IsSupplied(p, draw) && n <= |order| && forall id :: id in order ==> id in rules
    ensures var r := OpenFor(p, rules, order, sample, draw, n);
            KeysMatch(r.book) && IsSupplied(r, draw) && Grows(p, r)
  {
    if n == 0 {
    } else {
      hide KeysMatch, IsSupplied, Grows, OpenOne;
      var q := OpenFor(p, rules, order, sample, draw, n - 1);
      OpenForGrows(p, rules, order, sample, draw, n - 1);
      OpenOneGrows(q, order[n - 1], rules[order[n - 1]], sample, draw);
      GrowsOn(p, q, OpenFor(p, rules, order, sample, draw, n));
    }
  }

  lemma {:induction false} OpenAllGrows(p: Pass, rules: map<nat, Rule>, order: seq<nat>, samples: seq<Sample>, draw: nat -> Option<nat>, n: nat)
    requires KeysMatch(p.book) && IsSupplied(p, draw) && n <= |samples| && forall id :: id in order ==> id in rules
    ensures var r := OpenAll(p, rules, order, samples, draw, n);
            KeysMatch(r.book) && IsSupplied(r, draw) && Grows(p, r)
  {
    if n == 0 {
    } else {
      hide KeysMatch, IsSupplied, Grows, OpenFor;
      var q := OpenAll(p, rules, order, samples, draw, n - 1);
      OpenAllGrows(p, rules, order, samples, draw, n - 1);
      OpenForGrows(q, rules, order, samples[n - 1], draw, |order|);
      GrowsOn(p, q, OpenAll(p, rules, order, samples, draw, n));
    }
  }

  lemma {:induction false} OpenForFires(p: Pass, rules: map<nat, Rule>, order: seq<nat>, sample: Sample, draw: nat -> Option<nat>, n: nat, key: Key)
    requires n <= |order| && forall id :: id in order ==> id in rules
    ensures var r := OpenFor(p, rules, order, sample, draw, n);
            && (key in p.book.keys ==> key in r.book.keys)
            && (key in r.book.keys ==> key in p.book.keys || Fires(rules, order[..n], [sample], key))
            && ((forall k: nat :: draw(k).Some?) && Fires(rules, order[..n], [sample], key) ==> key in r.book.keys)
  {
    if n == 0 {
    } else {
      OpenForFires(p, rules, order, sample, draw, n - 1, key);
      assert order[..n] == order[..n - 1] + [order[n - 1]];
      assert [sample][0] == sample;
      assert Fires(rules, order[..n], [sample], key)
        <==> Fires(rules, order[..n - 1], [sample], key) || Fires(rules, [order[n - 1]], [sample], key);
    }
  }

  /** The keys after opening: the ones before and, unless storing fails, exactly those that fire. */
  lemma {:induction false} OpenAllFires(p: Pass, rules: map<nat, Rule>, order: seq<nat>, samples: seq<Sample>, draw: nat -> Option<nat>, n: nat, key: Key)
    requires n <= |samples| && forall id :: id in order ==> id in rules
    ensures var r := OpenAll(p, rules, order, samples, draw, n);
            && (key in p.book.keys ==> key in r.book.keys)
            && (key in r.book.keys ==> key in p.book.keys || Fires(rules, order, samples[..n], key))
            && ((forall k: nat :: draw(k).Some?) && Fires(rules, order, samples[..n], key) ==> key in r.book.keys)
  {
    if n == 0 {
    } else {
      OpenAllFires(p, rules, order, samples, draw, n - 1, key);
      OpenForFires(OpenAll(p, rules, order, samples, draw, n - 1), rules, order, samples[n - 1], draw, |order|, key);
      assert order[..|order|] == order;
      FiresSplits(rules, order, samples, n, key);
    }
  }

  lemma FiresSplits(rules: map<nat, Rule>, order: seq<nat>, samples: seq<Sample>, n: nat, key: Key)
    requires 0 < n <= |samples|
    ensures Fires(rules, order, samples[..n], key)
       <==> Fires(rules, order, samples[..n - 1], key) || Fires(rules, order, [samples[n - 1]], key)
  {
    assert samples[..n] == samples[..n - 1] + [samples[n - 1]];
    if Fires(rules, order, samples[..n], key) {
      var i :| 0 <= i < n && samples[..n][i].source == key.source && Matches(rules[key.rule], samples[..n][i]);
      assert i < n - 1 ==> samples[..n - 1][i] == samples[..n][i];
      assert i == n - 1 ==> [samples[n - 1]][0] == samples[..n][i];
    }
    if Fires(rules, order, samples[..n - 1], key) {
      var i :| 0 <= i < n - 1 && samples[..n - 1][i].source == key.source && Matches(rules[key.rule], samples[..n - 1][i]);
      assert samples[..n][i] == samples[..n - 1][i];
    }
    if Fires(rules, order, [samples[n - 1]], key) {
      assert samples[..n][n - 1] == [samples[n - 1]][0];
    }
  }

  // ------------------------------------------------------------------- resolving

  /** Of several samples of one source the last one is looked at. */
  function LastOf(samples: seq<Sample>, source: string): Option<Sample> {
    if samples == [] then None
    else if samples[|samples| - 1].source == source then Some(samples[|samples| - 1])
    else LastOf(samples[..|samples| - 1], source)
  }

  /** There is a listed enabled rule and a sample to judge this episode by. */
  predicate IsJudged(rules: map<nat, Rule>, order: seq<nat>, samples: seq<Sample>, key: Key) {
    key.rule in order && key.rule in rules && rules[key.rule].enabled && LastOf(samples, key.source).Some?
  }

  /** The rule no longer matches, whatever condition the episode was opened for. */
  predicate IsOver(rules: map<nat, Rule>, order: seq<nat>, samples: seq<Sample>, key: Key) {
    IsJudged(rules, order, samples, key) && !Matches(rules[key.rule], LastOf(samples, key.source).value)
  }

  /** The episode was read, its rule no longer matches, and storing its end does not fail. */
  predicate IsDue(read: Book, rules: map<nat, Rule>, order: seq<nat>, samples: seq<Sample>, refused: set<nat>, id: nat) {
    IsUnresolved(read, id) && IsOver(rules, order, samples, read.alerts[id].key) && id !in refused
  }

  function ResolveOne(q: Pass, read: Book, rules: map<nat, Rule>, order: seq<nat>, samples: seq<Sample>, refused: set<nat>, id: nat): Pass {
    if IsDue(read, rules, order, samples, refused, id) && id in q.book.alerts
    then q.(book := ResolvedBook(q.book, id), announced := q.announced + [id])
    else q
  }

  /** The first `n` listed episodes, as they were in `read`; a resolution in `refused` fails. */
  function ResolveAll(p: Pass, read: Book, rules: map<nat, Rule>, order: seq<nat>, samples: seq<Sample>, page: seq<nat>, refused: set<nat>, n: nat): Pass
    requires n <= |page|
  {
    if n == 0 then p
    else ResolveOne(ResolveAll(p, read, rules, order, samples, page, refused, n - 1), read, rules, order, samples, refused, page[n - 1])
  }

  /** The listed episodes that are resolved. */
  function Due(read: Book, rules: map<nat, Rule>, order: seq<nat>, samples: seq<Sample>, page: seq<nat>, refused: set<nat>): set<nat> {
    set id | id in page && IsDue(read, rules, order, samples, refused, id)
  }

  /** Exactly these episodes were resolved and announced, once each. */
  ghost predicate Ends(p: Pass, r: Pass, done: set<nat>) {
    && r.book.alerts.Keys == p.book.alerts.Keys && r.book.used == p.book.used
    && (forall id :: id in r.book.alerts ==>
          r.book.alerts[id] == if id in done then p.book.alerts[id].(state := Resolved) else p.book.alerts[id])
    && (forall id :: multiset(r.announced)[id] == multiset(p.announced)[id] + if id in done then 1 else 0)
  }

  lemma EndOne(p: Pass, q: Pass, done: set<nat>, id: nat)
    requires Ends(p, q, done) && id !in done && id in p.book.alerts
    ensures Ends(p, q.(book := ResolvedBook(q.book, id), announced := q.announced + [id]), done + {id})
  {
  }

  lemma ResolveOneEnds(p: Pass, q: Pass, rules: map<nat, Rule>, order: seq<nat>, samples: seq<Sample>, refused: set<nat>, done: set<nat>, id: nat)
    requires KeysMatch(q.book) && Ends(p, q, done) && id !in done
    ensures var r := ResolveOne(q, p.book, rules, order, samples, refused, id);
            KeysMatch(r.book) && Ends(p, r, if IsDue(p.book, rules, order, samples, refused, id) then done + {id} else done)
  {
    hide IsOver, KeysMatch, Ends;
    EndsIs(p, q, done);
    if IsDue(p.book, rules, order, samples, refused, id) {
      EndOne(p, q, done, id);
      assert Apply(q.book, Resolve(id)) == ResolvedBook(q.book, id);
      ApplyKeepsKeys(q.book, Resolve(id));
    }
  }

  lemma DueGrows(read: Book, rules: map<nat, Rule>, order: seq<nat>, samples: seq<Sample>, page: seq<nat>, refused: set<nat>, n: nat)
    requires 0 < n <= |page| && forall i, j :: 0 <= i < j < |page| ==> page[i] != page[j]
    ensures var id, done := page[n - 1], Due(read, rules, order, samples, page[..n - 1], refused);
            && id !in done
            && Due(read, rules, order, samples, page[..n], refused)
               == if IsDue(read, rules, order, samples, refused, id) then done + {id} else done
  {
    hide IsDue;
    assert page[..n] == page[..n - 1] + [page[n - 1]];
  }

  lemma {:induction false} ResolveAllResolves(p: Pass, rules: map<nat, Rule>, order: seq<nat>, samples: seq<Sample>, page: seq<nat>, refused: set<nat>, n: nat)
    requires KeysMatch(p.book) && n <= |page| && forall i, j :: 0 <= i < j < |page| ==> page[i] != page[j]
    ensures var r := ResolveAll(p, p.book, rules, order, samples, page, refused, n);
            KeysMatch(r.book) && Ends(p, r, Due(p.book, rules, order, samples, page[..n], refused))
  {
    if n == 0 {
      assert Due(p.book, rules, order, samples, page[..n], refused) == {};
    } else {
      hide IsDue, KeysMatch, Ends, Due, ResolveOne;
      ResolveAllResolves(p, rules, order, samples, page, refused, n - 1);
      DueGrows(p.book, rules, order, samples, page, refused, n);
      ResolveOneEnds(p, ResolveAll(p, p.book, rules, order, samples, page, refused, n - 1), rules, order, samples, refused,
                     Due(p.book, rules, order, samples, page[..n - 1], refused), page[n - 1]);
    }
  }

  lemma EndsIs(p: Pass, r: Pass, done: set<nat>)
    requires Ends(p, r, done)
    ensures r.book.alerts.Keys == p.book.alerts.Keys
    ensures forall id :: id in r.book.alerts ==>
      r.book.alerts[id] == if id in done then p.book.alerts[id].(state := Resolved) else p.book.alerts[id]
    ensures forall id :: multiset(r.announced)[id] == multiset(p.announced)[id] + if id in done then 1 else 0
  {
  }

  // ------------------------------------------------------------------- the pass

  /** Open for every sample and rule, list the episodes, resolve the listed ones. */
  function Evaluated(b: Book, rules: map<nat, Rule>, samples: seq<Sample>, draw: nat -> Option<nat>, refused: set<nat>): Pass {
    ListedRulesExist(rules);
    var order := ListedRules(rules);
    var mid := OpenAll(Pass(b, [], 0), rules, order, samples, draw, |samples|);
    var page := ListedAlerts(mid.book);
    ResolveAll(mid, mid.book, rules, order, samples, page, refused, |page|)
  }

  /** The book between the two halves of the pass. */
  function AfterOpening(b: Book, rules: map<nat, Rule>, samples: seq<Sample>, draw: nat -> Option<nat>): Book {
    ListedRulesExist(rules);
    OpenAll(Pass(b, [], 0), rules, ListedRules(rules), samples, draw, |samples|).book
  }

  /** The episodes listed before this one, resolved or not. */
  function Queue(b: Book, id: nat): set<nat>
    requires id in b.alerts
  {
    Ahead(map other | other in b.alerts :: b.alerts[other].openedAt, id)
  }

  /** What the second half of the pass resolves: an episode that is over, near enough to the front of the listing. */
  predicate IsSettled(b: Book, rules: map<nat, Rule>, samples: seq<Sample>, refused: set<nat>, id: nat)
    requires id in b.alerts
  {
    IsOver(rules, ListedRules(rules), samples, b.alerts[id].key) && id !in refused && |Queue(b, id)| < PAGE
  }

  lemma EvaluatedIs(b: Book, rules: map<nat, Rule>, samples: seq<Sample>, draw: nat -> Option<nat>, refused: set<nat>)
    requires forall id :: id in ListedRules(rules) ==> id in rules
    ensures var order := ListedRules(rules);
            var mid := OpenAll(Pass(b, [], 0), rules, order, samples, draw, |samples|);
            var page := ListedAlerts(mid.book);
            && AfterOpening(b, rules, samples, draw) == mid.book
            && Evaluated(b, rules, samples, draw, refused) == ResolveAll(mid, mid.book, rules, order, samples, page, refused, |page|)
  {
  }

  lemma GrowsIs(p: Pass, r: Pass)
    requires Grows(p, r)
    ensures forall key :: key in p.book.keys ==> key in r.book.keys && r.book.keys[key] == p.book.keys[key]
    ensures forall id :: id in p.book.alerts ==> id in r.book.alerts && r.book.alerts[id] == p.book.alerts[id]
    ensures forall id :: multiset(r.announced)[id] ==
                         multiset(p.announced)[id] + if id in r.book.alerts && id !in p.book.alerts then 1 else 0
  {
  }

  lemma UnresolvedIs(b: Book)
    ensures forall id :: IsUnresolved(b, id) <==> id in b.alerts && b.alerts[id].state != Resolved
  {
  }

  lemma ListedAlertsIff(b: Book)
    ensures forall id :: id in ListedAlerts(b) <==> id in b.alerts && |Queue(b, id)| < PAGE
    ensures forall i, j :: 0 <= i < j < |ListedAlerts(b)| ==> ListedAlerts(b)[i] != ListedAlerts(b)[j]
  {
    IsOnFirstPageIff(map id | id in b.alerts :: b.alerts[id].openedAt);
    hide FirstPage, Ahead;
  }

  lemma InDueIff(b: Book, rules: map<nat, Rule>, samples: seq<Sample>, refused: set<nat>, id: nat)
    requires id in b.alerts
    ensures id in Due(b, rules, ListedRules(rules), samples, ListedAlerts(b), refused)
       <==> IsUnresolved(b, id) && IsSettled(b, rules, samples, refused, id)
  {
    ListedAlertsIff(b);
    hide FirstPage, Ahead, IsOver;
  }

  /**
    What one pass does to every episode, in terms of the book between its halves: everything from before is still there;
    an episode ends exactly if its rule is listed, enabled and no longer matched by the last sample of its source, and
    fewer than five hundred episodes are listed before it; and each opening and each ending is announced once.
   */
  lemma PassIsExact(b: Book, rules: map<nat, Rule>, samples: seq<Sample>, draw: nat -> Option<nat>, refused: set<nat>)
    requires KeysMatch(b) && IsSupplied(Pass(b, [], 0), draw)
    ensures var mid := AfterOpening(b, rules, samples, draw);
            var after := Evaluated(b, rules, samples, draw, refused);
            && KeysMatch(mid) && KeysMatch(after.book) && after.book.alerts.Keys == mid.alerts.Keys
            && (forall id :: id in b.alerts ==> id in mid.alerts && mid.alerts[id] == b.alerts[id])
            && (forall key :: key in b.keys ==> key in mid.keys && mid.keys[key] == b.keys[key])
            && (forall id :: id in mid.alerts ==> after.book.alerts[id] ==
                                                  if IsUnresolved(mid, id) && IsSettled(mid, rules, samples, refused, id)
                                                  then mid.alerts[id].(state := Resolved) else mid.alerts[id])
            && (forall id :: id in mid.alerts ==> multiset(after.announced)[id] ==
                                                  (if id !in b.alerts then 1 else 0) + (if IsUnresolved(mid, id) && !IsUnresolved(after.book, id) then 1 else 0))
  {
    hide *;
    var order := ListedRules(rules);
    ListedRulesExist(rules);
    var mid := OpenAll(Pass(b, [], 0), rules, order, samples, draw, |samples|);
    var page := ListedAlerts(mid.book);
    EvaluatedIs(b, rules, samples, draw, refused);
    OpenAllGrows(Pass(b, [], 0), rules, order, samples, draw, |samples|);
    GrowsIs(Pass(b, [], 0), mid);
    ListedAlertsIff(mid.book);
    ResolveAllResolves(mid, rules, order, samples, page, refused, |page|);
    assert page[..|page|] == page;
    EndsIs(mid, Evaluated(b, rules, samples, draw, refused), Due(mid.book, rules, order, samples, page, refused));
    forall id | id in mid.book.alerts
      ensures id in Due(mid.book, rules, order, samples, page, refused)
         <==> IsUnresolved(mid.book, id) && IsSettled(mid.book, rules, samples, refused, id)
    {
      InDueIff(mid.book, rules, samples, refused, id);
    }
    UnresolvedIs(mid.book);
    UnresolvedIs(Evaluated(b, rules, samples, draw, refused).book);
  }

  /** Of this source there is no sample behind the one at `i`. */
  predicate IsLastAt(samples: seq<Sample>, source: string, i: nat) {
    i < |samples| && samples[i].source == source && forall j :: i < j < |samples| ==> samples[j].source != source
  }

  lemma {:induction false} LastOfIff(samples: seq<Sample>, source: string)
    ensures LastOf(samples, source).None? <==> forall i :: 0 <= i < |samples| ==> samples[i].source != source
    ensures forall i: nat :: IsLastAt(samples, source, i) ==> LastOf(samples, source) == Some(samples[i])
    ensures LastOf(samples, source).Some? ==> exists i: nat :: IsLastAt(samples, source, i)
  {
    var found := LastIndex(samples, source);
    forall i: nat | IsLastAt(samples, source, i) ensures found == Some(i) {
    }
  }

  lemma {:induction false} LastIndex(samples: seq<Sample>, source: string) returns (found: Option<nat>)
    ensures found.None? ==> LastOf(samples, source).None? && forall i :: 0 <= i < |samples| ==> samples[i].source != source
    ensures found.Some? ==> IsLastAt(samples, source, found.value) && LastOf(samples, source) == Some(samples[found.value])
  {
    found := None;
    if samples != [] {
      var n := |samples| - 1;
      if samples[n].source == source {
        found := Some(n);
      } else {
        found := LastIndex(samples[..n], source);
      }
    }
  }

  /** A rule that matches the last sample of a source fires for it; without a sample to judge by, nothing fires. */
  lemma JudgedFires(rules: map<nat, Rule>, order: seq<nat>, samples: seq<Sample>, key: Key)
    ensures Fires(rules, order, samples, key) ==> IsJudged(rules, order, samples, key) && rules[key.rule].cause == key.cause
    ensures IsJudged(rules, order, samples, key) && !IsOver(rules, order, samples, key) && rules[key.rule].cause == key.cause
        ==> Fires(rules, order, samples, key)
  {
    LastOfIff(samples, key.source);
  }

  lemma QueueFits(b: Book, id: nat)
    requires id in b.alerts
    ensures |Queue(b, id)| < |b.alerts|
  {
    var others := b.alerts.Keys - {id};
    assert Queue(b, id) <= others;
    SubsetIsSmaller(Queue(b, id), others);
  }

  lemma {:induction false} SubsetIsSmaller(few: set<nat>, many: set<nat>)
    requires few <= many
    ensures |few| <= |many|
    decreases |few|
  {
    if few != {} {
      var n :| n in few;
      SubsetIsSmaller(few - {n}, many - {n});
    }
  }

  /**
    The purpose of a pass: with no storage failure and no more than five hundred episodes on record, an alert is open
    afterwards exactly if the last sample of its source exceeds its rule - for a condition the rule no longer has, if it
    was open as well.  Without a sample, or with the rule gone, disabled or not listed, nothing changes.
   */
  lemma AlertsFollowTheSamples(b: Book, rules: map<nat, Rule>, samples: seq<Sample>, draw: nat -> Option<nat>, key: Key)
    requires KeysMatch(b) && IsSupplied(Pass(b, [], 0), draw) && forall k: nat :: draw(k).Some?
    requires |AfterOpening(b, rules, samples, draw).alerts| <= PAGE
    ensures key in Evaluated(b, rules, samples, draw, {}).book.keys
       <==> if IsJudged(rules, ListedRules(rules), samples, key)
            then !IsOver(rules, ListedRules(rules), samples, key) && (rules[key.rule].cause == key.cause || key in b.keys)
            else key in b.keys
  {
    hide *;
    var order := ListedRules(rules);
    var mid := AfterOpening(b, rules, samples, draw);
    var after := Evaluated(b, rules, samples, draw, {}).book;
    PassIsExact(b, rules, samples, draw, {});
    OpensIff(b, rules, samples, draw, key);
    JudgedFires(rules, order, samples, key);
    UnresolvedIs(mid);
    UnresolvedIs(after);
    KeyStaysIff(mid, after, key);
    if key in mid.keys {
      var id := mid.keys[key];
      QueueFits(mid, id);
      SettledIff(mid, rules, samples, id);
    }
    OverIs(rules, order, samples, key);
  }

  lemma OpensIff(b: Book, rules: map<nat, Rule>, samples: seq<Sample>, draw: nat -> Option<nat>, key: Key)
    requires forall k: nat :: draw(k).Some?
    ensures key in AfterOpening(b, rules, samples, draw).keys <==> key in b.keys || Fires(rules, ListedRules(rules), samples, key)
  {
    ListedRulesExist(rules);
    OpenAllFires(Pass(b, [], 0), rules, ListedRules(rules), samples, draw, |samples|, key);
    assert samples[..|samples|] == samples;
    hide OpenAll, Fires, ListedRules;
  }

  lemma SettledIff(b: Book, rules: map<nat, Rule>, samples: seq<Sample>, id: nat)
    requires id in b.alerts && |Queue(b, id)| < PAGE
    ensures IsSettled(b, rules, samples, {}, id) <==> IsOver(rules, ListedRules(rules), samples, b.alerts[id].key)
  {
    hide Queue, IsOver, ListedRules;
  }

  lemma OverIs(rules: map<nat, Rule>, order: seq<nat>, samples: seq<Sample>, key: Key)
    ensures IsOver(rules, order, samples, key) ==> IsJudged(rules, order, samples, key)
    ensures IsJudged(rules, order, samples, key) ==> key.rule in rules
  {
  }

  lemma KeyStaysIff(mid: Book, after: Book, key: Key)
    requires KeysMatch(mid) && KeysMatch(after) && after.alerts.Keys == mid.alerts.Keys
    requires forall id :: id in mid.alerts ==> after.alerts[id].key == mid.alerts[id].key
    requires forall id :: IsUnresolved(after, id) ==> IsUnresolved(mid, id)
    ensures key in after.keys <==> key in mid.keys && IsUnresolved(after, mid.keys[key])
    ensures key in mid.keys ==> mid.keys[key] in mid.alerts && mid.alerts[mid.keys[key]].key == key && IsUnresolved(mid, mid.keys[key])
  {
  }

  // ------------------------------------------------------------------- thresholds, written out

  /** An unresolved episode of this key is on record. */
  ghost predicate IsAlertOpen(b: Book, key: Key) {
    exists id :: id in b.alerts && b.alerts[id].state != Resolved && b.alerts[id].key == key
  }

  lemma IsAlertOpenIff(b: Book, key: Key)
    requires KeysMatch(b)
    ensures IsAlertOpen(b, key) <==> key in b.keys
  {
    if key in b.keys {
      assert IsUnresolved(b, b.keys[key]);
    }
    if id :| id in b.alerts && b.alerts[id].state != Resolved && b.alerts[id].key == key {
      assert IsUnresolved(b, id);
    }
  }

  /** A pass without storage failures over tables within the listing limit, and a key that a listed rule and a last sample judge. */
  ghost predicate IsJudgedPass(b: Book, rules: map<nat, Rule>, samples: seq<Sample>, draw: nat -> Option<nat>, key: Key, last: nat) {
    && KeysMatch(b) && IsSupplied(Pass(b, [], 0), draw) && (forall k: nat :: draw(k).Some?)
    && |AfterOpening(b, rules, samples, draw).alerts| <= PAGE
    && key.rule in ListedRules(rules) && key.rule in rules && rules[key.rule].enabled
    && IsLastAt(samples, key.source, last)
  }

  lemma JudgedIff(b: Book, rules: map<nat, Rule>, samples: seq<Sample>, draw: nat -> Option<nat>, key: Key, last: nat)
    requires IsJudgedPass(b, rules, samples, draw, key, last)
    ensures IsAlertOpen(Evaluated(b, rules, samples, draw, {}).book, key)
       <==> Matches(rules[key.rule], samples[last]) && (rules[key.rule].cause == key.cause || key in b.keys)
  {
    LastOfIff(samples, key.source);
    AlertsFollowTheSamples(b, rules, samples, draw, key);
    PassIsExact(b, rules, samples, draw, {});
    hide KeysMatch, IsSupplied, Evaluated, AfterOpening, ListedRules, Matches, IsAlertOpen;
    IsAlertOpenIff(Evaluated(b, rules, samples, draw, {}).book, key);
  }

  /** For a rule on the processor share the alert is open afterwards if and only if the last sample has a share above the threshold. */
  lemma ProcessorAlertIsOpenIff(b: Book, rules: map<nat, Rule>, samples: seq<Sample>, draw: nat -> Option<nat>, key: Key, last: nat, threshold: real)
    requires IsJudgedPass(b, rules, samples, draw, key, last) && rules[key.rule].cause == key.cause
    requires rules[key.rule].measure == Cpu && rules[key.rule].threshold == Some(threshold)
    ensures IsAlertOpen(Evaluated(b, rules, samples, draw, {}).book, key)
       <==> match samples[last].cpu case None => false case Some(share) => threshold < share
  {
    JudgedIff(b, rules, samples, draw, key, last);
    hide KeysMatch, IsSupplied, Evaluated, AfterOpening, ListedRules, IsAlertOpen;
  }

  /** For a rule on memory the alert is open afterwards if and only if the last sample has a size above the threshold. */
  lemma MemoryAlertIsOpenIff(b: Book, rules: map<nat, Rule>, samples: seq<Sample>, draw: nat -> Option<nat>, key: Key, last: nat, threshold: real)
    requires IsJudgedPass(b, rules, samples, draw, key, last) && rules[key.rule].cause == key.cause
    requires rules[key.rule].measure == Memory && rules[key.rule].threshold == Some(threshold)
    ensures IsAlertOpen(Evaluated(b, rules, samples, draw, {}).book, key)
       <==> match samples[last].memory case None => false case Some(bytes) => threshold < bytes as real
  {
    JudgedIff(b, rules, samples, draw, key, last);
    hide KeysMatch, IsSupplied, Evaluated, AfterOpening, ListedRules, IsAlertOpen;
  }

  /**
    A missing value, a threshold that cannot be read or a measure that is not known leaves no alert open, whatever
    condition it was opened for.
   */
  lemma UnreadableEndsTheAlert(b: Book, rules: map<nat, Rule>, samples: seq<Sample>, draw: nat -> Option<nat>, key: Key, last: nat)
    requires IsJudgedPass(b, rules, samples, draw, key, last)
    requires var rule := rules[key.rule];
             || rule.threshold == None || rule.measure == Unknown
             || (rule.measure == Cpu && samples[last].cpu == None) || (rule.measure == Memory && samples[last].memory == None)
    ensures !IsAlertOpen(Evaluated(b, rules, samples, draw, {}).book, key)
  {
    JudgedIff(b, rules, samples, draw, key, last);
    hide KeysMatch, IsSupplied, Evaluated, AfterOpening, ListedRules, IsAlertOpen;
  }

  // ------------------------------------------------------------------- starvation

  datatype Input = Input(rules: map<nat, Rule>, samples: seq<Sample>, draw: nat -> Option<nat>, refused: set<nat>)

  function After(b: Book, now: Input): Book {
    Evaluated(b, now.rules, now.samples, now.draw, now.refused).book
  }

  function Passes(b: Book, inputs: seq<Input>): Book
    decreases |inputs|
  {
    if inputs == [] then b
    else Passes(After(b, inputs[0]), inputs[1..])
  }

  ghost predicate AreSupplied(b: Book, inputs: seq<Input>)
    decreases |inputs|
  {
    inputs != [] ==>
      && IsSupplied(Pass(b, [], 0), inputs[0].draw)
      && AreSupplied(After(b, inputs[0]), inputs[1..])
  }

  /** Passes follow each other: the next one finds the tables the others have left. */
  lemma {:induction false} PassesSnoc(b: Book, inputs: seq<Input>, now: Input)
    ensures Passes(b, inputs + [now]) == After(Passes(b, inputs), now)
    ensures AreSupplied(b, inputs + [now]) <==> AreSupplied(b, inputs) && IsSupplied(Pass(Passes(b, inputs), [], 0), now.draw)
    decreases |inputs|
  {
    if inputs == [] {
      assert [] + [now] == [now] && [now][1..] == [];
    } else {
      assert (inputs + [now])[1..] == inputs[1..] + [now];
      PassesSnoc(After(b, inputs[0]), inputs[1..], now);
    }
  }

  lemma QueueGrows(b: Book, r: Book, id: nat)
    requires id in b.alerts && forall other :: other in b.alerts ==> other in r.alerts && r.alerts[other].openedAt == b.alerts[other].openedAt
    ensures |Queue(b, id)| <= |Queue(r, id)|
  {
    SubsetIsSmaller(Queue(b, id), Queue(r, id));
  }

  lemma StarvedOnce(b: Book, now: Input, id: nat)
    requires KeysMatch(b) && IsSupplied(Pass(b, [], 0), now.draw) && IsUnresolved(b, id) && |Queue(b, id)| >= PAGE
    ensures var after := Evaluated(b, now.rules, now.samples, now.draw, now.refused).book;
            KeysMatch(after) && IsUnresolved(after, id) && |Queue(after, id)| >= PAGE
  {
    hide *;
    var mid := AfterOpening(b, now.rules, now.samples, now.draw);
    var after := Evaluated(b, now.rules, now.samples, now.draw, now.refused).book;
    PassIsExact(b, now.rules, now.samples, now.draw, now.refused);
    UnresolvedIs(b);
    UnresolvedIs(mid);
    UnresolvedIs(after);
    QueueGrows(b, mid, id);
    FarBehind(mid, now.rules, now.samples, now.refused, id);
    QueueGrows(mid, after, id);
  }

  lemma FarBehind(b: Book, rules: map<nat, Rule>, samples: seq<Sample>, refused: set<nat>, id: nat)
    requires id in b.alerts && |Queue(b, id)| >= PAGE
    ensures !IsSettled(b, rules, samples, refused, id)
  {
    hide Queue, IsOver;
  }

  /**
    The listing starts from the oldest episode and includes resolved ones, so an open alert with five hundred episodes
    before it is resolved by no pass at all, whatever the samples say, until retention removes some of those.
   */
  lemma {:induction false} StarvedForever(b: Book, inputs: seq<Input>, id: nat)
    requires KeysMatch(b) && AreSupplied(b, inputs) && IsUnresolved(b, id) && |Queue(b, id)| >= PAGE
    ensures IsUnresolved(Passes(b, inputs), id)
    decreases |inputs|
  {
    if inputs != [] {
      var now := inputs[0];
      assert IsSupplied(Pass(b, [], 0), now.draw);
      StarvedOnce(b, now, id);
      hide KeysMatch, IsSupplied, Evaluated, AfterOpening, Queue, IsUnresolved;
      StarvedForever(Evaluated(b, now.rules, now.samples, now.draw, now.refused).book, inputs[1..], id);
    }
  }

  // ------------------------------------------------------------------- the evaluator

  /** The last sample of each source. */
  method BySource(samples: seq<Sample>) returns (latest: map<string, Sample>)
    ensures forall source :: LastOf(samples, source) == if source in latest then Some(latest[source]) else None
  {
    latest := map[];
    for i := 0 to |samples|
      invariant forall source :: LastOf(samples[..i], source) == if source in latest then Some(latest[source]) else None
    {
      assert samples[..i + 1][..i] == samples[..i];
      latest := latest[samples[i].source := samples[i]];
    }
    assert samples[..|samples|] == samples;
  }

  method OpenEpisodes(tables: AlertTables, rules: map<nat, Rule>, order: seq<nat>, samples: seq<Sample>, draw: nat -> Option<nat>)
    returns (announced: seq<nat>, ghost tries: nat)
    requires forall id :: id in order ==> id in rules
    modifies tables
    ensures Pass(tables.Value(), announced, tries) == OpenAll(Pass(old(tables.Value()), [], 0), rules, order, samples, draw, |samples|)
  {
    announced := [];
    var tried := 0;
    ghost var start := Pass(tables.Value(), [], 0);
    for i := 0 to |samples|
      invariant Pass(tables.Value(), announced, tried) == OpenAll(start, rules, order, samples, draw, i)
    {
      ghost var row := Pass(tables.Value(), announced, tried);
      for j := 0 to |order|
        invariant Pass(tables.Value(), announced, tried) == OpenFor(row, rules, order, samples[i], draw, j)
      {
        var rule := rules[order[j]];
        if rule.enabled && Matches(rule, samples[i]) {
          var id := draw(tried);
          tried := tried + 1;
          if id.Some? {
            var created := tables.UpsertAlertEpisode(id.value, Key(order[j], samples[i].source, rule.cause), samples[i].at);
            if created {
              announced := announced + [id.value];
            }
          }
        }
      }
    }
    tries := tried;
  }

  method ResolveEpisodes(tables: AlertTables, rules: map<nat, Rule>, order: seq<nat>, samples: seq<Sample>, refused: set<nat>, soFar: seq<nat>, ghost tries: nat)
    returns (announced: seq<nat>)
    requires forall id :: id in order ==> id in rules
    modifies tables
    ensures var read := old(tables.Value());
            var page := ListedAlerts(read);
            Pass(tables.Value(), announced, tries) == ResolveAll(Pass(read, soFar, tries), read, rules, order, samples, page, refused, |page|)
  {
    announced := soFar;
    var latest := BySource(samples);
    var episodes := tables.alerts;
    var page := FirstPage(map id | id in episodes :: episodes[id].openedAt);
    ghost var read := tables.Value();
    ListedAlertsExist(read);
    for i := 0 to |page|
      invariant Pass(tables.Value(), announced, tries) == ResolveAll(Pass(read, soFar, tries), read, rules, order, samples, page, refused, i)
    {
      var id := page[i];
      var key := episodes[id].key;
      if episodes[id].state != Resolved && key.rule in order && rules[key.rule].enabled && key.source in latest {
        if !Matches(rules[key.rule], latest[key.source]) && id !in refused {
          var updated := tables.ResolveAlertEpisode(id);
          if updated {
            announced := announced + [id];
          }
        }
      }
    }
  }

  /** One pass over the tables. */
  method EvaluateSamples(tables: AlertTables, rules: map<nat, Rule>, samples: seq<Sample>, draw: nat -> Option<nat>, refused: set<nat>)
    returns (announced: seq<nat>)
    modifies tables
    ensures var pass := Evaluated(old(tables.Value()), rules, samples, draw, refused);
            tables.Value() == pass.book && announced == pass.announced
  {
    var order := ListedRules(rules);
    ListedRulesExist(rules);
    var created, tries := OpenEpisodes(tables, rules, order, samples, draw);
    announced := ResolveEpisodes(tables, rules, order, samples, refused, created, tries);
  }
}
