/** Name-ordered keyset pages, and following them while the repository changes underneath. */
module Pagination {
  import opened Options
  import opened Names

  datatype Page = Page(records: seq<string>, next: Option<string>, high: string)

  function Itself(name: string): string {
    name
  }

  predicate IsEligible(name: string, cursor: Option<string>, high: string) {
    (cursor.None? || Below(cursor.value, name)) && AtMost(name, high)
  }

  function Retained(names: seq<string>, cursor: Option<string>, high: string): (kept: seq<string>)
    ensures forall n :: n in kept <==> n in names && IsEligible(n, cursor, high)
  {
    if names == [] then []
    else (if IsEligible(names[0], cursor, high) then [names[0]] else []) + Retained(names[1..], cursor, high)
  }

  /** Without a watermark the greatest name is one. */
  function Watermark(sorted: seq<string>, high: Option<string>): string {
    if high.Some? then high.value else if sorted != [] then sorted[|sorted| - 1] else ""
  }

  function ListPage(names: seq<string>, cursor: Option<string>, high: Option<string>, limit: nat): Page {
    var sorted := SortByName(names, Itself);
    var mark := Watermark(sorted, high);
    var kept := Retained(sorted, cursor, mark);
    var records := if |kept| > limit then kept[..limit] else kept;
    Page(records, if |kept| > limit && records != [] then Some(records[|records| - 1]) else None, mark)
  }

  method Retain(names: seq<string>, cursor: Option<string>, high: string) returns (kept: seq<string>)
    ensures kept == Retained(names, cursor, high)
  {
    hide IsEligible;
    kept := [];
    assert names[0..] == names;
    for i := 0 to |names|
      invariant kept + Retained(names[i..], cursor, high) == Retained(names, cursor, high)
    {
      assert names[i..][1..] == names[i + 1..];
      var rest := Retained(names[i + 1..], cursor, high);
      assert kept + [names[i]] + rest == kept + ([names[i]] + rest);
      if IsEligible(names[i], cursor, high) {
        kept := kept + [names[i]];
      } else {
        assert [] + rest == rest;
      }
    }
  }

  /** Sort, keep what the cursor and the watermark let through, cut to the limit. */
  method ListSpecsPage(names: seq<string>, cursor: Option<string>, high: Option<string>, limit: nat) returns (page: Page)
    ensures page == ListPage(names, cursor, high, limit)
  {
    var sorted := SortByName(names, Itself);
    var mark := Watermark(sorted, high);
    var kept := Retain(sorted, cursor, mark);
    var more := |kept| > limit;
    if more {
      kept := kept[..limit];
    }
    page := Page(kept, if more && kept != [] then Some(kept[|kept| - 1]) else None, mark);
  }

  // ------------------------------------------------------------------- one page

  predicate Distinct(names: seq<string>) {
    forall i, j :: 0 <= i < j < |names| ==> names[i] != names[j]
  }

  lemma {:induction false} RetainingKeepsOrder(names: seq<string>, cursor: Option<string>, high: string)
    requires Increasing(names)
    ensures Increasing(Retained(names, cursor, high))
    decreases |names|
  {
    if names != [] {
      var rest := Retained(names[1..], cursor, high);
      RetainingKeepsOrder(names[1..], cursor, high);
      forall k | 0 <= k < |rest| ensures Below(names[0], rest[k]) {
        assert rest[k] in rest;
        var i :| 0 <= i < |names[1..]| && names[1..][i] == rest[k];
        assert Below(names[0], names[i + 1]);
      }
    }
  }

  /** A page is the first `limit` eligible names in increasing order, and says whether there are more. */
  lemma PageIsTheNextNames(names: seq<string>, cursor: Option<string>, high: string, limit: nat)
    requires Distinct(names)
    ensures var page := ListPage(names, cursor, Some(high), limit);
            && page.high == high
            && Increasing(page.records) && |page.records| <= limit
            && (forall n :: n in page.records ==> n in names && IsEligible(n, cursor, high))
            && (page.next.None? && limit > 0 ==> forall n :: n in names && IsEligible(n, cursor, high) ==> n in page.records)
            && (page.next.Some? ==>
                  |page.records| == limit > 0 && page.next.value == page.records[limit - 1]
                  && forall n :: n in names && IsEligible(n, cursor, high) && AtMost(n, page.next.value) ==> n in page.records)
  {
    var sorted := SortByName(names, Itself);
    var kept := Retained(sorted, cursor, high);
    SortIsIncreasing(names, Itself);
    assert NamesOf(sorted, Itself) == sorted;
    RetainingKeepsOrder(sorted, cursor, high);
    var page := ListPage(names, cursor, Some(high), limit);
    if page.next.Some? {
      forall n | n in names && IsEligible(n, cursor, high) && AtMost(n, page.next.value) ensures n in page.records {
        var i :| 0 <= i < |kept| && kept[i] == n;
        if i >= limit {
          assert Below(kept[limit - 1], kept[i]);
          BelowIsTotal(kept[limit - 1], kept[i]);
        }
      }
    }
  }

  // ------------------------------------------------------------------- following pages

  datatype Followed = Followed(records: seq<string>, completed: bool)

  /** Fetch page after page, each from the repository as it is by then, under one watermark. */
  function Follow(repositories: seq<seq<string>>, cursor: Option<string>, high: string, limit: nat): Followed
    decreases |repositories|
  {
    if repositories == [] then Followed([], false)
    else
      var page := ListPage(repositories[0], cursor, Some(high), limit);
      if page.next.None? then Followed(page.records, true)
      else
        var rest := Follow(repositories[1..], page.next, high, limit);
        Followed(page.records + rest.records, rest.completed)
  }

  predicate AllDistinct(repositories: seq<seq<string>>) {
    forall i :: 0 <= i < |repositories| ==> Distinct(repositories[i])
  }

  predicate ExistsThroughout(name: string, repositories: seq<seq<string>>) {
    forall i :: 0 <= i < |repositories| ==> name in repositories[i]
  }

  /**
    Whatever is inserted or deleted between pages: the names come out in strictly increasing order, each was there
    when its page was read, and a completed follow has every name that was there throughout.
   */
  lemma {:induction false} FollowIsOrderedAndComplete(repositories: seq<seq<string>>, cursor: Option<string>, high: string, limit: nat)
    requires AllDistinct(repositories) && limit > 0
    ensures var f := Follow(repositories, cursor, high, limit);
            && Increasing(f.records)
            && (forall n :: n in f.records ==> IsEligible(n, cursor, high) && exists i :: 0 <= i < |repositories| && n in repositories[i])
            && (f.completed ==> forall n :: ExistsThroughout(n, repositories) && IsEligible(n, cursor, high) ==> n in f.records)
    decreases |repositories|
  {
    if repositories != [] {
      var page := ListPage(repositories[0], cursor, Some(high), limit);
      PageIsTheNextNames(repositories[0], cursor, high, limit);
      if page.next.Some? {
        hide ListPage, Increasing;
        FollowIsOrderedAndComplete(repositories[1..], page.next, high, limit);
        FollowStep(repositories, cursor, high, limit, page, Follow(repositories[1..], page.next, high, limit));
      }
    }
  }

  lemma FollowStep(repositories: seq<seq<string>>, cursor: Option<string>, high: string, limit: nat, page: Page, rest: Followed)
    requires repositories != [] && limit > 0 && page.next.Some?
    requires Increasing(page.records) && Increasing(rest.records)
    requires forall n :: n in page.records ==> n in repositories[0] && IsEligible(n, cursor, high)
    requires |page.records| == limit && page.next.value == page.records[limit - 1]
    requires forall n :: n in repositories[0] && IsEligible(n, cursor, high) && AtMost(n, page.next.value) ==> n in page.records
    requires forall n :: n in rest.records ==> IsEligible(n, page.next, high) && exists i :: 0 <= i < |repositories| - 1 && n in repositories[1..][i]
    requires rest.completed ==> forall n :: ExistsThroughout(n, repositories[1..]) && IsEligible(n, page.next, high) ==> n in rest.records
    ensures Increasing(page.records + rest.records)
    ensures forall n :: n in page.records + rest.records ==>
      IsEligible(n, cursor, high) && exists i :: 0 <= i < |repositories| && n in repositories[i]
    ensures rest.completed ==> forall n :: ExistsThroughout(n, repositories) && IsEligible(n, cursor, high) ==> n in page.records + rest.records
  {
    var last := page.next.value;
    assert last in page.records;
    PagesJoin(page.records, rest.records);
    forall n | n in rest.records ensures IsEligible(n, cursor, high) && exists i :: 0 <= i < |repositories| && n in repositories[i] {
      if cursor.Some? {
        BelowIsTransitive(cursor.value, last, n);
      }
      var i :| 0 <= i < |repositories| - 1 && n in repositories[1..][i];
      assert n in repositories[i + 1];
    }
    if rest.completed {
      forall n | ExistsThroughout(n, repositories) && IsEligible(n, cursor, high) ensures n in page.records + rest.records {
        assert ExistsThroughout(n, repositories[1..]);
        BelowIsTotal(n, last);
      }
    }
  }

  lemma PagesJoin(first: seq<string>, rest: seq<string>)
    requires Increasing(first) && Increasing(rest) && first != []
    requires forall n :: n in rest ==> Below(first[|first| - 1], n)
    ensures Increasing(first + rest)
  {
    forall i, j | 0 <= i < j < |first + rest| ensures Below((first + rest)[i], (first + rest)[j]) {
      if i < |first| <= j {
        assert rest[j - |first|] in rest;
        if i < |first| - 1 {
          BelowIsTransitive(first[i], first[|first| - 1], rest[j - |first|]);
        }
      }
    }
  }

  /** A whole listing: the first page is asked for without a watermark, and its answer is the watermark of the others. */
  function FollowAll(repositories: seq<seq<string>>, limit: nat): Followed {
    if repositories == [] then Followed([], false)
    else
      var page := ListPage(repositories[0], None, None, limit);
      if page.next.None? then Followed(page.records, true)
      else
        var rest := Follow(repositories[1..], page.next, page.high, limit);
        Followed(page.records + rest.records, rest.completed)
  }

  /** A page without a watermark has the greatest name for one, and is the page under that watermark. */
  lemma FirstPageWatermark(names: seq<string>, cursor: Option<string>, limit: nat)
    requires Distinct(names)
    ensures var page := ListPage(names, cursor, None, limit);
            && page == ListPage(names, cursor, Some(page.high), limit)
            && (forall n :: n in names ==> AtMost(n, page.high))
            && (if names == [] then page.high == "" else page.high in names)
  {
    var sorted := SortByName(names, Itself);
    SortIsIncreasing(names, Itself);
    assert NamesOf(sorted, Itself) == sorted;
    hide Below;
    if names != [] {
      assert names[0] in sorted;
    }
    forall n | n in names ensures AtMost(n, Watermark(sorted, None)) {
      var i :| 0 <= i < |sorted| && sorted[i] == n;
      assert i < |sorted| - 1 ==> Below(sorted[i], sorted[|sorted| - 1]);
    }
  }

  /**
    A completed listing has every name that was there throughout, in increasing order, whatever came and went between
    its pages; a name above all that were there at the first page never appears.
   */
  lemma ListingIsComplete(repositories: seq<seq<string>>, limit: nat)
    requires AllDistinct(repositories) && limit > 0 && repositories != []
    ensures var f := FollowAll(repositories, limit);
            && Increasing(f.records)
            && (forall n :: n in f.records ==> exists i :: 0 <= i < |repositories| && n in repositories[i])
            && (f.completed ==> forall n :: ExistsThroughout(n, repositories) ==> n in f.records)
    ensures forall n :: n in FollowAll(repositories, limit).records && repositories[0] != [] ==>
              exists m :: m in repositories[0] && AtMost(n, m)
  {
    var page := ListPage(repositories[0], None, None, limit);
    FirstPageWatermark(repositories[0], None, limit);
    assert FollowAll(repositories, limit) == Follow(repositories, None, page.high, limit);
    FollowIsOrderedAndComplete(repositories, None, page.high, limit);
    hide FollowAll, Follow, ListPage, Increasing, AtMost;
    forall n | ExistsThroughout(n, repositories) ensures IsEligible(n, None, page.high) {
      assert n in repositories[0];
    }
  }

  // ------------------------------------------------------------------- when it ends

  lemma OneMorePage(pages: nat, limit: nat)
    requires pages > 0
    ensures pages * limit == limit + (pages - 1) * limit
  {
  }

  lemma {:induction false} UnfinishedPagesAreFull(repositories: seq<seq<string>>, cursor: Option<string>, high: string, limit: nat)
    requires AllDistinct(repositories) && limit > 0
    requires !Follow(repositories, cursor, high, limit).completed
    ensures |Follow(repositories, cursor, high, limit).records| == |repositories| * limit
    decreases |repositories|
  {
    if repositories != [] {
      PageIsTheNextNames(repositories[0], cursor, high, limit);
      var page := ListPage(repositories[0], cursor, Some(high), limit);
      hide ListPage;
      UnfinishedPagesAreFull(repositories[1..], page.next, high, limit);
      OneMorePage(|repositories|, limit);
    }
  }

  lemma {:induction false} DistinctNamesFit(names: seq<string>, universe: set<string>)
    requires Increasing(names) && forall n :: n in names ==> n in universe
    ensures |names| <= |universe|
    decreases |names|
  {
    if names != [] {
      var front, last := names[..|names| - 1], names[|names| - 1];
      forall i | 0 <= i < |front| ensures front[i] != last {
        BelowIsTotal(names[i], last);
      }
      DistinctNamesFit(front, universe - {last});
    }
  }

  /** If all names ever present come from a finite set, following ends within a page for every `limit` of them and one more. */
  lemma FollowTerminates(repositories: seq<seq<string>>, cursor: Option<string>, high: string, limit: nat, universe: set<string>)
    requires AllDistinct(repositories) && limit > 0
    requires forall i, n :: 0 <= i < |repositories| && n in repositories[i] ==> n in universe
    requires |repositories| * limit > |universe|
    ensures Follow(repositories, cursor, high, limit).completed
  {
    var f := Follow(repositories, cursor, high, limit);
    if !f.completed {
      UnfinishedPagesAreFull(repositories, cursor, high, limit);
      FollowIsOrderedAndComplete(repositories, cursor, high, limit);
      hide Follow;
      DistinctNamesFit(f.records, universe);
    }
  }

  /** With a limit of zero a page is empty and says there is nothing more, whatever the repository holds. */
  lemma ZeroLimitReturnsNothing(repositories: seq<seq<string>>, cursor: Option<string>, high: string)
    requires repositories != []
    ensures Follow(repositories, cursor, high, 0) == Followed([], true)
  {
  }

  function Letters(count: nat): string {
    if count == 0 then "" else "a" + Letters(count - 1)
  }

  /** A repository that always holds one more name before the watermark. */
  function Growing(from: nat, pages: nat): seq<seq<string>>
    decreases pages
  {
    if pages == 0 then [] else [[Letters(from + 1), "b"]] + Growing(from + 1, pages - 1)
  }

  lemma {:induction false} LettersGrow(count: nat)
    ensures Below(Letters(count), Letters(count + 1)) && (count > 0 ==> Below(Letters(count), "b"))
  {
    if count > 0 {
      LettersGrow(count - 1);
      assert Letters(count)[1..] == Letters(count - 1) && Letters(count + 1)[1..] == Letters(count);
    }
  }

  lemma SortTwo(a: string, b: string)
    requires Below(a, b)
    ensures SortByName([a, b], Itself) == [a, b]
  {
    BelowIsTotal(a, b);
    hide Below;
    assert [a, b][..1] == [a] && [a][..0] == [];
    assert SortByName([a], Itself) == [a];
  }

  lemma RetainTwo(a: string, b: string, cursor: Option<string>, high: string)
    requires IsEligible(a, cursor, high) && IsEligible(b, cursor, high)
    ensures Retained([a, b], cursor, high) == [a, b]
  {
    hide IsEligible;
    assert [a, b][1..] == [b] && [b][1..] == [];
    assert Retained([b], cursor, high) == [b];
  }

  lemma GrowingEligible(from: nat)
    ensures IsEligible(Letters(from + 1), Some(Letters(from)), "b") && IsEligible("b", Some(Letters(from)), "b")
    ensures Below(Letters(from + 1), "b")
  {
    LettersGrow(from);
    LettersGrow(from + 1);
    if from == 0 {
      assert Letters(0) == "";
    }
  }

  lemma GrowingPage(from: nat)
    ensures ListPage([Letters(from + 1), "b"], Some(Letters(from)), Some("b"), 1) == Page([Letters(from + 1)], Some(Letters(from + 1)), "b")
  {
    hide Letters, SortByName, Retained, Below, IsEligible;
    GrowingEligible(from);
    SortTwo(Letters(from + 1), "b");
    RetainTwo(Letters(from + 1), "b", Some(Letters(from)), "b");
  }

  /** Without a bound on what is inserted below the watermark, following need never end. */
  lemma {:induction false} FollowNeedNotTerminate(from: nat, pages: nat)
    ensures |Growing(from, pages)| == pages
    ensures !Follow(Growing(from, pages), Some(Letters(from)), "b", 1).completed
    decreases pages
  {
    if pages > 0 {
      GrowingPage(from);
      hide ListPage;
      FollowNeedNotTerminate(from + 1, pages - 1);
      assert Growing(from, pages)[1..] == Growing(from + 1, pages - 1);
    }
  }
}
