/**
  Names in character order, and lists kept in that order.  A list of named records is
  read as a table in which the last record of a name wins; sorting a table's records
  gives strictly increasing names, and two increasing lists of the same table are
  equal.  The planner and the page reader both rest on these facts.
 */
module Names {

  /** Strict lexicographic order. */
  predicate Below(a: string, b: string) {
    b != [] && (a == [] || a[0] < b[0] || (a[0] == b[0] && Below(a[1..], b[1..])))
  }

  predicate AtMost(a: string, b: string) {
    a == b || Below(a, b)
  }

  lemma {:induction false} BelowIsTotal(a: string, b: string)
    ensures !(Below(a, b) && Below(b, a))
    ensures a == b ==> !Below(a, b)
    ensures a == b || Below(a, b) || Below(b, a)
  {
    if a != [] && b != [] && a[0] == b[0] {
      BelowIsTotal(a[1..], b[1..]);
      assert a == [a[0]] + a[1..] && b == [b[0]] + b[1..];
    }
  }

  lemma {:induction false} BelowIsTransitive(a: string, b: string, c: string)
    requires Below(a, b) && Below(b, c)
    ensures Below(a, c)
  {
    if a != [] && a[0] == b[0] && b[0] == c[0] {
      BelowIsTransitive(a[1..], b[1..], c[1..]);
    }
  }

  lemma AtMostThenBelow(a: string, b: string, c: string)
    requires (AtMost(a, b) && Below(b, c)) || (Below(a, b) && AtMost(b, c))
    ensures Below(a, c)
  {
    if Below(a, b) && Below(b, c) {
      BelowIsTransitive(a, b, c);
    }
  }

  ghost predicate Increasing(names: seq<string>) {
    forall i, j :: 0 <= i < j < |names| ==> Below(names[i], names[j])
  }

  ghost predicate NonDecreasing(names: seq<string>) {
    forall i, j :: 0 <= i < j < |names| ==> AtMost(names[i], names[j])
  }

  /** Names are listed apart from the records they name. */
  function NamesOf<T>(items: seq<T>, name: T -> string): (names: seq<string>)
    ensures |names| == |items|
    ensures forall i :: 0 <= i < |items| ==> names[i] == name(items[i])
  {
    seq(|items|, i requires 0 <= i < |items| => name(items[i]))
  }

  predicate Unique<T>(items: seq<T>, name: T -> string) {
    forall i, j :: 0 <= i < j < |items| ==> name(items[i]) != name(items[j])
  }

  /** The table of a list of records; the last record of a name wins. */
  function ByName<T>(items: seq<T>, name: T -> string): map<string, T> {
    if items == [] then map[]
    else
      var last := items[|items| - 1];
      ByName(items[..|items| - 1], name)[name(last) := last]
  }

  lemma TableGrows<T>(base: map<string, T>, items: seq<T>, name: T -> string, i: nat)
    requires i < |items|
    ensures base + ByName(items[..i + 1], name) == (base + ByName(items[..i], name))[name(items[i]) := items[i]]
  {
    assert items[..i + 1][..i] == items[..i];
  }

  lemma {:induction false} NamedIsListed<T>(items: seq<T>, name: T -> string, n: string)
    requires n in ByName(items, name)
    ensures ByName(items, name)[n] in items && name(ByName(items, name)[n]) == n
  {
    if name(items[|items| - 1]) != n {
      NamedIsListed(items[..|items| - 1], name, n);
    }
  }

  lemma {:induction false} ListedIsNamed<T>(items: seq<T>, name: T -> string, item: T)
    requires item in items
    ensures name(item) in ByName(items, name)
    ensures Unique(items, name) ==> ByName(items, name)[name(item)] == item
  {
    if item != items[|items| - 1] {
      assert item in items[..|items| - 1];
      ListedIsNamed(items[..|items| - 1], name, item);
    }
  }

  // ------------------------------------------------------------------- sorting

  function InsertByName<T>(items: seq<T>, item: T, name: T -> string): seq<T> {
    if items == [] || !Below(name(item), name(items[|items| - 1])) then items + [item]
    else InsertByName(items[..|items| - 1], item, name) + [items[|items| - 1]]
  }

  /** The stable sort by name. */
  function SortByName<T>(items: seq<T>, name: T -> string): seq<T> {
    if items == [] then []
    else InsertByName(SortByName(items[..|items| - 1], name), items[|items| - 1], name)
  }

  lemma {:induction false} InsertKeepsRecords<T>(items: seq<T>, item: T, name: T -> string)
    ensures multiset(InsertByName(items, item, name)) == multiset(items) + multiset{item}
  {
    if items != [] && Below(name(item), name(items[|items| - 1])) {
      InsertKeepsRecords(items[..|items| - 1], item, name);
      assert items == items[..|items| - 1] + [items[|items| - 1]];
    }
  }

  lemma {:induction false} InsertKeepsOrder<T>(items: seq<T>, item: T, name: T -> string)
    requires NonDecreasing(NamesOf(items, name))
    ensures NonDecreasing(NamesOf(InsertByName(items, item, name), name))
  {
    var inserted := InsertByName(items, item, name);
    if items == [] || !Below(name(item), name(items[|items| - 1])) {
      forall i, j | 0 <= i < j < |inserted| ensures AtMost(NamesOf(inserted, name)[i], NamesOf(inserted, name)[j]) {
        if j == |items| {
          BelowIsTotal(name(item), name(items[|items| - 1]));
          if i < |items| - 1 {
            assert AtMost(NamesOf(items, name)[i], NamesOf(items, name)[|items| - 1]);
            if Below(name(items[i]), name(items[|items| - 1])) && name(items[|items| - 1]) != name(item) {
              BelowIsTransitive(name(items[i]), name(items[|items| - 1]), name(item));
            }
          }
        } else {
          assert AtMost(NamesOf(items, name)[i], NamesOf(items, name)[j]);
        }
      }
    } else {
      var front, last := items[..|items| - 1], items[|items| - 1];
      assert forall i :: 0 <= i < |front| ==> NamesOf(front, name)[i] == NamesOf(items, name)[i];
      InsertKeepsOrder(front, item, name);
      InsertKeepsRecords(front, item, name);
      var rest := InsertByName(front, item, name);
      forall i, j | 0 <= i < j < |inserted| ensures AtMost(NamesOf(inserted, name)[i], NamesOf(inserted, name)[j]) {
        if j < |rest| {
          assert AtMost(NamesOf(rest, name)[i], NamesOf(rest, name)[j]);
        } else {
          assert rest[i] in multiset(front) + multiset{item};
          if rest[i] in front {
            var k :| 0 <= k < |front| && front[k] == rest[i];
            assert AtMost(NamesOf(items, name)[k], NamesOf(items, name)[|items| - 1]);
          }
        }
      }
    }
  }

  /** Sorting permutes the records and orders them by name. */
  lemma {:induction false} SortIsSorted<T>(items: seq<T>, name: T -> string)
    ensures multiset(SortByName(items, name)) == multiset(items)
    ensures NonDecreasing(NamesOf(SortByName(items, name), name))
  {
    if items != [] {
      SortIsSorted(items[..|items| - 1], name);
      InsertKeepsRecords(SortByName(items[..|items| - 1], name), items[|items| - 1], name);
      InsertKeepsOrder(SortByName(items[..|items| - 1], name), items[|items| - 1], name);
      assert items == items[..|items| - 1] + [items[|items| - 1]];
    }
  }

  lemma {:induction false} UniqueCounts<T>(items: seq<T>, name: T -> string, item: T)
    requires Unique(items, name)
    ensures multiset(items)[item] <= 1
  {
    if items != [] {
      var front, last := items[..|items| - 1], items[|items| - 1];
      UniqueCounts(front, name, item);
      assert items == front + [last];
      assert last !in front;
    }
  }

  lemma TwoPlacesCountTwice<T>(items: seq<T>, i: nat, j: nat)
    requires i < j < |items| && items[i] == items[j]
    ensures multiset(items)[items[i]] >= 2
  {
    var front, back := items[..j], items[j..];
    assert items == front + back;
    assert front[i] in front && back[0] in back;
  }

  lemma UniqueByCount<T>(items: seq<T>, other: seq<T>, name: T -> string)
    requires multiset(items) == multiset(other) && Unique(items, name)
    ensures Unique(other, name)
  {
    forall i, j | 0 <= i < j < |other| ensures name(other[i]) != name(other[j]) {
      assert other[i] in multiset(other) && other[j] in multiset(other);
      assert other[i] in items && other[j] in items;
      if other[i] == other[j] {
        TwoPlacesCountTwice(other, i, j);
        UniqueCounts(items, name, other[i]);
      }
    }
  }

  lemma HasMember<T>(items: seq<T>)
    ensures items == [] || exists item :: item in items
  {
    if items != [] {
      assert items[0] in items;
    }
  }

  lemma SameLast<T>(items: seq<T>, other: seq<T>, name: T -> string)
    requires items != [] && other != []
    requires Increasing(NamesOf(items, name)) && Increasing(NamesOf(other, name))
    requires forall item :: item in items <==> item in other
    ensures items[|items| - 1] == other[|other| - 1]
  {
    var last, otherLast := items[|items| - 1], other[|other| - 1];
    assert last in other && otherLast in items;
    var k :| 0 <= k < |other| && other[k] == last;
    var l :| 0 <= l < |items| && items[l] == otherLast;
    if last != otherLast {
      assert Below(NamesOf(items, name)[l], NamesOf(items, name)[|items| - 1]);
      assert Below(NamesOf(other, name)[k], NamesOf(other, name)[|other| - 1]);
      BelowIsTotal(name(last), name(otherLast));
      assert false;
    }
  }

  lemma FrontIsIncreasing<T>(items: seq<T>, name: T -> string)
    requires items != [] && Increasing(NamesOf(items, name))
    ensures Increasing(NamesOf(items[..|items| - 1], name))
    ensures forall item :: item in items[..|items| - 1] <==> item in items && item != items[|items| - 1]
  {
    var front := items[..|items| - 1];
    assert forall i :: 0 <= i < |front| ==> NamesOf(front, name)[i] == NamesOf(items, name)[i];
    LastIsNotInFront(items, name);
  }

  /** A list in strict name order is determined by its records. */
  lemma {:induction false} OrderIsUnique<T>(items: seq<T>, other: seq<T>, name: T -> string)
    requires Increasing(NamesOf(items, name)) && Increasing(NamesOf(other, name))
    requires forall item :: item in items <==> item in other
    ensures items == other
    decreases |items|
  {
    hide Increasing, NamesOf;
    if items != [] && other != [] {
      SameLast(items, other, name);
      FrontIsIncreasing(items, name);
      FrontIsIncreasing(other, name);
      var front, otherFront := items[..|items| - 1], other[..|other| - 1];
      forall item ensures item in front <==> item in otherFront {
        assert item in items <==> item in other;
      }
      OrderIsUnique(front, otherFront, name);
      assert items == items[..|items| - 1] + [items[|items| - 1]];
    } else {
      HasMember(items);
      HasMember(other);
    }
  }

  lemma LastIsNotInFront<T>(items: seq<T>, name: T -> string)
    requires items != [] && Increasing(NamesOf(items, name))
    ensures items[|items| - 1] !in items[..|items| - 1]
  {
    forall i | 0 <= i < |items| - 1 ensures items[i] != items[|items| - 1] {
      assert Below(NamesOf(items, name)[i], NamesOf(items, name)[|items| - 1]);
      BelowIsTotal(name(items[i]), name(items[|items| - 1]));
    }
  }

  /** Sorting records with distinct names gives the one list in strict name order. */
  lemma SortIsIncreasing<T>(items: seq<T>, name: T -> string)
    requires Unique(items, name)
    ensures Increasing(NamesOf(SortByName(items, name), name))
    ensures forall item :: item in SortByName(items, name) <==> item in items
  {
    var sorted := SortByName(items, name);
    SortIsSorted(items, name);
    UniqueByCount(items, sorted, name);
    forall i, j | 0 <= i < j < |sorted| ensures Below(NamesOf(sorted, name)[i], NamesOf(sorted, name)[j]) {
      assert AtMost(NamesOf(sorted, name)[i], NamesOf(sorted, name)[j]);
    }
    forall item ensures item in sorted <==> item in items {
      assert item in sorted <==> item in multiset(sorted);
    }
  }
}
