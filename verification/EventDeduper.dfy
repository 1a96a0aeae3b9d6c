/** Bounded de-duplication of terminal events by their identifier. */
module EventDeduper {
  import opened Options

  const CAPACITY := 1_024

  function Newest(ids: seq<string>): seq<string> {
    if |ids| <= CAPACITY then ids else ids[|ids| - CAPACITY..]
  }

  /** The identifiers let through so far, after one more event. */
  function Accept(accepted: seq<string>, id: Option<string>): seq<string> {
    if id.None? || id.value in Newest(accepted) then accepted else accepted + [id.value]
  }

  function AcceptAll(accepted: seq<string>, ids: seq<Option<string>>): seq<string>
    decreases |ids|
  {
    if ids == [] then accepted else AcceptAll(Accept(accepted, ids[0]), ids[1..])
  }

  /** Events are taken one after the other: the next one meets the identifiers that the others have left. */
  lemma {:induction false} AcceptAllSnoc(accepted: seq<string>, ids: seq<Option<string>>, id: Option<string>)
    ensures AcceptAll(accepted, ids + [id]) == Accept(AcceptAll(accepted, ids), id)
    decreases |ids|
  {
    if ids == [] {
      assert [] + [id] == [id] && [id][1..] == [];
    } else {
      assert (ids + [id])[1..] == ids[1..] + [id];
      AcceptAllSnoc(Accept(accepted, ids[0]), ids[1..], id);
    }
  }

  /** Equal identifiers are more than a full cache apart. */
  predicate Spaced(accepted: seq<string>) {
    forall i, j :: 0 <= i < j < |accepted| && accepted[i] == accepted[j] ==> j - i > CAPACITY
  }

  lemma AcceptKeepsSpace(accepted: seq<string>, id: Option<string>)
    requires Spaced(accepted)
    ensures Spaced(Accept(accepted, id))
  {
    forall i | 0 <= i < |accepted| && |accepted| - i <= CAPACITY ensures accepted[i] in Newest(accepted) {
      var k := if |accepted| <= CAPACITY then i else i - (|accepted| - CAPACITY);
      assert Newest(accepted)[k] == accepted[i];
    }
  }

  /** On every input sequence an identifier is let through again only after a full cache of other ones. */
  lemma {:induction false} RepeatsAreFarApart(accepted: seq<string>, ids: seq<Option<string>>)
    requires Spaced(accepted)
    ensures Spaced(AcceptAll(accepted, ids))
    decreases |ids|
  {
    if ids != [] {
      AcceptKeepsSpace(accepted, ids[0]);
      RepeatsAreFarApart(Accept(accepted, ids[0]), ids[1..]);
    }
  }

  /** The newest accepted identifiers are distinct: the window is a duplicate-free list. */
  lemma NewestAreDistinct(accepted: seq<string>)
    requires Spaced(accepted)
    ensures |Newest(accepted)| <= CAPACITY
    ensures forall i, j :: 0 <= i < j < |Newest(accepted)| ==> Newest(accepted)[i] != Newest(accepted)[j]
  {
    var from := |accepted| - |Newest(accepted)|;
    assert forall k :: 0 <= k < |Newest(accepted)| ==> Newest(accepted)[k] == accepted[from + k];
  }

  /** An identifier is let through a second time exactly when a full cache of other ones has passed since. */
  lemma RepeatedIffForgotten(accepted: seq<string>, since: seq<string>, id: string)
    requires id !in since
    ensures var all := accepted + [id] + since; Accept(all, Some(id)) == all + [id] <==> |since| >= CAPACITY
  {
    var all := accepted + [id] + since;
    if |since| >= CAPACITY {
      assert all[|all| - CAPACITY..] == since[|since| - CAPACITY..];
    } else {
      var k := if |all| <= CAPACITY then |accepted| else |accepted| - (|all| - CAPACITY);
      assert Newest(all)[k] == id;
    }
  }

  lemma Shifted(window: seq<string>, id: string)
    requires window != [] && id !in window
    requires forall i, j :: 0 <= i < j < |window| ==> window[i] != window[j]
    ensures forall x :: x in (window + [id])[1..] <==> x == id || (x in window && x != window[0])
  {
    assert window == [window[0]] + window[1..];
    assert (window + [id])[1..] == window[1..] + [id];
  }

  class Deduper {
    var eventIds: set<string>
    var insertionOrder: seq<string>
    ghost var accepted: seq<string>

    constructor ()
      ensures Valid() && accepted == []
    {
      eventIds, insertionOrder, accepted := {}, [], [];
    }

    /** Set and queue hold the same identifiers: the newest accepted ones, each once. */
    ghost predicate Valid()
      reads this
    {
      && Spaced(accepted)
      && insertionOrder == Newest(accepted)
      && forall id :: id in eventIds <==> id in insertionOrder
    }

    method ShouldEmit(eventId: Option<string>) returns (emit: bool)
      requires Valid()
      modifies this
      ensures Valid()
      ensures emit <==> eventId.None? || eventId.value !in Newest(old(accepted))
      ensures accepted == Accept(old(accepted), eventId)
    {
      if eventId.None? {
        return true;
      }
      var id := eventId.value;
      if id in eventIds {
        return false;
      }
      AcceptKeepsSpace(accepted, eventId);
      accepted := accepted + [id];
      eventIds := eventIds + {id};
      insertionOrder := insertionOrder + [id];
      if |insertionOrder| > CAPACITY {
        var expired := insertionOrder[0];
        assert insertionOrder == [expired] + insertionOrder[1..];
        insertionOrder := insertionOrder[1..];
        eventIds := eventIds - {expired};
        assert insertionOrder == Newest(accepted);
        NewestAreDistinct(old(accepted));
        Shifted(old(insertionOrder), id);
      }
      return true;
    }
  }
}
