/**
  Following a log: a producer, a server that subscribes before it takes its snapshot
  and filters the broadcast by the snapshot's high-watermark, and a client that
  recovers by cursor.  Lines are their sequence numbers.
 */
module LogFollow {
  import opened Options
  import LogFiles
  import LogInvariant
  import LogReads

  datatype Frame = LineFrame(sequence: nat) | DroppedFrame

  /** A server side connection: first only subscribed, then streaming its snapshot and the broadcast. */
  datatype Connection =
    | Subscribed(position: nat)
    | Streaming(position: nat, high: nat, lastSent: nat, frames: seq<Frame>)

  /**
    `produced` lines were appended and the first `dropped` of them have expired.  The client has
    printed `printed` up to `last`; `mark` and `base` remember both after its initial page.
   */
  datatype State = State(
    produced: nat,
    dropped: nat,
    started: bool,
    printed: seq<nat>,
    last: nat,
    mark: nat,
    base: nat,
    connection: Option<Connection>)

  datatype Event =
    | Produce
    | Expire(upTo: nat)
    | Page(tail: nat, fails: bool)
    | Subscribe
    | Snapshot(fails: bool)
    | Receive
    | Lag(upTo: nat)
    | Deliver
    | Disconnect

  /** The numbers after `from` up to `to`. */
  function Range(from: nat, to: nat): (lines: seq<nat>)
    ensures |lines| == if from < to then to - from else 0
    ensures forall i :: 0 <= i < |lines| ==> lines[i] == from + 1 + i
  {
    seq(if from < to then to - from else 0, i => from + 1 + i)
  }

  function Max(x: nat, y: nat): nat {
    if x < y then y else x
  }

  // ------------------------------------------------------------------- the client

  datatype Client = Client(last: nat, printed: seq<nat>)

  function Print(client: Client, sequence: nat): Client {
    Client(sequence, client.printed + [sequence])
  }

  function Consume(client: Client, sequence: nat): Client {
    if sequence > client.last then Print(client, sequence) else client
  }

  function ConsumeAll(client: Client, lines: seq<nat>): Client
    decreases |lines|
  {
    if lines == [] then client else ConsumeAll(Consume(client, lines[0]), lines[1..])
  }

  function Newest(lines: seq<nat>, count: nat): seq<nat> {
    if |lines| <= count then lines else lines[|lines| - count..]
  }

  /** A tail of zero means everything retained. */
  function Tail(lines: seq<nat>, tail: nat): seq<nat> {
    if tail == 0 then lines else Newest(lines, tail)
  }

  function ClientOf(s: State): Client {
    Client(s.last, s.printed)
  }

  function WithClient(s: State, client: Client): State {
    s.(last := client.last, printed := client.printed)
  }

  // ------------------------------------------------------------------- the server

  /** What a cursor read returns; a failed read is reported as an empty page. */
  function PageLines(s: State, fails: bool): seq<nat> {
    if fails then [] else Range(Max(s.last, s.dropped), s.produced)
  }

  /** These pages are the journal's unbounded cursor reads. */
  lemma PagesAreCursorReads(s: State, log: seq<LogFiles.Line>)
    requires LogInvariant.WellNumbered(log) && |log| == s.produced && s.last <= s.produced && s.dropped <= s.produced
    ensures var page := LogReads.Snapshot(log[s.dropped..], 0, None, Some(s.last), |log|,
                                          if s.dropped < |log| then Some(s.dropped + 1) else None);
            && !page.truncated && page.high == s.produced
            && |page.lines| == |PageLines(s, false)|
            && (forall i :: 0 <= i < |page.lines| ==> page.lines[i].sequence == PageLines(s, false)[i])
            && (s.dropped < s.produced ==> (page.cursorExpired <==> s.last < s.dropped))
  {
    LogReads.CursorPageIsExact(log, s.dropped, s.last, 0);
    LogReads.CursorFilter(log, s.dropped, s.last);
  }

  function Frames(lines: seq<nat>): seq<Frame> {
    seq(|lines|, i requires 0 <= i < |lines| => LineFrame(lines[i]))
  }

  function Opened(s: State, position: nat, fails: bool): Connection {
    var lines := PageLines(s, fails);
    Streaming(position, if fails then 0 else s.produced, if lines == [] then 0 else lines[|lines| - 1], Frames(lines))
  }

  /** One broadcast line: filtered by the snapshot and by what was already sent. */
  function Forward(c: Connection): Connection
    requires c.Streaming?
  {
    var sequence := c.position + 1;
    var moved := c.(position := sequence);
    if sequence <= c.high || sequence <= c.lastSent then moved
    else moved.(frames := c.frames + [LineFrame(sequence)], lastSent := Max(c.lastSent, sequence))
  }

  function FirstPage(s: State, tail: nat, fails: bool): State {
    var client := ConsumeAll(ClientOf(s), if fails then [] else Tail(Range(s.dropped, s.produced), tail));
    WithClient(s, client).(started := true, mark := |client.printed|, base := client.last)
  }

  lemma FirstPageLines(log: seq<LogFiles.Line>, dropped: nat, tail: nat, after: Option<nat>, earliest: Option<nat>)
    requires LogInvariant.WellNumbered(log) && dropped <= |log| && after in {None, Some(0)}
    ensures LogReads.Snapshot(log[dropped..], tail, None, after, |log|, earliest).lines == LogReads.Last(log[dropped..], tail)
  {
    LogReads.NoFilterKeepsAll(log[dropped..]);
    LogReads.FilteredAboveCursor(log[dropped..], 0);
    hide LogReads.Filtered;
  }

  function NumbersOf(lines: seq<LogFiles.Line>): seq<nat> {
    seq(|lines|, i requires 0 <= i < |lines| => lines[i].sequence)
  }

  lemma TailNumbers(log: seq<LogFiles.Line>, dropped: nat, tail: nat)
    requires LogInvariant.WellNumbered(log) && dropped <= |log|
    ensures NumbersOf(LogReads.Last(log[dropped..], tail)) == Tail(Range(dropped, |log|), tail)
  {
  }

  /** The initial page prints the journal's read of the last `tail` lines, with no cursor or with the cursor at zero. */
  lemma FirstPageIsARead(s: State, log: seq<LogFiles.Line>, tail: nat, after: Option<nat>)
    requires LogInvariant.WellNumbered(log) && |log| == s.produced && s.dropped <= s.produced && after in {None, Some(0)}
    ensures var page := LogReads.Snapshot(log[s.dropped..], tail, None, after, |log|,
                                          if s.dropped < |log| then Some(s.dropped + 1) else None);
            && page.lines == LogReads.Last(log[s.dropped..], tail)
            && ClientOf(FirstPage(s, tail, false)) == ConsumeAll(ClientOf(s), NumbersOf(page.lines))
  {
    FirstPageLines(log, s.dropped, tail, after, if s.dropped < |log| then Some(s.dropped + 1) else None);
    TailNumbers(log, s.dropped, tail);
    hide LogReads.Snapshot, LogReads.Last, Tail, Range, NumbersOf, ConsumeAll;
  }

  function Step(s: State, event: Event): State {
    match event
    case Produce => s.(produced := s.produced + 1)
    case Expire(upTo) => if s.dropped <= upTo <= s.produced then s.(dropped := upTo) else s
    case Page(tail, fails) =>
      if s.connection.Some? then s
      else if !s.started then FirstPage(s, tail, fails)
      else WithClient(s, ConsumeAll(ClientOf(s), PageLines(s, fails)))
    case Subscribe => if s.started && s.connection.None? then s.(connection := Some(Subscribed(s.produced))) else s
    case Snapshot(fails) =>
      if s.connection.Some? && s.connection.value.Subscribed? then
        s.(connection := Some(Opened(s, s.connection.value.position, fails)))
      else s
    case Receive =>
      if s.connection.Some? && s.connection.value.Streaming? && s.connection.value.position < s.produced then
        s.(connection := Some(Forward(s.connection.value)))
      else s
    case Lag(upTo) =>
      if s.connection.Some? && s.connection.value.Streaming? && s.connection.value.position < upTo <= s.produced then
        s.(connection := Some(s.connection.value.(position := upTo, frames := s.connection.value.frames + [DroppedFrame])))
      else s
    case Deliver =>
      if s.connection.None? || s.connection.value.Subscribed? || s.connection.value.frames == [] then s
      else
        var frames := s.connection.value.frames;
        if frames[0].DroppedFrame? then s.(connection := None)
        else
          WithClient(s, Consume(ClientOf(s), frames[0].sequence))
          .(connection := Some(s.connection.value.(frames := frames[1..])))
    case Disconnect => s.(connection := None)
  }

  function Life(s: State, events: seq<Event>): State
    decreases |events|
  {
    if events == [] then s else Life(Step(s, events[0]), events[1..])
  }

  const NOTHING := State(0, 0, false, [], 0, 0, 0, None)

  // ------------------------------------------------------------------- in order, once

  /** What is printed increases strictly and never runs ahead of the producer. */
  ghost predicate InOrder(client: Client) {
    && (forall i, j :: 0 <= i < j < |client.printed| ==> client.printed[i] < client.printed[j])
    && forall i :: 0 <= i < |client.printed| ==> client.printed[i] <= client.last
  }

  lemma {:induction false} ConsumeAllKeepsOrder(client: Client, lines: seq<nat>)
    requires InOrder(client)
    ensures InOrder(ConsumeAll(client, lines)) && client.printed <= ConsumeAll(client, lines).printed
    ensures client.last <= ConsumeAll(client, lines).last
    decreases |lines|
  {
    if lines != [] {
      ConsumeAllKeepsOrder(Consume(client, lines[0]), lines[1..]);
    }
  }

  /** Whatever is lost, late or repeated, every line is printed at most once and in order. */
  lemma {:induction false} PrintedStrictlyIncreases(s: State, events: seq<Event>)
    requires InOrder(ClientOf(s))
    ensures InOrder(ClientOf(Life(s, events))) && s.printed <= Life(s, events).printed
    decreases |events|
  {
    if events != [] {
      StepKeepsOrder(s, events[0]);
      PrintedStrictlyIncreases(Step(s, events[0]), events[1..]);
    }
  }

  lemma StepKeepsOrder(s: State, event: Event)
    requires InOrder(ClientOf(s))
    ensures InOrder(ClientOf(Step(s, event))) && s.printed <= Step(s, event).printed && s.last <= Step(s, event).last
  {
    match event
    case Page(tail, fails) =>
      ConsumeAllKeepsOrder(ClientOf(s), PageLines(s, fails));
      ConsumeAllKeepsOrder(ClientOf(s), if fails then [] else Tail(Range(s.dropped, s.produced), tail));
    case _ =>
  }

  // ------------------------------------------------------------------- without gaps

  predicate HasDropped(frames: seq<Frame>) {
    DroppedFrame in frames
  }

  /** Where the client will be once it has consumed these frames. */
  function EndOf(last: nat, frames: seq<Frame>): nat
    decreases |frames|
  {
    if frames == [] || frames[0].DroppedFrame? then last else EndOf(Max(last, frames[0].sequence), frames[1..])
  }

  /** Up to the first dropped frame, no frame skips a line. */
  predicate Gapless(last: nat, frames: seq<Frame>)
    decreases |frames|
  {
    || frames == [] || frames[0].DroppedFrame?
    || (frames[0].sequence <= last + 1 && Gapless(Max(last, frames[0].sequence), frames[1..]))
  }

  lemma {:induction false} GaplessSnoc(last: nat, frames: seq<Frame>, frame: Frame)
    requires Gapless(last, frames)
    requires HasDropped(frames) || frame.DroppedFrame? || frame.sequence <= EndOf(last, frames) + 1
    ensures Gapless(last, frames + [frame])
    ensures !HasDropped(frames) && frame.LineFrame? ==> EndOf(last, frames + [frame]) == Max(EndOf(last, frames), frame.sequence)
    decreases |frames|
  {
    if frames != [] && frames[0].LineFrame? {
      assert (frames + [frame])[1..] == frames[1..] + [frame];
      assert frames == [frames[0]] + frames[1..];
      GaplessSnoc(Max(last, frames[0].sequence), frames[1..], frame);
    }
  }

  lemma {:induction false} PageIsGapless(last: nat, from: nat, to: nat)
    requires from <= last
    ensures Gapless(last, Frames(Range(from, to))) && !HasDropped(Frames(Range(from, to)))
    ensures EndOf(last, Frames(Range(from, to))) == if from < to then Max(last, to) else last
    decreases if from < to then to - from else 0
  {
    var frames := Frames(Range(from, to));
    if from < to {
      PageIsGapless(Max(last, from + 1), from + 1, to);
      assert frames[1..] == Frames(Range(from + 1, to));
      assert frames == [frames[0]] + frames[1..];
    }
  }

  ghost predicate ConnectionIsSound(s: State) {
    match s.connection
    case None => true
    case Some(Subscribed(position)) => position <= s.produced
    case Some(Streaming(position, high, lastSent, frames)) =>
      && Gapless(s.last, frames)
      && position <= s.produced
      && (forall i :: 0 <= i < |frames| && frames[i].LineFrame? ==> frames[i].sequence <= s.produced)
      && (HasDropped(frames)
          || (Max(position, Max(high, lastSent)) <= EndOf(s.last, frames) <= s.produced))
  }

  /** After the initial page exactly the lines from `base` to `last` were printed, one by one. */
  ghost predicate Inv(s: State) {
    && s.dropped <= s.produced && s.last <= s.produced
    && (!s.started ==> s.printed == [] && s.last == 0 && s.connection.None?)
    && (s.started ==> s.base <= s.last && s.mark <= |s.printed| && s.printed[s.mark..] == Range(s.base, s.last))
    && ConnectionIsSound(s)
  }

  /** A page that starts above the cursor, or a failed snapshot that leaves lines before the subscription unread. */
  predicate SkipsLines(s: State, event: Event) {
    match event
    case Page(tail, fails) => s.connection.None? && s.started && !fails && s.last < s.dropped
    case Snapshot(fails) =>
      && s.connection.Some? && s.connection.value.Subscribed?
      && if fails then s.last < s.connection.value.position else s.last < s.dropped
    case _ => false
  }

  predicate NeverSkips(s: State, events: seq<Event>)
    decreases |events|
  {
    events == [] || (!SkipsLines(s, events[0]) && NeverSkips(Step(s, events[0]), events[1..]))
  }

  /** A history grows at its end: the next event happens in the state the others have led to, and must not skip lines there. */
  lemma {:induction false} LifeSnoc(s: State, events: seq<Event>, event: Event)
    ensures Life(s, events + [event]) == Step(Life(s, events), event)
    ensures NeverSkips(s, events + [event]) <==> NeverSkips(s, events) && !SkipsLines(Life(s, events), event)
    decreases |events|
  {
    if events == [] {
      assert [] + [event] == [event] && [event][1..] == [];
    } else {
      assert (events + [event])[1..] == events[1..] + [event];
      LifeSnoc(Step(s, events[0]), events[1..], event);
    }
  }

  lemma {:induction false} ConsumeRange(client: Client, from: nat, to: nat)
    requires from <= client.last <= to
    ensures ConsumeAll(client, Range(from, to)) == Client(to, client.printed + Range(client.last, to))
    decreases if from < to then to - from else 0
  {
    if from < to {
      var lines := Range(from, to);
      assert lines[1..] == Range(from + 1, to);
      var next := Consume(client, lines[0]);
      ConsumeRange(next, from + 1, to);
      if lines[0] > client.last {
        assert client.printed + [lines[0]] + Range(lines[0], to) == client.printed + ([lines[0]] + Range(lines[0], to));
        assert [lines[0]] + Range(lines[0], to) == Range(client.last, to);
      }
    } else {
      assert client.printed + Range(client.last, to) == client.printed;
    }
  }

  lemma RangesJoin(from: nat, mid: nat, to: nat)
    requires from <= mid <= to
    ensures Range(from, mid) + Range(mid, to) == Range(from, to)
  {
  }

  /** Printing the next lines in order keeps the run of printed lines unbroken. */
  lemma PrintingOn(s: State, to: nat)
    requires Inv(s) && s.started && s.last <= to
    ensures var printed := s.printed + Range(s.last, to); printed[s.mark..] == Range(s.base, to)
  {
    RangesJoin(s.base, s.last, to);
    assert (s.printed + Range(s.last, to))[s.mark..] == s.printed[s.mark..] + Range(s.last, to);
  }

  lemma {:induction false} ConsumeTail(client: Client, from: nat, to: nat)
    requires client.last <= from <= to
    ensures ConsumeAll(client, Range(from, to)).last == if from < to then to else client.last
    decreases if from < to then to - from else 0
  {
    if from < to {
      assert Range(from, to)[1..] == Range(from + 1, to);
      ConsumeTail(Consume(client, from + 1), from + 1, to);
    }
  }

  lemma TailIsRange(from: nat, to: nat, tail: nat) returns (start: nat)
    requires from <= to
    ensures from <= start <= to && Tail(Range(from, to), tail) == Range(start, to)
  {
    start := if tail == 0 || to - from <= tail then from else to - tail;
  }

  lemma FirstPageLast(s: State, tail: nat, fails: bool)
    requires Inv(s) && !s.started
    ensures FirstPage(s, tail, fails).last <= s.produced
  {
    if !fails {
      var start := TailIsRange(s.dropped, s.produced, tail);
      hide Tail, Range, ConnectionIsSound;
      ConsumeTail(ClientOf(s), start, s.produced);
    }
  }

  lemma FirstPageKeepsInv(s: State, tail: nat, fails: bool)
    requires Inv(s) && !s.started
    ensures Inv(FirstPage(s, tail, fails))
  {
    FirstPageLast(s, tail, fails);
    hide ConsumeAll, Tail;
    var r := FirstPage(s, tail, fails);
    assert r.printed[r.mark..] == [] == Range(r.base, r.last);
  }

  lemma PageKeepsInv(s: State, fails: bool)
    requires Inv(s) && s.started && s.connection.None? && (!fails ==> s.dropped <= s.last)
    ensures Inv(WithClient(s, ConsumeAll(ClientOf(s), PageLines(s, fails))))
    ensures !fails ==> WithClient(s, ConsumeAll(ClientOf(s), PageLines(s, fails))).last == s.produced
  {
    if !fails {
      ConsumeRange(ClientOf(s), s.last, s.produced);
      PrintingOn(s, s.produced);
    }
  }

  lemma DeliverKeepsInv(s: State)
    requires Inv(s)
    ensures Inv(Step(s, Deliver))
  {
    if s.connection.Some? && s.connection.value.Streaming? && s.connection.value.frames != [] {
      var frames := s.connection.value.frames;
      assert frames == [frames[0]] + frames[1..];
      if frames[0].LineFrame? && frames[0].sequence > s.last {
        assert Range(s.last, s.last + 1) == [s.last + 1];
        PrintingOn(s, s.last + 1);
        if HasDropped(frames) {
          assert frames[0].sequence == s.last + 1;
        }
      }
    }
  }

  lemma SnapshotKeepsInv(s: State, fails: bool)
    requires Inv(s) && s.connection.Some? && s.connection.value.Subscribed? && !SkipsLines(s, Snapshot(fails))
    ensures Inv(Step(s, Snapshot(fails)))
  {
    if fails {
      assert Frames([]) == [];
    } else {
      PageIsGapless(s.last, s.last, s.produced);
    }
  }

  lemma ReceiveKeepsInv(s: State)
    requires Inv(s)
    ensures Inv(Step(s, Receive))
  {
    if s.connection.Some? && s.connection.value.Streaming? && s.connection.value.position < s.produced {
      var c := s.connection.value;
      GaplessSnoc(s.last, c.frames, LineFrame(c.position + 1));
    }
  }

  lemma LagKeepsInv(s: State, upTo: nat)
    requires Inv(s)
    ensures Inv(Step(s, Lag(upTo)))
  {
    if s.connection.Some? && s.connection.value.Streaming? && s.connection.value.position < upTo <= s.produced {
      GaplessSnoc(s.last, s.connection.value.frames, DroppedFrame);
    }
  }

  lemma StepKeepsInv(s: State, event: Event)
    requires Inv(s) && !SkipsLines(s, event)
    ensures Inv(Step(s, event))
  {
    match event
    case Page(tail, fails) =>
      if s.connection.None? {
        if s.started {
          PageKeepsInv(s, fails);
        } else {
          FirstPageKeepsInv(s, tail, fails);
        }
      }
    case Snapshot(fails) =>
      if s.connection.Some? && s.connection.value.Subscribed? {
        SnapshotKeepsInv(s, fails);
      }
    case Receive => ReceiveKeepsInv(s);
    case Lag(upTo) => LagKeepsInv(s, upTo);
    case Deliver => DeliverKeepsInv(s);
    case _ =>
  }

  /**
    Every interleaving of producer, retention, server and client - lag, lost connections and reconnects included -
    prints exactly the lines after the initial page, each once and in order, unless a page skips lines.
   */
  lemma {:induction false} FollowIsExactlyOnce(s: State, events: seq<Event>)
    requires Inv(s) && NeverSkips(s, events)
    ensures Inv(Life(s, events))
    decreases |events|
  {
    hide Inv, SkipsLines, Step;
    if events != [] {
      StepKeepsInv(s, events[0]);
      FollowIsExactlyOnce(Step(s, events[0]), events[1..]);
    }
  }

  /** From the beginning: what is printed after the initial page is the unbroken run up to the last line printed. */
  lemma FollowFromTheStart(events: seq<Event>)
    requires NeverSkips(NOTHING, events)
    ensures var r := Life(NOTHING, events);
            r.started ==> r.mark <= |r.printed| && r.printed[r.mark..] == Range(r.base, r.last)
  {
    assert Inv(NOTHING);
    hide NeverSkips, Life;
    FollowIsExactlyOnce(NOTHING, events);
  }

  /** The events that histories avoid are exactly those that leave the invariant, but for a page that finds nothing retained. */
  lemma SkippingIsExact(s: State, event: Event)
    requires Inv(s)
    ensures Inv(Step(s, event)) <==> !SkipsLines(s, event) || (event.Page? && s.dropped == s.produced)
  {
    var r := Step(s, event);
    if !SkipsLines(s, event) {
      StepKeepsInv(s, event);
    } else if event.Snapshot? {
      var lines := PageLines(s, event.fails);
      if lines != [] {
        assert r.connection.value.frames[0] == LineFrame(lines[0]);
      }
    } else if s.dropped == s.produced {
      assert PageLines(s, false) == [];
    } else {
      PageSkips(s);
    }
  }

  /** The first line of such a page is printed, and the lines between are not. */
  lemma PageSkips(s: State)
    requires Inv(s) && s.connection.None? && s.started && s.last < s.dropped < s.produced
    ensures !Inv(WithClient(s, ConsumeAll(ClientOf(s), PageLines(s, false))))
  {
    ConsumeFurther(ClientOf(s), s.dropped, s.produced);
    var r := WithClient(s, ConsumeAll(ClientOf(s), PageLines(s, false)));
    assert |s.printed| - s.mark == |Range(s.base, s.last)| == s.last - s.base;
    assert |Range(r.base, r.last)| == s.produced - s.base;
    assert |r.printed[r.mark..]| == |s.printed| - s.mark + s.produced - s.dropped;
  }

  lemma {:induction false} ConsumeFurther(client: Client, from: nat, to: nat)
    requires client.last <= from <= to
    ensures |ConsumeAll(client, Range(from, to)).printed| == |client.printed| + (to - from)
    ensures from < to ==> ConsumeAll(client, Range(from, to)).last == to
    decreases if from < to then to - from else 0
  {
    if from < to {
      assert Range(from, to)[1..] == Range(from + 1, to);
      ConsumeFurther(Consume(client, from + 1), from + 1, to);
    }
  }

  // ------------------------------------------------------------------- a connection left alone

  function Times(n: nat, event: Event): seq<Event> {
    seq(n, _ => event)
  }

  lemma TimesAgain(s: State, n: nat, event: Event)
    requires n > 0
    ensures Life(s, Times(n, event)) == Life(Step(s, event), Times(n - 1, event))
  {
    assert Times(n, event)[1..] == Times(n - 1, event);
    hide Step;
  }

  lemma ReceiveMoves(s: State)
    requires Inv(s) && s.connection.Some? && s.connection.value.Streaming? && s.connection.value.position < s.produced
    ensures var r := Step(s, Receive);
            Inv(r) && r.connection.Some? && r.connection.value.Streaming? && r.connection.value.position == s.connection.value.position + 1
            && r.produced == s.produced
  {
    StepKeepsInv(s, Receive);
    hide Inv;
  }

  /** The server works off its broadcast backlog. */
  lemma {:induction false} ReceivingAll(s: State)
    requires Inv(s) && s.connection.Some? && s.connection.value.Streaming?
    ensures s.connection.value.position <= s.produced
    ensures var r := Life(s, Times(s.produced - s.connection.value.position, Receive));
            Inv(r) && r.connection.Some? && r.connection.value.Streaming? && r.connection.value.position == s.produced == r.produced
    decreases s.produced - s.connection.value.position
  {
    assert s.connection.value.position <= s.produced;
    if s.connection.value.position < s.produced {
      ReceiveMoves(s);
      TimesAgain(s, s.produced - s.connection.value.position, Receive);
      hide Inv, Step;
      ReceivingAll(Step(s, Receive));
    }
  }

  lemma DeliverMoves(s: State)
    requires s.connection.Some? && s.connection.value.Streaming? && s.connection.value.frames != []
    ensures var r, frames := Step(s, Deliver), s.connection.value.frames;
            && r.produced == s.produced
            && (frames[0].DroppedFrame? ==> r == s.(connection := None))
            && (frames[0].LineFrame? ==> r.connection == Some(s.connection.value.(frames := frames[1..])) && r.last == Max(s.last, frames[0].sequence))
  {
  }

  lemma {:induction false} NothingArrives(s: State, n: nat)
    requires s.connection.None?
    ensures Life(s, Times(n, Deliver)) == s
    decreases n
  {
    if n > 0 {
      TimesAgain(s, n, Deliver);
      NothingArrives(s, n - 1);
    }
  }

  /** The client works off the frames; a dropped frame ends the connection, so that it reads a page next. */
  lemma {:induction false} DeliveringAll(s: State)
    requires s.connection.Some? && s.connection.value.Streaming?
    ensures var frames, r := s.connection.value.frames, Life(s, Times(|s.connection.value.frames|, Deliver));
            && r.produced == s.produced
            && (r.connection.None? <==> HasDropped(frames))
            && (!HasDropped(frames) ==> r.last == EndOf(s.last, frames))
    decreases |s.connection.value.frames|
  {
    var frames := s.connection.value.frames;
    if frames != [] {
      assert frames == [frames[0]] + frames[1..];
      DeliverMoves(s);
      TimesAgain(s, |frames|, Deliver);
      if frames[0].DroppedFrame? {
        NothingArrives(Step(s, Deliver), |frames| - 1);
      } else {
        hide Step;
        DeliveringAll(Step(s, Deliver));
      }
    }
  }

  /**
    A connection that is left alone gets the client to the end: once the server has worked off its backlog and the
    client its frames, everything produced is printed, or a dropped frame has sent the client back to read a page.
   */
  lemma StreamCatchesUp(s: State)
    requires Inv(s) && s.connection.Some? && s.connection.value.Streaming?
    ensures s.connection.value.position <= s.produced
    ensures var r := Life(s, Times(s.produced - s.connection.value.position, Receive));
            && r.connection.Some? && r.connection.value.Streaming?
            && var q := Life(r, Times(|r.connection.value.frames|, Deliver));
            (q.connection.None? <==> HasDropped(r.connection.value.frames)) && (q.connection.Some? ==> q.last == s.produced)
  {
    ReceivingAll(s);
    var r := Life(s, Times(s.produced - s.connection.value.position, Receive));
    DeliveringAll(r);
    AtTheEnd(r);
    hide Life, Inv;
  }

  /** A connection that has missed lines, as few or as many as were produced, sends its client back to read a page. */
  lemma LagSendsBack(s: State, upTo: nat)
    requires Inv(s) && s.connection.Some? && s.connection.value.Streaming? && s.connection.value.position < upTo <= s.produced
    ensures var lagged := Step(s, Lag(upTo));
            && lagged.connection.Some? && lagged.connection.value.Streaming? && lagged.connection.value.position == upTo
            && Life(lagged, Times(|lagged.connection.value.frames|, Deliver)).connection.None?
  {
    DeliveringAll(Step(s, Lag(upTo)));
    hide Life, Inv;
  }

  lemma AtTheEnd(s: State)
    requires Inv(s) && s.connection.Some? && s.connection.value.Streaming? && s.connection.value.position == s.produced
    ensures !HasDropped(s.connection.value.frames) ==> EndOf(s.last, s.connection.value.frames) == s.produced
  {
  }

  /** The final cursor drain prints everything the producer had written by then. */
  lemma DrainPrintsEverything(events: seq<Event>, tail: nat)
    requires NeverSkips(NOTHING, events + [Disconnect, Page(tail, false)])
    requires Life(NOTHING, events).started
    ensures var before, r := Life(NOTHING, events), Life(NOTHING, events + [Disconnect, Page(tail, false)]);
            r.last == before.produced && r.mark <= |r.printed| && r.printed[r.mark..] == Range(r.base, before.produced)
  {
    LifeConcat(NOTHING, events, [Disconnect, Page(tail, false)]);
    FollowFromTheStart(events + [Disconnect, Page(tail, false)]);
    var before := Life(NOTHING, events);
    assert Inv(NOTHING);
    hide NeverSkips;
    FollowIsExactlyOnce(NOTHING, events);
    var left := Step(before, Disconnect);
    StepKeepsInv(before, Disconnect);
    var last := [Disconnect, Page(tail, false)];
    assert last[1..] == [Page(tail, false)] && last[1..][1..] == [];
    PageKeepsInv(left, false) by { NeverSkipsLast(before, tail); }
    assert Life(before, last) == Life(left, last[1..]) == Step(left, Page(tail, false));
  }

  lemma NeverSkipsLast(s: State, tail: nat)
    requires NeverSkips(s, [Disconnect, Page(tail, false)]) && s.started
    ensures Step(s, Disconnect).dropped <= Step(s, Disconnect).last
  {
    var last := [Disconnect, Page(tail, false)];
    assert last[1..] == [Page(tail, false)];
  }

  lemma {:induction false} LifeConcat(s: State, events: seq<Event>, more: seq<Event>)
    ensures Life(s, events + more) == Life(Life(s, events), more)
    ensures NeverSkips(s, events + more) <==> NeverSkips(s, events) && NeverSkips(Life(s, events), more)
    decreases |events|
  {
    hide Step, SkipsLines;
    if events == [] {
      assert events + more == more;
    } else {
      assert (events + more)[1..] == events[1..] + more;
      LifeConcat(Step(s, events[0]), events[1..], more);
    }
  }

  // ------------------------------------------------------------------- exactly when

  /** Nothing at or below `floor` is left to come over this connection. */
  ghost predicate OnlyAbove(c: Option<Connection>, floor: nat) {
    match c
    case None => true
    case Some(Subscribed(position)) => floor <= position
    case Some(Streaming(position, high, lastSent, frames)) =>
      && floor <= Max(position, high)
      && (forall i :: 0 <= i < |frames| && frames[i].LineFrame? ==> floor < frames[i].sequence)
  }

  /** Nothing at or below `floor` can reach the client any more. */
  ghost predicate Above(s: State, floor: nat) {
    s.started && s.dropped <= s.produced && floor <= s.produced && floor <= Max(s.dropped, s.last) && OnlyAbove(s.connection, floor)
  }

  ghost predicate PrintsAbove(s: State, r: State, floor: nat) {
    && s.printed <= r.printed
    && (forall i :: |s.printed| <= i < |r.printed| ==> floor < r.printed[i])
    && s.mark == r.mark && s.base == r.base
  }

  lemma {:induction false} ConsumeAbove(client: Client, lines: seq<nat>, floor: nat)
    requires forall i :: 0 <= i < |lines| ==> floor < lines[i]
    ensures var r := ConsumeAll(client, lines).printed;
            client.printed <= r && forall i :: |client.printed| <= i < |r| ==> floor < r[i]
    ensures client.last <= ConsumeAll(client, lines).last
    decreases |lines|
  {
    if lines != [] {
      ConsumeAbove(Consume(client, lines[0]), lines[1..], floor);
    }
  }

  lemma PageAbove(s: State, tail: nat, fails: bool, floor: nat)
    requires Above(s, floor)
    ensures Above(Step(s, Page(tail, fails)), floor) && PrintsAbove(s, Step(s, Page(tail, fails)), floor)
  {
    ConsumeAbove(ClientOf(s), PageLines(s, fails), floor);
    hide ConsumeAll, PageLines;
  }

  lemma StepAbove(s: State, event: Event, floor: nat)
    requires Above(s, floor)
    ensures Above(Step(s, event), floor) && PrintsAbove(s, Step(s, event), floor)
  {
    hide ConsumeAll;
    match event
    case Page(tail, fails) => PageAbove(s, tail, fails, floor);
    case _ =>
  }

  lemma {:induction false} LifeAbove(s: State, events: seq<Event>, floor: nat)
    requires Above(s, floor)
    ensures PrintsAbove(s, Life(s, events), floor)
    decreases |events|
  {
    if events != [] {
      StepAbove(s, events[0], floor);
      hide Above, Step;
      LifeAbove(Step(s, events[0]), events[1..], floor);
    }
  }

  /** The lines printed since the initial page are an unbroken run up to the last one. */
  ghost predicate IsUnbroken(s: State) {
    s.mark <= |s.printed| && s.printed[s.mark..] == Range(s.base, s.last)
  }

  lemma LeavesAGap(s: State, r: State, floor: nat)
    requires IsUnbroken(s) && s.base <= s.last && InOrder(ClientOf(s)) && InOrder(ClientOf(r))
    requires PrintsAbove(s, r, floor) && s.last < floor && |r.printed| > |s.printed|
    ensures !IsUnbroken(r)
  {
    assert r.printed[|s.printed|] <= r.last;
    var line, k := s.last + 1, s.last - r.base;
    forall i | 0 <= i < |r.printed| ensures r.printed[i] != line {
      assert i < |s.printed| ==> r.printed[i] == s.printed[..][i];
    }
    assert Range(r.base, r.last)[k] == line;
    if r.mark <= |r.printed| && k < |r.printed| - r.mark {
      assert r.printed[r.mark..][k] == r.printed[r.mark + k] != line;
    }
  }

  lemma {:induction false} ConsumeAllMoves(client: Client, lines: seq<nat>)
    ensures client.printed <= ConsumeAll(client, lines).printed
    ensures ConsumeAll(client, lines).printed == client.printed ==> ConsumeAll(client, lines) == client
    decreases |lines|
  {
    if lines != [] {
      ConsumeAllMoves(Consume(client, lines[0]), lines[1..]);
    }
  }

  /** The client moves on only by printing. */
  lemma {:induction false} LifeMoves(s: State, events: seq<Event>)
    requires s.started
    ensures var r := Life(s, events); r.started && s.printed <= r.printed && s.mark == r.mark && s.base == r.base
    ensures Life(s, events).printed == s.printed ==> Life(s, events).last == s.last
    decreases |events|
  {
    if events != [] {
      if events[0].Page? {
        ConsumeAllMoves(ClientOf(s), PageLines(s, events[0].fails));
      }
      var next := Step(s, events[0]);
      assert next.started && s.printed <= next.printed && (next.printed == s.printed ==> next.last == s.last);
      hide Step;
      LifeMoves(next, events[1..]);
    }
  }

  lemma BrokenByPrinting(s: State, events: seq<Event>, floor: nat)
    requires IsUnbroken(s) && s.base <= s.last && InOrder(ClientOf(s)) && Above(s, floor) && s.last < floor
    ensures IsUnbroken(Life(s, events)) <==> Life(s, events).printed == s.printed
  {
    hide Step, Life, Range;
    LifeAbove(s, events, floor);
    PrintedStrictlyIncreases(s, events);
    LifeMoves(s, events);
    if Life(s, events).printed != s.printed {
      LeavesAGap(s, Life(s, events), floor);
    }
  }

  /**
    Once lines expire that a disconnected client has not read, they are lost for good: from then on the printed run is
    unbroken exactly as long as nothing more is printed, whatever happens.
   */
  lemma ExpiryLeavesAGap(s: State, upTo: nat, events: seq<Event>)
    requires Inv(s) && InOrder(ClientOf(s)) && s.started && s.connection.None?
    requires s.last < upTo <= s.produced && s.dropped <= upTo
    ensures var expired := Step(s, Expire(upTo));
            IsUnbroken(Life(expired, events)) <==> Life(expired, events).printed == s.printed
  {
    BrokenByPrinting(Step(s, Expire(upTo)), events, upTo);
  }

  /** The same for a client that has subscribed and is then served a snapshot that starts above its cursor. */
  lemma ExpiredSnapshotLeavesAGap(s: State, position: nat, events: seq<Event>)
    requires Inv(s) && InOrder(ClientOf(s)) && s.connection == Some(Subscribed(position)) && s.last < s.dropped
    ensures var served := Step(s, Snapshot(false));
            IsUnbroken(Life(served, events)) <==> Life(served, events).printed == s.printed
  {
    BrokenByPrinting(Step(s, Snapshot(false)), events, s.dropped);
  }

  /** The connection lasts over all these events. */
  predicate Stays(s: State, events: seq<Event>)
    decreases |events|
  {
    s.connection.Some? && (events == [] || Stays(Step(s, events[0]), events[1..]))
  }

  /** Since `s`, this connection has delivered nothing at or below `floor`. */
  ghost predicate DeliversAbove(s: State, r: State, floor: nat) {
    && r.started && r.dropped <= r.produced && floor <= r.produced && r.connection.Some? && r.connection.value.Streaming?
    && OnlyAbove(r.connection, floor) && PrintsAbove(s, r, floor)
    && (if r.printed == s.printed then r.last == s.last else floor < r.last)
  }

  lemma StepDelivers(s: State, r: State, event: Event, floor: nat)
    requires DeliversAbove(s, r, floor) && Step(r, event).connection.Some?
    ensures DeliversAbove(s, Step(r, event), floor)
  {
  }

  lemma {:induction false} LifeDelivers(s: State, r: State, events: seq<Event>, floor: nat)
    requires DeliversAbove(s, r, floor) && Stays(r, events)
    ensures DeliversAbove(s, Life(r, events), floor)
    decreases |events|
  {
    hide Step, DeliversAbove;
    if events != [] {
      StepDelivers(s, r, events[0], floor);
      LifeDelivers(s, Step(r, events[0]), events[1..], floor);
    }
  }

  lemma FailedSnapshotDelivers(s: State, position: nat)
    requires Inv(s) && s.connection == Some(Subscribed(position))
    ensures DeliversAbove(s, Step(s, Snapshot(true)), position)
  {
    assert Frames([]) == [];
  }

  /**
    A failed snapshot is served as an empty page at watermark zero.  For a client with lines to catch up on, the
    connection must end before it delivers anything: then nothing is lost, and otherwise the lines in between are,
    though they never expired.
   */
  lemma FailedSnapshotIsHarmlessIff(s: State, position: nat, during: seq<Event>)
    requires Inv(s) && InOrder(ClientOf(s)) && s.connection == Some(Subscribed(position)) && s.last < position
    requires Stays(Step(s, Snapshot(true)), during)
    ensures var after := Life(Step(s, Snapshot(true)), during);
            Inv(Step(after, Disconnect)) <==> after.printed == s.printed
  {
    var after := Life(Step(s, Snapshot(true)), during);
    FailedSnapshotDelivers(s, position);
    LifeDelivers(s, Step(s, Snapshot(true)), during, position);
    if after.printed != s.printed {
      FailedSnapshotLeavesAGap(s, position, during, []);
    }
  }

  /** Once that connection has delivered a line, the gap stays in every later state. */
  lemma FailedSnapshotLeavesAGap(s: State, position: nat, during: seq<Event>, later: seq<Event>)
    requires Inv(s) && InOrder(ClientOf(s)) && s.connection == Some(Subscribed(position)) && s.last < position
    requires Stays(Step(s, Snapshot(true)), during)
    requires Life(Step(s, Snapshot(true)), during).printed != s.printed
    ensures !IsUnbroken(Life(Life(Step(s, Snapshot(true)), during), later))
  {
    var served := Step(s, Snapshot(true));
    var after := Life(served, during);
    var r := Life(after, later);
    assert InOrder(ClientOf(served));
    FailedSnapshotDelivers(s, position);
    LifeDelivers(s, served, during, position);
    hide Step, Life, Range;
    PrintedStrictlyIncreases(served, during);
    PrintedStrictlyIncreases(after, later);
    LifeAbove(after, later, position);
    LeavesAGap(s, r, position);
  }

  /** A line is skipped this way by the shortest history there is: it was produced before the subscription and never expired. */
  lemma FailedSnapshotSkipsALine()
    ensures var events := [Page(0, false), Produce, Subscribe, Snapshot(true), Produce, Receive, Deliver];
            var r := Life(NOTHING, events);
            r.printed == [2] && r.base == 0 && r.mark == 0 && r.dropped == 0
  {
    var s1 := Step(NOTHING, Page(0, false));
    assert s1 == NOTHING.(started := true);
    var s2 := Step(s1, Produce);
    var s3 := Step(s2, Subscribe);
    var s4 := Step(s3, Snapshot(true));
    assert Frames([]) == [];
    assert s4.connection == Some(Streaming(1, 0, 0, []));
    var s5 := Step(s4, Produce);
    assert [] + [LineFrame(2)] == [LineFrame(2)];
    assert Forward(Streaming(1, 0, 0, [])) == Streaming(2, 0, 2, [LineFrame(2)]);
    var s6 := Step(s5, Receive);
    assert s6.connection == Some(Streaming(2, 0, 2, [LineFrame(2)]));
    var s7 := Step(s6, Deliver);
    assert s7.printed == [2];
    hide Step;
    var events := [Page(0, false), Produce, Subscribe, Snapshot(true), Produce, Receive, Deliver];
    assert events[1..] == [Produce, Subscribe, Snapshot(true), Produce, Receive, Deliver];
    assert events[1..][1..] == [Subscribe, Snapshot(true), Produce, Receive, Deliver];
    assert events[1..][1..][1..] == [Snapshot(true), Produce, Receive, Deliver];
    assert events[1..][1..][1..][1..] == [Produce, Receive, Deliver];
    assert events[1..][1..][1..][1..][1..] == [Receive, Deliver];
    assert events[1..][1..][1..][1..][1..][1..] == [Deliver];
    assert [Deliver][1..] == [];
    assert Life(NOTHING, events) == Life(s1, events[1..]);
    assert Life(s6, [Deliver]) == Life(s7, []) == s7;
  }

  // ------------------------------------------------------------------- the two loops

  /** The server's side of one connection. */
  class Forwarder {
    const high: nat
    var lastSent: nat
    var sent: seq<Frame>

    /** The snapshot goes out first. */
    constructor (lines: seq<nat>, high: nat)
      ensures this.high == high && lastSent == (if lines == [] then 0 else lines[|lines| - 1]) && sent == Frames(lines)
    {
      this.high := high;
      lastSent := if lines == [] then 0 else lines[|lines| - 1];
      sent := [];
      new;
      for i := 0 to |lines|
        invariant sent == Frames(lines)[..i]
        invariant lastSent == if lines == [] then 0 else lines[|lines| - 1]
        modifies this`sent
      {
        sent := sent + [LineFrame(lines[i])];
      }
    }

    method ForwardLine(ghost position: nat, sequence: nat)
      requires sequence == position + 1
      modifies this`lastSent, this`sent
      ensures Streaming(sequence, high, lastSent, sent) == Forward(Streaming(position, high, old(lastSent), old(sent)))
    {
      if sequence <= high || sequence <= lastSent {
        return;
      }
      sent := sent + [LineFrame(sequence)];
      lastSent := Max(lastSent, sequence);
    }

    method ReportLag()
      modifies this`sent
      ensures sent == old(sent) + [DroppedFrame]
    {
      sent := sent + [DroppedFrame];
    }
  }

  /** The client's side: printed lines and the last sequence consumed. */
  class Follower {
    var last: nat
    var printed: seq<nat>

    constructor ()
      ensures Value() == Client(0, [])
    {
      last, printed := 0, [];
    }

    function Value(): Client
      reads this
    {
      Client(last, printed)
    }

    /** True asks for an immediate cursor recovery. */
    method ConsumeFollowText(frame: Frame) returns (recover: bool)
      modifies this
      ensures recover == frame.DroppedFrame?
      ensures Value() == if recover then old(Value()) else Consume(old(Value()), frame.sequence)
    {
      if frame.DroppedFrame? {
        return true;
      }
      if frame.sequence > last {
        printed := printed + [frame.sequence];
        last := Max(last, frame.sequence);
      }
      return false;
    }

    method ConsumePage(lines: seq<nat>)
      modifies this
      ensures Value() == ConsumeAll(old(Value()), lines)
    {
      assert lines[0..] == lines;
      for i := 0 to |lines|
        invariant ConsumeAll(Value(), lines[i..]) == ConsumeAll(old(Value()), lines)
      {
        assert lines[i..][1..] == lines[i + 1..];
        if lines[i] > last {
          printed := printed + [lines[i]];
          last := Max(last, lines[i]);
        }
      }
    }

    /** An initial tail above the server's bound: read everything retained, skip all but the last `tail` lines. */
    method ConsumeInitialPage(lines: seq<nat>, tail: nat)
      requires last == 0 && forall i :: 0 <= i < |lines| ==> 0 < lines[i]
      requires forall i, j :: 0 <= i < j < |lines| ==> lines[i] < lines[j]
      modifies this
      ensures printed == ConsumeAll(old(Value()), Newest(lines, tail)).printed
      ensures lines != [] ==> last == lines[|lines| - 1]
    {
      var skip := if |lines| > tail then |lines| - tail else 0;
      ghost var kept := Newest(lines, tail);
      assert kept == lines[skip..];
      ghost var start := Value();
      for i := 0 to |lines|
        invariant i < |lines| ==> last < lines[i]
        invariant last == if i == 0 then 0 else lines[i - 1]
        invariant i <= skip ==> printed == start.printed
        invariant i >= skip ==> ConsumeAll(Client(last, printed), lines[i..]).printed == ConsumeAll(start, kept).printed
      {
        if i < skip {
          last := Max(last, lines[i]);
          if i + 1 == skip {
            SkippingIsHarmless(start, last, kept);
          }
        } else {
          assert lines[i..][1..] == lines[i + 1..];
          printed := printed + [lines[i]];
          last := Max(last, lines[i]);
        }
      }
    }
  }

  /** Raising the cursor to just below the first line to be printed does not change what is printed. */
  lemma SkippingIsHarmless(client: Client, last: nat, lines: seq<nat>)
    requires client.last <= last && forall i :: 0 <= i < |lines| ==> last < lines[i]
    ensures ConsumeAll(Client(last, client.printed), lines).printed == ConsumeAll(client, lines).printed
  {
  }
}
