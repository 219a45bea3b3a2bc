/** From the stored log to the page: what the server sends, printed, cut into chunks, broken off anywhere and parsed,
    is a piece of the log, so the reconnecting client shows exactly a beginning of it. */
module StreamEndToEnd {
  import opened Options
  import opened RunEvents
  import opened Kernel
  import opened EventStream
  import opened Resume
  import RunProtocol
  import Sequences
  import Sse
  import SseRoundTrip

  /** Canonical JSON of events: one line that begins with a brace, read back exactly, and not readable when cut short. */
  ghost predicate Canonical(data: Event -> string, parse: string -> Option<Event>) {
    forall e ::
      && SseRoundTrip.PlainLine(data(e)) && !Sse.IsSpace(data(e)[0]) && parse(data(e)) == Some(e)
      && forall p | p < data(e) && p != "" :: parse(p).None?
  }

  function EncodeAll(events: seq<Event>, data: Event -> string): seq<Sse.Item> {
    if events == [] then [] else EncodeAll(events[..|events| - 1], data) + [Encode(events[|events| - 1], data)]
  }

  lemma {:induction false} RangeIsAll(log: seq<Event>, a: nat, b: nat, data: Event -> string)
    requires a <= b <= |log|
    ensures EncodeRange(log, a, b, data) == EncodeAll(log[a..b], data)
  {
    if a < b {
      RangeIsAll(log, a, b - 1, data);
      Sequences.SliceNext(log, a, b - 1);
      Sequences.Snoc(log[a..b - 1], log[b - 1]);
    }
  }

  lemma TypeNameHasNoLineFeed(t: EventType)
    ensures '\n' !in TypeName(t)
  {}

  lemma TypeNameHasNoReturn(t: EventType)
    ensures '\r' !in TypeName(t)
  {}

  lemma {:induction false} EncodedMessages(items: seq<Sse.Item>, events: seq<Event>, data: Event -> string, k: nat)
    requires Messages(items) == EncodeAll(events, data) && k < |items| && items[k].Message?
    ensures exists e :: items[k] == Encode(e, data)
    decreases |items|
  {
    var init, last := items[..|items| - 1], items[|items| - 1];
    SplitLast(items, events, data);
    if k < |items| - 1 {
      EncodedMessages(init, if last.Message? then events[..|events| - 1] else events, data, k);
    }
  }

  /** The last of the items is a heartbeat, or encodes the last event. */
  lemma SplitLast(items: seq<Sse.Item>, events: seq<Event>, data: Event -> string)
    requires items != [] && Messages(items) == EncodeAll(events, data)
    ensures items[|items| - 1].Heartbeat? ==> Messages(items[..|items| - 1]) == EncodeAll(events, data)
    ensures items[|items| - 1].Message? ==>
              && events != []
              && items[|items| - 1] == Encode(events[|events| - 1], data)
              && Messages(items[..|items| - 1]) == EncodeAll(events[..|events| - 1], data)
  {
    var init, last := items[..|items| - 1], items[|items| - 1];
    if last.Message? {
      assert Messages(items)[|Messages(init)|] == last;
      SameSnoc(Messages(init), last, EncodeAll(events[..|events| - 1], data), Encode(events[|events| - 1], data));
    } else {
      Sequences.Units(Messages(init));
    }
  }

  lemma SameSnoc<T>(a: seq<T>, x: T, b: seq<T>, y: T)
    requires a + [x] == b + [y]
    ensures a == b && x == y
  {
    Sequences.Snoc(a, x);
    Sequences.Snoc(b, y);
  }

  lemma SentIsPrintable(items: seq<Sse.Item>, events: seq<Event>, data: Event -> string, parse: string -> Option<Event>)
    requires Canonical(data, parse) && Messages(items) == EncodeAll(events, data)
    ensures SseRoundTrip.AllPrintable(items)
    ensures forall k | 0 <= k < |items| :: SseRoundTrip.CutsAreBad(items[k], parse)
    ensures forall k | 0 <= k < |items| && items[k].Message? :: parse(items[k].data).Some?
  {
    forall k | 0 <= k < |items|
      ensures SseRoundTrip.Printable(items[k]) && SseRoundTrip.CutsAreBad(items[k], parse)
      ensures items[k].Message? ==> parse(items[k].data).Some?
    {
      if items[k].Message? {
        EncodedMessages(items, events, data, k);
        var e :| items[k] == Encode(e, data);
        TypeNameHasNoLineFeed(e.kind);
        TypeNameHasNoReturn(e.kind);
        assert parse(data(e)) == Some(e);
      }
    }
  }

  /** Reading the encoded events gives the events back; heartbeats leave nothing. */
  lemma {:induction false} DocumentsOfEncoded(
    items: seq<Sse.Item>, events: seq<Event>, data: Event -> string, parse: string -> Option<Event>)
    requires Canonical(data, parse) && Messages(items) == EncodeAll(events, data)
    ensures SseRoundTrip.Documents(items, parse) == events
    decreases |items|
  {
    if items == [] {
      EmptyEncoding(events, data);
    } else {
      var init, last := items[..|items| - 1], items[|items| - 1];
      DocumentsLast(items, parse);
      SplitLast(items, events, data);
      if last.Message? {
        DocumentsOfEncoded(init, events[..|events| - 1], data, parse);
        DecodesOne(last, events[|events| - 1], data, parse);
        Sequences.Last(events);
      } else {
        DocumentsOfEncoded(init, events, data, parse);
        Sequences.Units(events);
      }
    }
  }

  lemma DocumentsLast(items: seq<Sse.Item>, parse: string -> Option<Event>)
    requires items != []
    ensures SseRoundTrip.Documents(items, parse)
         == SseRoundTrip.Documents(items[..|items| - 1], parse) + SseRoundTrip.Document(items[|items| - 1], parse)
  {
    var n := |items| - 1;
    SseRoundTrip.DocumentsNext(items, n, parse);
    SseRoundTrip.LastDocument(items[n], parse);
    assert items[..n + 1] == items;
  }

  lemma DecodesOne(item: Sse.Item, e: Event, data: Event -> string, parse: string -> Option<Event>)
    requires Canonical(data, parse) && item == Encode(e, data)
    ensures SseRoundTrip.Document(item, parse) == [e]
  {
    assert parse(data(e)) == Some(e);
  }

  lemma EmptyEncoding(events: seq<Event>, data: Event -> string)
    requires EncodeAll(events, data) == []
    ensures events == []
  {}

  /** The messages among the first items are the encodings of the first events. */
  lemma {:induction false} FirstMessages(items: seq<Sse.Item>, n: nat, events: seq<Event>, data: Event -> string) returns (m: nat)
    requires n <= |items| && Messages(items) == EncodeAll(events, data)
    ensures m <= |events| && Messages(items[..n]) == EncodeAll(events[..m], data)
    decreases |items|
  {
    if n == |items| {
      assert items[..n] == items && events[..|events|] == events;
      m := |events|;
    } else {
      var init, last := items[..|items| - 1], items[|items| - 1];
      assert items[..n] == init[..n];
      SplitLast(items, events, data);
      if last.Message? {
        m := FirstMessages(init, n, events[..|events| - 1], data);
        assert events[..|events| - 1][..m] == events[..m];
      } else {
        m := FirstMessages(init, n, events, data);
      }
    }
  }

  /** What the server sent after a cursor arrives as a piece of the log that starts there, complete when nothing broke. */
  lemma SentArrives(
    log: seq<Event>, after: nat, cursor: nat, sent: seq<Sent>, chunks: seq<string>, ended: bool,
    data: Event -> string, parse: string -> Option<Event>)
    returns (b: nat)
    requires Canonical(data, parse) && after <= |log| && SentSlice(log, after, cursor, sent, data)
    requires Sse.Concat(chunks) <= Sse.PrintAll(Items(sent))
    ensures after <= b <= cursor <= |log|
    ensures Sse.ReadAll(Sse.Received(chunks), ended, true, parse).events == log[after..b]
    ensures Sse.Concat(chunks) == Sse.PrintAll(Items(sent)) ==>
              b == cursor && !Sse.ReadAll(Sse.Received(chunks), ended, true, parse).failed
  {
    var items, events := Items(sent), log[after..cursor];
    RangeIsAll(log, after, cursor, data);
    if Sse.Concat(chunks) == Sse.PrintAll(items) {
      WholeArrives(items, events, chunks, ended, data, parse);
      b := cursor;
    } else {
      var m := CutArrives(items, events, chunks, ended, data, parse);
      b := after + m;
      assert events[..m] == log[after..b];
    }
  }

  lemma WholeArrives(
    items: seq<Sse.Item>, events: seq<Event>, chunks: seq<string>, ended: bool,
    data: Event -> string, parse: string -> Option<Event>)
    requires Canonical(data, parse) && Messages(items) == EncodeAll(events, data) && Sse.Concat(chunks) == Sse.PrintAll(items)
    ensures Sse.ReadAll(Sse.Received(chunks), ended, true, parse) == Sse.Stream(events, false)
  {
    SentIsPrintable(items, events, data, parse);
    SseRoundTrip.RoundTrip(items, chunks, ended, true, parse);
    SseRoundTrip.ValuesOfReadable(Sse.Start(), items, parse);
    DocumentsOfEncoded(items, events, data, parse);
    Sequences.Units(events);
  }

  lemma CutArrives(
    items: seq<Sse.Item>, events: seq<Event>, chunks: seq<string>, ended: bool,
    data: Event -> string, parse: string -> Option<Event>)
    returns (m: nat)
    requires Canonical(data, parse) && Messages(items) == EncodeAll(events, data) && Sse.Concat(chunks) < Sse.PrintAll(items)
    ensures m <= |events| && Sse.ReadAll(Sse.Received(chunks), ended, true, parse).events == events[..m]
  {
    SentIsPrintable(items, events, data, parse);
    var n := SseRoundTrip.CutStreamIsPrefix(items, chunks, ended, true, parse);
    m := FirstMessages(items, n, events, data);
    DocumentsOfEncoded(items[..n], events[..m], data, parse);
  }

  /** A delivery that came from the server's stream over some earlier state of the log, through any chunks,
      broken off anywhere, with an error or with an early end. */
  ghost predicate Streamed(
    log: seq<Event>, after: nat, d: Delivered, data: Event -> string, parse: string -> Option<Event>)
  {
    exists n: nat, cursor: nat, sent: seq<Sent>, chunks: seq<string>, ended: bool ::
      CameFrom(log, after, d, data, parse, n, cursor, sent, chunks, ended)
  }

  ghost predicate CameFrom(
    log: seq<Event>, after: nat, d: Delivered, data: Event -> string, parse: string -> Option<Event>,
    n: nat, cursor: nat, sent: seq<Sent>, chunks: seq<string>, ended: bool)
  {
    && after <= n <= |log| && SentSlice(log[..n], after, cursor, sent, data)
    && Sse.Concat(chunks) <= Sse.PrintAll(Items(sent))
    && var read := Sse.ReadAll(Sse.Received(chunks), ended, true, parse);
    d == Delivered(read.events, !ended || read.failed)
  }

  lemma PieceIsSlice(log: seq<Event>, n: nat, after: nat, b: nat, items: seq<Event>)
    requires after <= b <= n <= |log| && items == log[..n][after..b]
    ensures SliceFrom(log, after, items)
  {
    assert Piece(log, after, items);
  }

  lemma CameFromIsSlice(
    log: seq<Event>, after: nat, d: Delivered, data: Event -> string, parse: string -> Option<Event>,
    n: nat, cursor: nat, sent: seq<Sent>, chunks: seq<string>, ended: bool)
    requires Canonical(data, parse) && CameFrom(log, after, d, data, parse, n, cursor, sent, chunks, ended)
    ensures SliceFrom(log, after, d.items)
  {
    var part := log[..n];
    var b := SentArrives(part, after, cursor, sent, chunks, ended, data, parse);
    PieceIsSlice(log, n, after, b, d.items);
  }

  lemma StreamedIsSlice(log: seq<Event>, after: nat, d: Delivered, data: Event -> string, parse: string -> Option<Event>)
    requires Canonical(data, parse) && Streamed(log, after, d, data, parse)
    ensures SliceFrom(log, after, d.items)
  {
    var n: nat, cursor: nat, sent: seq<Sent>, chunks: seq<string>, ended: bool :|
      CameFrom(log, after, d, data, parse, n, cursor, sent, chunks, ended);
    CameFromIsSlice(log, after, d, data, parse, n, cursor, sent, chunks, ended);
  }

  /** Connections through the printed stream serve the log: with Resume.Consume, over any number of disconnects at any point,
      the page shows exactly a beginning of the run's log, without gaps or duplicates. */
  lemma StreamedServes(
    log: seq<Event>, connect: (nat, nat) -> Delivered, data: Event -> string, parse: string -> Option<Event>)
    requires Canonical(data, parse)
    requires forall n: nat, cursor: nat :: cursor <= |log| ==> Streamed(log, cursor, connect(n, cursor), data, parse)
    ensures Serves(log, connect)
  {
    forall n: nat, after: nat | after <= |log| ensures SliceFrom(log, after, connect(n, after).items) {
      assert Streamed(log, after, connect(n, after), data, parse);
      StreamedIsSlice(log, after, connect(n, after), data, parse);
    }
  }

  // ----- the run that is streamed -----

  /** One connection: when its polls look at the run, the pacing, and how much of what is sent arrives in which chunks. */
  datatype Link = Link(
    times: seq<nat>, polls: seq<Poll>, heartbeat: nat, ticks: Ticks, chunks: seq<string>, ended: bool)

  /** Poll k lists the events of the run as it is after the first times[k] moves. */
  ghost predicate Observes(cmd: Command, prog: Program, moves: seq<RunProtocol.Move>, times: seq<nat>, polls: seq<Poll>) {
    && |times| == |polls|
    && (forall k | 0 <= k < |polls| ::
          times[k] <= |moves| && polls[k].db == RunProtocol.Run(cmd, prog, RunProtocol.INITIAL, moves[..times[k]]).db)
    && (forall i, j | 0 <= i < j < |times| :: times[i] <= times[j])
  }

  /** What the server sends over the connection. */
  function SentOver(link: Link, after: nat, data: Event -> string): seq<Sent> {
    Polled(Begin(after, link.heartbeat, link.ticks), link.polls, link.heartbeat, link.ticks, data).0.sent
  }

  /** What the client gets out of it. */
  function DeliveredOver(link: Link, parse: string -> Option<Event>): Delivered {
    var read := Sse.ReadAll(Sse.Received(link.chunks), link.ended, true, parse);
    Delivered(read.events, !link.ended || read.failed)
  }

  /** A connection to the run, opened after a cursor and broken off anywhere. */
  ghost predicate Connects(
    cmd: Command, prog: Program, moves: seq<RunProtocol.Move>, after: nat, link: Link, data: Event -> string)
  {
    && Observes(cmd, prog, moves, link.times, link.polls) && Monotone(link.ticks)
    && Sse.Concat(link.chunks) <= Sse.PrintAll(Items(SentOver(link, after, data)))
  }

  function LogAt(cmd: Command, prog: Program, moves: seq<RunProtocol.Move>, n: nat): seq<Event>
    requires n <= |moves|
  {
    RunProtocol.Run(cmd, prog, RunProtocol.INITIAL, moves[..n]).db.events
  }

  /** The log of a run only grows. */
  lemma RunLogGrows(cmd: Command, prog: Program, moves: seq<RunProtocol.Move>, a: nat, b: nat)
    requires a <= b <= |moves|
    ensures LogAt(cmd, prog, moves, a) <= LogAt(cmd, prog, moves, b)
    ensures Chained(cmd.run, cmd.request, LogAt(cmd, prog, moves, b))
  {
    RunProtocol.ReachedIsKept(cmd, prog, moves[..a]);
    RunProtocol.ReachedIsKept(cmd, prog, moves[..b]);
    assert moves[..b] == moves[..a] + moves[a..b];
    RunProtocol.RunConcat(cmd, prog, RunProtocol.INITIAL, moves[..a], moves[a..b]);
    RunProtocol.RunKeeps(cmd, prog, RunProtocol.Run(cmd, prog, RunProtocol.INITIAL, moves[..a]), moves[a..b]);
  }

  /** Polls that look at a run one after the other see a growing, chained log. */
  lemma {:induction false} ObservedGrows(
    cmd: Command, prog: Program, moves: seq<RunProtocol.Move>, from: nat, times: seq<nat>, polls: seq<Poll>)
    requires Observes(cmd, prog, moves, times, polls) && from <= |moves| && (times != [] ==> from <= times[0])
    ensures Grows(cmd.run, cmd.request, LogAt(cmd, prog, moves, from), polls)
    decreases |polls|
  {
    if polls != [] {
      RunLogGrows(cmd, prog, moves, from, times[0]);
      assert polls[0].db.events == LogAt(cmd, prog, moves, times[0]);
      ObservedRest(cmd, prog, moves, times, polls);
      ObservedGrows(cmd, prog, moves, times[0], times[1..], polls[1..]);
    }
  }

  lemma ObservedRest(cmd: Command, prog: Program, moves: seq<RunProtocol.Move>, times: seq<nat>, polls: seq<Poll>)
    requires Observes(cmd, prog, moves, times, polls) && polls != []
    ensures Observes(cmd, prog, moves, times[1..], polls[1..])
    ensures times[1..] != [] ==> times[0] <= times[1..][0]
  {}

  /** What the server sends to a client that follows a run is a stretch of the run's log. */
  lemma ConnectionIsStreamed(
    cmd: Command, prog: Program, moves: seq<RunProtocol.Move>, after: nat, link: Link,
    data: Event -> string, parse: string -> Option<Event>)
    requires Connects(cmd, prog, moves, after, link, data) && after <= |LogAt(cmd, prog, moves, |moves|)|
    ensures Streamed(LogAt(cmd, prog, moves, |moves|), after, DeliveredOver(link, parse), data, parse)
  {
    var log := LogAt(cmd, prog, moves, |moves|);
    RunStartsEmpty(cmd, prog, moves);
    ObservedGrows(cmd, prog, moves, 0, link.times, link.polls);
    var used := ServerSendsSlice(cmd.run, cmd.request, after, link.polls, link.heartbeat, link.ticks, data);
    var p := Polled(Begin(after, link.heartbeat, link.ticks), link.polls, link.heartbeat, link.ticks, data).0;
    var seen := Seen([], link.polls, used);
    assert seen <= log by {
      if used > 0 { RunLogGrows(cmd, prog, moves, link.times[used - 1], |moves|); }
    }
    SentInLonger(seen, log, after, p.cursor, p.sent, data);
    assert log[..|log|] == log;
    assert CameFrom(log, after, DeliveredOver(link, parse), data, parse, |log|, p.cursor, p.sent, link.chunks, link.ended);
  }

  lemma RunStartsEmpty(cmd: Command, prog: Program, moves: seq<RunProtocol.Move>)
    ensures LogAt(cmd, prog, moves, 0) == []
  {
    assert moves[..0] == [];
  }

  /** A page that follows a run over any connections, while executions, finalizers, crashes and the failure writer go on in any
      order, is served its log: whatever is polled, sent, cut, lost and parsed, Resume.Consume shows exactly a beginning of it. */
  lemma RunIsServed(
    cmd: Command, prog: Program, moves: seq<RunProtocol.Move>, links: (nat, nat) -> Link, connect: (nat, nat) -> Delivered,
    data: Event -> string, parse: string -> Option<Event>)
    requires Canonical(data, parse)
    requires forall n: nat, after: nat :: connect(n, after) == DeliveredOver(links(n, after), parse)
    requires forall n: nat, after: nat | after <= |LogAt(cmd, prog, moves, |moves|)| ::
               Connects(cmd, prog, moves, after, links(n, after), data)
    ensures var log := LogAt(cmd, prog, moves, |moves|);
            Chained(cmd.run, cmd.request, log) && Serves(log, connect)
  {
    var log := LogAt(cmd, prog, moves, |moves|);
    RunLogGrows(cmd, prog, moves, |moves|, |moves|);
    forall n: nat, after: nat | after <= |log| ensures Streamed(log, after, connect(n, after), data, parse) {
      assert Connects(cmd, prog, moves, after, links(n, after), data);
      ConnectionIsStreamed(cmd, prog, moves, after, links(n, after), data, parse);
    }
    StreamedServes(log, connect, data, parse);
  }
}
