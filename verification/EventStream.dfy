/** The server's side of a run's event stream: a cursor over the stored log, polled until the run is over. */
module EventStream {
  import opened Options
  import opened RunEvents
  import opened RunDatabase
  import Sequences
  import Sse

  /** What one poll sees: whether the client is gone, the rows when the events are listed, the status when the run is read. */
  datatype Poll = Poll(gone: bool, db: Database, status: Status)

  /** An item with the clock reading taken after it was written. */
  datatype Sent = Sent(item: Sse.Item, at: int)

  datatype End = ClientGone | TerminalSent | RunOver | PollsUsed

  function Encode(e: Event, data: Event -> string): Sse.Item { Sse.Message(e.sequence, TypeName(e.kind), data(e)) }

  /** The log from `a` to `b`, encoded. */
  function EncodeRange(log: seq<Event>, a: nat, b: nat, data: Event -> string): seq<Sse.Item>
    requires b <= a || b <= |log|
    decreases b
  {
    if b <= a then [] else EncodeRange(log, a, b - 1, data) + [Encode(log[b - 1], data)]
  }

  /** What was written, in order. */
  function Items(sent: seq<Sent>): seq<Sse.Item> {
    if sent == [] then [] else Items(sent[..|sent| - 1]) + [sent[|sent| - 1].item]
  }

  /** The items that are not heartbeats. */
  function Messages(items: seq<Sse.Item>): seq<Sse.Item> {
    if items == [] then []
    else
      var last := items[|items| - 1];
      Messages(items[..|items| - 1]) + if last.Message? then [last] else []
  }

  /** A heartbeat is written only after that much silence. */
  ghost predicate Spaced(sent: seq<Sent>, heartbeat: nat) {
    |sent| <= 1 ||
    (var n := |sent| - 1;
     Spaced(sent[..n], heartbeat) && (sent[n].item.Heartbeat? ==> sent[n].at - sent[n - 1].at >= heartbeat))
  }

  /** None of the events in between ends the run. */
  ghost predicate NoneTerminal(log: seq<Event>, from: nat, until: nat)
    requires until <= |log|
    decreases until
  {
    until <= from || (!IsTerminalType(log[until - 1].kind) && NoneTerminal(log, from, until - 1))
  }

  /** Snapshots of one run's log, each a continuation of the one before. */
  ghost predicate Grows(run: Uuid, request: Uuid, log: seq<Event>, polls: seq<Poll>)
    decreases |polls|
  {
    polls == [] ||
    (log <= polls[0].db.events && Chained(run, request, polls[0].db.events)
     && Grows(run, request, polls[0].db.events, polls[1..]))
  }

  /** Exactly the log from `after` to the cursor was sent, and of it only the last event may end the run. */
  ghost predicate SentSlice(log: seq<Event>, after: nat, cursor: nat, sent: seq<Sent>, data: Event -> string) {
    && after <= cursor && (cursor == after || cursor <= |log|)
    && Messages(Items(sent)) == EncodeRange(log, after, cursor, data)
    && (cursor > after ==> NoneTerminal(log, after, cursor - 1))
  }

  lemma MessagesNext(sent: seq<Sent>, s: Sent)
    ensures Messages(Items(sent + [s])) == Messages(Items(sent)) + if s.item.Message? then [s.item] else []
  {
    Sequences.Snoc(sent, s);
    Sequences.Snoc(Items(sent), s.item);
  }

  lemma SentOneMore(log: seq<Event>, after: nat, cursor: nat, sent: seq<Sent>, at: int, data: Event -> string)
    requires SentSlice(log, after, cursor, sent, data) && cursor < |log|
    requires cursor > after ==> !IsTerminalType(log[cursor - 1].kind)
    ensures SentSlice(log, after, cursor + 1, sent + [Sent(Encode(log[cursor], data), at)], data)
  {
    MessagesNext(sent, Sent(Encode(log[cursor], data), at));
  }

  lemma SentHeartbeat(log: seq<Event>, after: nat, cursor: nat, sent: seq<Sent>, at: int, data: Event -> string)
    requires SentSlice(log, after, cursor, sent, data)
    ensures SentSlice(log, after, cursor, sent + [Sent(Sse.Heartbeat, at)], data)
  {
    MessagesNext(sent, Sent(Sse.Heartbeat, at));
    Sequences.Units(Messages(Items(sent)));
  }

  lemma SentInLonger(log: seq<Event>, longer: seq<Event>, after: nat, cursor: nat, sent: seq<Sent>, data: Event -> string)
    requires SentSlice(log, after, cursor, sent, data) && log <= longer
    ensures SentSlice(longer, after, cursor, sent, data)
  {
    if cursor > after {
      NoneTerminalInLonger(log, longer, after, cursor - 1);
      RangeInLonger(log, longer, after, cursor, data);
    }
  }

  lemma {:induction false} NoneTerminalInLonger(log: seq<Event>, longer: seq<Event>, from: nat, until: nat)
    requires until <= |log| && log <= longer
    ensures NoneTerminal(log, from, until) <==> NoneTerminal(longer, from, until)
    decreases until
  {
    if until > from { NoneTerminalInLonger(log, longer, from, until - 1); }
  }

  lemma {:induction false} RangeInLonger(log: seq<Event>, longer: seq<Event>, a: nat, b: nat, data: Event -> string)
    requires b <= |log| && log <= longer
    ensures EncodeRange(log, a, b, data) == EncodeRange(longer, a, b, data)
    decreases b
  {
    if b > a { RangeInLonger(log, longer, a, b - 1, data); }
  }

  // ----- the stream as a function of what its polls see -----

  /** Where the stream stands between two writes; `reading` counts the clock readings so far. */
  datatype Progress = Progress(sent: seq<Sent>, cursor: nat, lastWrite: int, reading: nat)

  /** The successive readings of the monotonic clock. */
  type Ticks = nat -> int

  function Wrote(p: Progress, item: Sse.Item, ticks: Ticks): Progress {
    p.(sent := p.sent + [Sent(item, ticks(p.reading))], lastWrite := ticks(p.reading), reading := p.reading + 1)
  }

  /** The events of one poll, up to one that ends the run. */
  function SendEvents(p: Progress, events: seq<Event>, ticks: Ticks, data: Event -> string): (Progress, bool)
    decreases |events|
  {
    if events == [] then (p, false)
    else
      var q := Wrote(p.(cursor := events[0].sequence), Encode(events[0], data), ticks);
      if IsTerminalType(events[0].kind) then (q, true) else SendEvents(q, events[1..], ticks, data)
  }

  /** A heartbeat when nothing was written for long enough. */
  function Beat(p: Progress, heartbeat: nat, ticks: Ticks): Progress {
    var q := p.(reading := p.reading + 1);
    if ticks(p.reading) - p.lastWrite >= heartbeat then Wrote(q, Sse.Heartbeat, ticks) else q
  }

  function PollOnce(p: Progress, poll: Poll, heartbeat: nat, ticks: Ticks, data: Event -> string): (Progress, Option<End>) {
    if poll.gone then (p, Some(ClientGone))
    else
      var (q, over) := SendEvents(p, ListEvents(poll.db, p.cursor), ticks, data);
      if over then (q, Some(TerminalSent))
      else if IsTerminalStatus(poll.status) then (q, Some(RunOver))
      else (Beat(q, heartbeat, ticks), None)
  }

  function Polled(p: Progress, polls: seq<Poll>, heartbeat: nat, ticks: Ticks, data: Event -> string): (Progress, End)
    decreases |polls|
  {
    if polls == [] then (p, PollsUsed)
    else
      var (q, stop) := PollOnce(p, polls[0], heartbeat, ticks, data);
      if stop.Some? then (q, stop.value) else Polled(q, polls[1..], heartbeat, ticks, data)
  }

  function Begin(after: nat, heartbeat: nat, ticks: Ticks): Progress { Progress([], after, ticks(0) - heartbeat, 1) }

  /** stream_run_events. */
  method StreamRunEvents(polls: seq<Poll>, after: nat, heartbeat: nat, ticks: Ticks, data: Event -> string)
    returns (sent: seq<Sent>, cursor: nat, end: End)
    ensures var (p, e) := Polled(Begin(after, heartbeat, ticks), polls, heartbeat, ticks, data);
            sent == p.sent && cursor == p.cursor && end == e
  {
    var p := Progress([], after, ticks(0) - heartbeat, 1);
    for k := 0 to |polls|
      invariant Polled(p, polls[k..], heartbeat, ticks, data)
             == Polled(Begin(after, heartbeat, ticks), polls, heartbeat, ticks, data)
    {
      Sequences.DropNext(polls, k);
      if polls[k].gone {
        return p.sent, p.cursor, ClientGone;
      }
      var over;
      p, over := SendListed(p, ListEvents(polls[k].db, p.cursor), ticks, data);
      if over {
        return p.sent, p.cursor, TerminalSent;
      }
      if IsTerminalStatus(polls[k].status) {
        return p.sent, p.cursor, RunOver;
      }
      p := Beat(p, heartbeat, ticks);
    }
    return p.sent, p.cursor, PollsUsed;
  }

  method SendListed(before: Progress, events: seq<Event>, ticks: Ticks, data: Event -> string) returns (p: Progress, over: bool)
    ensures (p, over) == SendEvents(before, events, ticks, data)
  {
    p, over := before, false;
    for k := 0 to |events|
      invariant SendEvents(p, events[k..], ticks, data) == SendEvents(before, events, ticks, data)
    {
      Sequences.DropNext(events, k);
      var event := events[k];
      p := p.(cursor := event.sequence);
      p := Wrote(p, Encode(event, data), ticks);
      if IsTerminalType(event.kind) {
        over := true;
        return;
      }
    }
  }

  // ----- what the stream sends -----

  ghost predicate Open(log: seq<Event>, after: nat, p: Progress, heartbeat: nat, data: Event -> string) {
    && SentSlice(log, after, p.cursor, p.sent, data)
    && (p.cursor > after ==> !IsTerminalType(log[p.cursor - 1].kind))
    && Timed(p, heartbeat)
  }

  ghost predicate Timed(p: Progress, heartbeat: nat) {
    Spaced(p.sent, heartbeat) && (p.sent != [] ==> p.lastWrite == p.sent[|p.sent| - 1].at)
  }

  ghost predicate Monotone(ticks: Ticks) { forall i, j :: i <= j ==> ticks(i) <= ticks(j) }

  lemma TimedNext(p: Progress, item: Sse.Item, heartbeat: nat, ticks: Ticks)
    requires Timed(p, heartbeat)
    requires item.Heartbeat? && p.sent != [] ==> ticks(p.reading) - p.lastWrite >= heartbeat
    ensures Timed(Wrote(p, item, ticks), heartbeat)
  {
    Sequences.Snoc(p.sent, Sent(item, ticks(p.reading)));
  }

  /** The events of a poll are sent from the cursor on, up to the first that ends the run, or all of them. */
  ghost predicate SentOn(log: seq<Event>, after: nat, p: Progress, over: bool, heartbeat: nat, data: Event -> string) {
    && SentSlice(log, after, p.cursor, p.sent, data) && Timed(p, heartbeat)
    && (over ==> p.cursor > after && IsTerminalType(log[p.cursor - 1].kind))
    && (!over ==> p.cursor >= |log| && Open(log, after, p, heartbeat, data))
  }

  lemma OneEventSends(log: seq<Event>, after: nat, p: Progress, heartbeat: nat, ticks: Ticks, data: Event -> string)
    requires Open(log, after, p, heartbeat, data) && p.cursor < |log|
    ensures var q := Wrote(p.(cursor := p.cursor + 1), Encode(log[p.cursor], data), ticks);
            && q.cursor == p.cursor + 1
            && if IsTerminalType(log[p.cursor].kind) then SentOn(log, after, q, true, heartbeat, data)
               else Open(log, after, q, heartbeat, data)
  {
    SentOneMore(log, after, p.cursor, p.sent, ticks(p.reading), data);
    TimedNext(p.(cursor := p.cursor + 1), Encode(log[p.cursor], data), heartbeat, ticks);
  }

  lemma {:induction false} SendEventsSends(
    run: Uuid, request: Uuid, log: seq<Event>, after: nat, p: Progress, heartbeat: nat, ticks: Ticks, data: Event -> string)
    requires Chained(run, request, log) && Open(log, after, p, heartbeat, data) && p.cursor <= |log|
    ensures var (q, over) := SendEvents(p, log[p.cursor..], ticks, data);
            SentOn(log, after, q, over, heartbeat, data) && (over ==> q.cursor > p.cursor)
    decreases |log| - p.cursor
  {
    if p.cursor < |log| {
      assert Linked(run, request, log, p.cursor);
      Sequences.DropNext(log, p.cursor);
      OneEventSends(log, after, p, heartbeat, ticks, data);
      if !IsTerminalType(log[p.cursor].kind) {
        var q := Wrote(p.(cursor := p.cursor + 1), Encode(log[p.cursor], data), ticks);
        SendEventsSends(run, request, log, after, q, heartbeat, ticks, data);
      }
    }
  }

  /** The events a poll lists are sent on. */
  lemma ListedAreSent(
    run: Uuid, request: Uuid, db: Database, after: nat, p: Progress, heartbeat: nat, ticks: Ticks, data: Event -> string)
    requires Chained(run, request, db.events) && Open(db.events, after, p, heartbeat, data)
    ensures var (q, over) := SendEvents(p, ListEvents(db, p.cursor), ticks, data);
            SentOn(db.events, after, q, over, heartbeat, data) && (over ==> q.cursor > p.cursor)
  {
    ListIsSuffix(run, request, db, p.cursor);
    if p.cursor <= |db.events| {
      SendEventsSends(run, request, db.events, after, p, heartbeat, ticks, data);
      assert p.cursor == |db.events| ==> db.events[p.cursor..] == [];
    }
  }

  lemma BeatIsOpen(log: seq<Event>, after: nat, p: Progress, heartbeat: nat, ticks: Ticks, data: Event -> string)
    requires Open(log, after, p, heartbeat, data) && Monotone(ticks)
    ensures Open(log, after, Beat(p, heartbeat, ticks), heartbeat, data) && Beat(p, heartbeat, ticks).cursor == p.cursor
  {
    if ticks(p.reading) - p.lastWrite >= heartbeat {
      var at := ticks(p.reading + 1);
      assert ticks(p.reading) <= at;
      SentHeartbeat(log, after, p.cursor, p.sent, at, data);
      TimedNext(p.(reading := p.reading + 1), Sse.Heartbeat, heartbeat, ticks);
    }
  }

  lemma OpenInLonger(log: seq<Event>, longer: seq<Event>, after: nat, p: Progress, heartbeat: nat, data: Event -> string)
    requires Open(log, after, p, heartbeat, data) && log <= longer
    ensures Open(longer, after, p, heartbeat, data)
  {
    SentInLonger(log, longer, after, p.cursor, p.sent, data);
  }

  /** Where a stream stands when it stops: it sent the log from `after` to its cursor, stopped at the first event that ends
      the run, and if it stopped for another reason it has sent all of the log. */
  ghost predicate EndsRight(log: seq<Event>, after: nat, p: Progress, end: End, heartbeat: nat, data: Event -> string) {
    && SentSlice(log, after, p.cursor, p.sent, data) && Timed(p, heartbeat)
    && (end.TerminalSent? <==> p.cursor > after && IsTerminalType(log[p.cursor - 1].kind))
    && (!end.TerminalSent? ==> p.cursor >= |log|)
  }

  /** The log after the first `used` polls were answered. */
  function Seen(log: seq<Event>, polls: seq<Poll>, used: nat): seq<Event>
    requires used <= |polls|
  {
    if used == 0 then log else polls[used - 1].db.events
  }

  /** Why a stream stops after `used` polls: there are no more; or the client is gone at the next; or the last one is the first
      that finds the run over; or an event that ends the run came, and was not in the log before. */
  ghost predicate StopsAfter(log: seq<Event>, polls: seq<Poll>, used: nat, cursor: nat, end: End) {
    && used <= |polls|
    && (forall k | 0 <= k < used :: !polls[k].gone)
    && (forall k | 0 <= k < used - 1 :: !IsTerminalStatus(polls[k].status))
    && match end
       case PollsUsed => used == |polls| && (used > 0 ==> !IsTerminalStatus(polls[used - 1].status))
       case ClientGone => used < |polls| && polls[used].gone && (used > 0 ==> !IsTerminalStatus(polls[used - 1].status))
       case RunOver => used > 0 && IsTerminalStatus(polls[used - 1].status)
       case TerminalSent => used > 0 && cursor > |Seen(log, polls, used - 1)|
  }

  lemma PollSends(
    run: Uuid, request: Uuid, log: seq<Event>, after: nat, p: Progress, poll: Poll, heartbeat: nat, ticks: Ticks,
    data: Event -> string)
    requires Open(log, after, p, heartbeat, data) && p.cursor >= |log| && Monotone(ticks)
    requires log <= poll.db.events && Chained(run, request, poll.db.events)
    ensures var (q, stop) := PollOnce(p, poll, heartbeat, ticks, data);
            match stop
            case None => Open(poll.db.events, after, q, heartbeat, data) && q.cursor >= |poll.db.events|
            case Some(end) =>
              && EndsRight(if end.ClientGone? then log else poll.db.events, after, q, end, heartbeat, data)
              && (end.TerminalSent? ==> q.cursor > |log|)
  {
    if !poll.gone {
      var now := poll.db.events;
      OpenInLonger(log, now, after, p, heartbeat, data);
      ListedAreSent(run, request, poll.db, after, p, heartbeat, ticks, data);
      var (q, over) := SendEvents(p, ListEvents(poll.db, p.cursor), ticks, data);
      if !over && !IsTerminalStatus(poll.status) { BeatIsOpen(now, after, q, heartbeat, ticks, data); }
    }
  }

  lemma StopsOneLater(log: seq<Event>, polls: seq<Poll>, used: nat, cursor: nat, end: End)
    requires polls != [] && StopsAfter(polls[0].db.events, polls[1..], used, cursor, end)
    requires !polls[0].gone && !IsTerminalStatus(polls[0].status)
    ensures StopsAfter(log, polls, used + 1, cursor, end)
    ensures Seen(log, polls, used + 1) == Seen(polls[0].db.events, polls[1..], used)
  {
    assert forall k | 0 < k < |polls| :: polls[k] == polls[1..][k - 1];
  }

  /** Where and why a stream stopped that used so many polls. */
  ghost predicate SlicesWell(
    log: seq<Event>, after: nat, result: (Progress, End), polls: seq<Poll>, used: nat, heartbeat: nat, data: Event -> string)
  {
    && StopsAfter(log, polls, used, result.0.cursor, result.1)
    && EndsRight(Seen(log, polls, used), after, result.0, result.1, heartbeat, data)
  }

  lemma SlicesOneLater(
    log: seq<Event>, after: nat, result: (Progress, End), polls: seq<Poll>, more: nat, heartbeat: nat, data: Event -> string)
    requires polls != [] && !polls[0].gone && !IsTerminalStatus(polls[0].status)
    requires SlicesWell(polls[0].db.events, after, result, polls[1..], more, heartbeat, data)
    ensures SlicesWell(log, after, result, polls, more + 1, heartbeat, data)
  {
    StopsOneLater(log, polls, more, result.0.cursor, result.1);
  }

  /** A first poll that stops the stream. */
  lemma FirstPollStops(
    run: Uuid, request: Uuid, log: seq<Event>, after: nat, p: Progress, polls: seq<Poll>, heartbeat: nat, ticks: Ticks,
    data: Event -> string)
    returns (used: nat)
    requires Open(log, after, p, heartbeat, data) && p.cursor >= |log| && Monotone(ticks)
    requires polls != [] && log <= polls[0].db.events && Chained(run, request, polls[0].db.events)
    requires PollOnce(p, polls[0], heartbeat, ticks, data).1.Some?
    ensures SlicesWell(log, after, Polled(p, polls, heartbeat, ticks, data), polls, used, heartbeat, data)
  {
    PollSends(run, request, log, after, p, polls[0], heartbeat, ticks, data);
    used := if PollOnce(p, polls[0], heartbeat, ticks, data).1.value.ClientGone? then 0 else 1;
  }

  /** A first poll after which the stream goes on. */
  lemma FirstPollGoesOn(
    run: Uuid, request: Uuid, log: seq<Event>, after: nat, p: Progress, polls: seq<Poll>, heartbeat: nat, ticks: Ticks,
    data: Event -> string)
    returns (q: Progress)
    requires Open(log, after, p, heartbeat, data) && p.cursor >= |log| && Monotone(ticks)
    requires polls != [] && log <= polls[0].db.events && Chained(run, request, polls[0].db.events)
    requires PollOnce(p, polls[0], heartbeat, ticks, data).1.None?
    ensures !polls[0].gone && !IsTerminalStatus(polls[0].status)
    ensures Open(polls[0].db.events, after, q, heartbeat, data) && q.cursor >= |polls[0].db.events|
    ensures Polled(p, polls, heartbeat, ticks, data) == Polled(q, polls[1..], heartbeat, ticks, data)
  {
    PollSends(run, request, log, after, p, polls[0], heartbeat, ticks, data);
    q := PollOnce(p, polls[0], heartbeat, ticks, data).0;
  }

  /** Whatever its polls see of a growing log, the stream sends exactly a stretch of it, in order and without gaps: `used` is
      how many polls it answers, and the stretch reaches to the end of what the last of them saw unless the run ends in it. */
  lemma {:induction false} StreamSendsSlice(
    run: Uuid, request: Uuid, log: seq<Event>, after: nat, p: Progress, polls: seq<Poll>, heartbeat: nat, ticks: Ticks,
    data: Event -> string)
    returns (used: nat)
    requires Open(log, after, p, heartbeat, data) && p.cursor >= |log| && Monotone(ticks)
    requires Grows(run, request, log, polls)
    ensures SlicesWell(log, after, Polled(p, polls, heartbeat, ticks, data), polls, used, heartbeat, data)
    decreases |polls|
  {
    if polls == [] {
      used := 0;
    } else if PollOnce(p, polls[0], heartbeat, ticks, data).1.Some? {
      used := FirstPollStops(run, request, log, after, p, polls, heartbeat, ticks, data);
    } else {
      var q := FirstPollGoesOn(run, request, log, after, p, polls, heartbeat, ticks, data);
      var more := StreamSendsSlice(run, request, polls[0].db.events, after, q, polls[1..], heartbeat, ticks, data);
      SlicesOneLater(log, after, Polled(q, polls[1..], heartbeat, ticks, data), polls, more, heartbeat, data);
      used := more + 1;
    }
  }

  /** The whole stream, from the request on. */
  lemma ServerSendsSlice(
    run: Uuid, request: Uuid, after: nat, polls: seq<Poll>, heartbeat: nat, ticks: Ticks, data: Event -> string)
    returns (used: nat)
    requires Monotone(ticks) && Grows(run, request, [], polls)
    ensures var result := Polled(Begin(after, heartbeat, ticks), polls, heartbeat, ticks, data);
            SlicesWell([], after, result, polls, used, heartbeat, data)
  {
    used := StreamSendsSlice(run, request, [], after, Begin(after, heartbeat, ticks), polls, heartbeat, ticks, data);
  }
}
