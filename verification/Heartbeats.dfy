/** When the event stream writes a heartbeat: after every poll that leaves it silent for long enough, and at no other time. */
module Heartbeats {
  import opened Options
  import opened RunEvents
  import opened RunDatabase
  import opened EventStream
  import Sequences
  import Sse

  /** The events of a poll as they are written, each with the clock reading after it. */
  function Written(events: seq<Event>, reading: nat, ticks: Ticks, data: Event -> string): seq<Sent>
    decreases |events|
  {
    if events == [] then []
    else [Sent(Encode(events[0], data), ticks(reading))] + Written(events[1..], reading + 1, ticks, data)
  }

  lemma {:induction false} WrittenSays(events: seq<Event>, reading: nat, ticks: Ticks, data: Event -> string)
    ensures var r := Written(events, reading, ticks, data);
            |r| == |events| && forall k | 0 <= k < |r| :: r[k] == Sent(Encode(events[k], data), ticks(reading + k))
    decreases |events|
  {
    if events != [] {
      WrittenSays(events[1..], reading + 1, ticks, data);
      WrittenFirst(events, reading, ticks, data);
      var r := Written(events, reading, ticks, data);
      forall k | 0 <= k < |r| ensures r[k] == Sent(Encode(events[k], data), ticks(reading + k)) {
        if k > 0 { assert r[k] == Written(events[1..], reading + 1, ticks, data)[k - 1] && events[k] == events[1..][k - 1]; }
      }
    }
  }

  /** The instant of the last write once n events are written. */
  function LastWrite(p: Progress, n: nat, ticks: Ticks): int { if n == 0 then p.lastWrite else ticks(p.reading + n - 1) }

  /** The stream from `p` on once these events are written. */
  ghost predicate AllWritten(p: Progress, events: seq<Event>, q: Progress, ticks: Ticks, data: Event -> string) {
    && q.sent == p.sent + Written(events, p.reading, ticks, data)
    && q.reading == p.reading + |events| && q.lastWrite == LastWrite(p, |events|, ticks)
    && q.cursor == if events == [] then p.cursor else events[|events| - 1].sequence
  }

  lemma WrittenFirst(events: seq<Event>, reading: nat, ticks: Ticks, data: Event -> string)
    requires events != []
    ensures Written(events, reading, ticks, data)
         == [Sent(Encode(events[0], data), ticks(reading))] + Written(events[1..], reading + 1, ticks, data)
  {}

  lemma FirstWritten(p: Progress, events: seq<Event>, mid: Progress, q: Progress, ticks: Ticks, data: Event -> string)
    requires events != [] && mid == Wrote(p.(cursor := events[0].sequence), Encode(events[0], data), ticks)
    requires AllWritten(mid, events[1..], q, ticks, data)
    ensures AllWritten(p, events, q, ticks, data)
  {
    WrittenFirst(events, p.reading, ticks, data);
    var first := Sent(Encode(events[0], data), ticks(p.reading));
    Sequences.Associates(p.sent, [first], Written(events[1..], mid.reading, ticks, data));
    if |events| > 1 { assert events[1..][|events| - 2] == events[|events| - 1]; }
  }

  lemma {:induction false} AllAreWritten(p: Progress, events: seq<Event>, ticks: Ticks, data: Event -> string)
    requires !SendEvents(p, events, ticks, data).1
    ensures AllWritten(p, events, SendEvents(p, events, ticks, data).0, ticks, data)
    decreases |events|
  {
    if events != [] {
      var mid := Wrote(p.(cursor := events[0].sequence), Encode(events[0], data), ticks);
      AllAreWritten(mid, events[1..], ticks, data);
      FirstWritten(p, events, mid, SendEvents(mid, events[1..], ticks, data).0, ticks, data);
    } else {
      assert p.sent + [] == p.sent;
    }
  }

  /** Whether a heartbeat was due, and written. */
  ghost predicate Beats(q: Progress, heartbeat: nat, ticks: Ticks, r: Progress) {
    r.cursor == q.cursor &&
    if ticks(q.reading) - q.lastWrite >= heartbeat
    then r.sent == q.sent + [Sent(Sse.Heartbeat, ticks(q.reading + 1))] && r.lastWrite == ticks(q.reading + 1)
         && r.reading == q.reading + 2
    else r.sent == q.sent && r.lastWrite == q.lastWrite && r.reading == q.reading + 1
  }

  lemma BeatSays(q: Progress, heartbeat: nat, ticks: Ticks)
    ensures Beats(q, heartbeat, ticks, Beat(q, heartbeat, ticks))
  {}

  lemma PollGoesOn(p: Progress, poll: Poll, heartbeat: nat, ticks: Ticks, data: Event -> string) returns (q: Progress)
    requires PollOnce(p, poll, heartbeat, ticks, data).1.None?
    ensures SendEvents(p, ListEvents(poll.db, p.cursor), ticks, data) == (q, false)
    ensures PollOnce(p, poll, heartbeat, ticks, data).0 == Beat(q, heartbeat, ticks)
  {
    var (r, over) := SendEvents(p, ListEvents(poll.db, p.cursor), ticks, data);
    q := r;
  }

  /** The events, and then a heartbeat exactly when the clock shows `heartbeat` or more since the last write. */
  ghost predicate Writes(p: Progress, events: seq<Event>, heartbeat: nat, r: Progress, ticks: Ticks, data: Event -> string) {
    var n := |events|;
    var silent := ticks(p.reading + n) - LastWrite(p, n, ticks);
    && r.cursor == (if n == 0 then p.cursor else events[n - 1].sequence)
    && if silent >= heartbeat
       then r.sent == p.sent + Written(events, p.reading, ticks, data) + [Sent(Sse.Heartbeat, ticks(p.reading + n + 1))]
            && r.lastWrite == ticks(p.reading + n + 1) && r.reading == p.reading + n + 2
       else r.sent == p.sent + Written(events, p.reading, ticks, data)
            && r.lastWrite == LastWrite(p, n, ticks) && r.reading == p.reading + n + 1
  }

  lemma WrittenThenBeats(
    p: Progress, events: seq<Event>, q: Progress, heartbeat: nat, r: Progress, ticks: Ticks, data: Event -> string)
    requires AllWritten(p, events, q, ticks, data) && Beats(q, heartbeat, ticks, r)
    ensures Writes(p, events, heartbeat, r, ticks, data)
  {}

  /** A poll that is answered and does not stop the stream writes its events and then, exactly when the stream has been silent
      for long enough, one heartbeat. */
  lemma PollBeats(p: Progress, poll: Poll, heartbeat: nat, ticks: Ticks, data: Event -> string)
    requires PollOnce(p, poll, heartbeat, ticks, data).1.None?
    ensures Writes(p, ListEvents(poll.db, p.cursor), heartbeat, PollOnce(p, poll, heartbeat, ticks, data).0, ticks, data)
  {
    var events := ListEvents(poll.db, p.cursor);
    var q := PollGoesOn(p, poll, heartbeat, ticks, data);
    AllAreWritten(p, events, ticks, data);
    BeatSays(q, heartbeat, ticks);
    WrittenThenBeats(p, events, q, heartbeat, Beat(q, heartbeat, ticks), ticks, data);
  }

  /** A poll that stops the stream writes no heartbeat. */
  lemma {:induction false} OnlyEventsAreWritten(p: Progress, events: seq<Event>, ticks: Ticks, data: Event -> string)
    ensures var q := SendEvents(p, events, ticks, data).0;
            p.sent <= q.sent && forall k | |p.sent| <= k < |q.sent| :: q.sent[k].item.Message?
    decreases |events|
  {
    if events != [] {
      OnlyEventsAreWritten(Wrote(p.(cursor := events[0].sequence), Encode(events[0], data), ticks), events[1..], ticks, data);
    }
  }

  /** A poll stops the stream exactly when the client is gone, an event that ends the run comes, or the run is over;
      then it writes no heartbeat. */
  lemma PollStops(p: Progress, poll: Poll, heartbeat: nat, ticks: Ticks, data: Event -> string)
    ensures var (q, stop) := PollOnce(p, poll, heartbeat, ticks, data);
            && stop == (if poll.gone then Some(ClientGone)
                        else if exists e :: e in ListEvents(poll.db, p.cursor) && IsTerminalType(e.kind) then Some(TerminalSent)
                        else if poll.status in {Completed, Failed, Cancelled} then Some(RunOver)
                        else None)
            && (poll.gone ==> q == p)
            && (stop.Some? ==> p.sent <= q.sent && forall k | |p.sent| <= k < |q.sent| :: q.sent[k].item.Message?)
  {
    OnlyEventsAreWritten(p, ListEvents(poll.db, p.cursor), ticks, data);
    StopsAtTerminal(p, ListEvents(poll.db, p.cursor), ticks, data);
  }

  lemma {:induction false} StopsAtTerminal(p: Progress, events: seq<Event>, ticks: Ticks, data: Event -> string)
    ensures SendEvents(p, events, ticks, data).1 <==> exists e :: e in events && IsTerminalType(e.kind)
    decreases |events|
  {
    if events != [] {
      StopsAtTerminal(Wrote(p.(cursor := events[0].sequence), Encode(events[0], data), ticks), events[1..], ticks, data);
      assert events == [events[0]] + events[1..];
    }
  }

  /** The stream counts as silent from the start: a first poll that lists nothing and finds the run going on is answered
      with a heartbeat, as soon as the clock has not gone back. */
  lemma FirstIdlePollBeats(after: nat, poll: Poll, heartbeat: nat, ticks: Ticks, data: Event -> string)
    requires Monotone(ticks) && !poll.gone && ListEvents(poll.db, after) == [] && !(poll.status in {Completed, Failed, Cancelled})
    ensures PollOnce(Begin(after, heartbeat, ticks), poll, heartbeat, ticks, data).0.sent == [Sent(Sse.Heartbeat, ticks(2))]
    ensures Begin(after, heartbeat, ticks) == Progress([], after, ticks(0) - heartbeat, 1)
  {
    var p := Begin(after, heartbeat, ticks);
    PollBeats(p, poll, heartbeat, ticks, data);
    assert ticks(0) <= ticks(1);
  }
}
