/** The studio's reconnecting client: a cursor, the ids seen so far, and merged events. */
module Resume {
  import opened Options
  import opened Numbers
  import opened RunEvents
  import opened EventMerge

  /** What one connection delivers before it ends cleanly or throws. */
  datatype Delivered = Delivered(items: seq<Event>, thrown: bool)

  datatype State = Complete | Error | TornDown

  function HighestSequence(events: seq<Event>): nat {
    if events == [] then 0
    else
      var h := HighestSequence(events[..|events| - 1]);
      var n := events[|events| - 1].sequence;
      if n > h then n else h
  }

  /** The highest sequence number: none is above it, and it is one of them, or zero. */
  lemma {:induction false} HighestSays(events: seq<Event>)
    ensures forall k | 0 <= k < |events| :: events[k].sequence <= HighestSequence(events)
    ensures HighestSequence(events) == 0 || exists k :: 0 <= k < |events| && events[k].sequence == HighestSequence(events)
  {
    if events != [] {
      var init := events[..|events| - 1];
      HighestSays(init);
      assert forall k | 0 <= k < |init| :: events[k] == init[k];
    }
  }

  predicate AnyTerminal(events: seq<Event>) { exists k :: 0 <= k < |events| && IsTerminalType(events[k].kind) }

  /** The failure counter after some connections: a clean end with events resets it to one, anything else counts up. */
  function Attempts(past: seq<Delivered>): nat {
    if past == [] then 0
    else
      var last := past[|past| - 1];
      if !last.thrown && last.items != [] then 1 else Attempts(past[..|past| - 1]) + 1
  }

  function Backoff(delay: nat, attempt: nat): nat {
    var d := delay * Power2(if attempt > 1 then attempt - 1 else 0);
    if d < 5000 then d else 5000
  }

  /** The pause doubles with every failure after the first, up to five seconds. */
  lemma BackoffSays(delay: nat, attempt: nat)
    ensures attempt <= 1 ==> Backoff(delay, attempt) == if delay < 5000 then delay else 5000
    ensures attempt >= 1 ==>
              Backoff(delay, attempt + 1) == if 2 * Backoff(delay, attempt) < 5000 then 2 * Backoff(delay, attempt) else 5000
  {
    if attempt >= 1 {
      var p := Power2(attempt - 1);
      assert Power2(attempt) == 2 * p;
      assert delay * (2 * p) == 2 * (delay * p);
    }
  }

  /** A connection that ended cleanly after it delivered something. */
  predicate WentWell(d: Delivered) { !d.thrown && d.items != [] }

  /** The failure counter is the number of connections since the last that went well, that one included. */
  lemma {:induction false} AttemptsSay(past: seq<Delivered>, m: nat)
    requires m < |past| && WentWell(past[m]) && forall k | m < k < |past| :: !WentWell(past[k])
    ensures Attempts(past) == |past| - m
  {
    if m < |past| - 1 { AttemptsSay(past[..|past| - 1], m); }
  }

  lemma {:induction false} AttemptsOfFailures(past: seq<Delivered>)
    requires forall k | 0 <= k < |past| :: !WentWell(past[k])
    ensures Attempts(past) == |past|
  {
    if past != [] { AttemptsOfFailures(past[..|past| - 1]); }
  }

  function Ids(events: seq<Event>): (r: set<Uuid>)
    ensures forall id :: id in r <==> Has(events, id)
  {
    set k | 0 <= k < |events| :: events[k].id
  }

  /** The pause after each connection follows the failure counter, and is never longer than five seconds. */
  ghost predicate Waited(delay: nat, past: seq<Delivered>, waits: seq<nat>)
    requires |waits| == |past|
  {
    waits == [] ||
    (var n := |waits| - 1;
     waits[n] == Backoff(delay, Attempts(past)) <= 5000 && Waited(delay, past[..n], waits[..n]))
  }

  /** Each connection was asked to resume after the cursor of that moment, and the cursor never went back. */
  ghost predicate Opened(connect: (nat, nat) -> Delivered, past: seq<Delivered>, asked: seq<nat>, cursor: nat) {
    && |asked| == |past|
    && (past == [] ||
        (var n := |past| - 1;
         asked[n] <= cursor && past[n] == connect(n, asked[n]) && Opened(connect, past[..n], asked[..n], asked[n])))
  }

  lemma OpenedNext(
    connect: (nat, nat) -> Delivered, past: seq<Delivered>, asked: seq<nat>, from: nat, cursor: nat, waits: seq<nat>, delay: nat)
    requires Opened(connect, past, asked, from) && from <= cursor && |waits| == |past| && Waited(delay, past, waits)
    ensures var more := past + [connect(|past|, from)];
            && Opened(connect, more, asked + [from], cursor)
            && more[..|waits|] == past && Waited(delay, more[..|waits|], waits)
            && Waited(delay, more, waits + [Backoff(delay, Attempts(more))])
            && Attempts(more) ==
               if !connect(|past|, from).thrown && connect(|past|, from).items != [] then 1 else Attempts(past) + 1
  {
    var more, waited := past + [connect(|past|, from)], waits + [Backoff(delay, Attempts(past + [connect(|past|, from)]))];
    assert more[..|past|] == past && (asked + [from])[..|asked|] == asked && waited[..|waits|] == waits;
  }

  // ----- connections to one log -----

  /** A piece of the log that starts at or before the cursor: what a server that resumes after the cursor delivers,
      broken off anywhere. */
  ghost predicate SliceFrom(log: seq<Event>, cursor: nat, items: seq<Event>) {
    exists a: nat :: a <= cursor && Piece(log, a, items)
  }

  ghost predicate Piece(log: seq<Event>, a: nat, items: seq<Event>) {
    a + |items| <= |log| && forall k | 0 <= k < |items| :: items[k] == log[a + k]
  }

  ghost predicate Serves(log: seq<Event>, connect: (nat, nat) -> Delivered) {
    forall n: nat, cursor: nat :: cursor <= |log| ==> SliceFrom(log, cursor, connect(n, cursor).items)
  }

  /** The client's state: the events are exactly the log up to the cursor, and the run was not over by then. */
  ghost predicate InStep(log: seq<Event>, cursor: nat, seen: set<Uuid>, events: seq<Event>) {
    cursor <= |log| && events == log[..cursor] && seen == Ids(log[..cursor]) && !AnyTerminal(log[..cursor])
  }

  lemma NextIsNew(run: Uuid, request: Uuid, log: seq<Event>, cursor: nat)
    requires Chained(run, request, log) && cursor < |log|
    ensures log[cursor].id !in Ids(log[..cursor])
    ensures Ids(log[..cursor + 1]) == Ids(log[..cursor]) + {log[cursor].id}
  {
    var before, after := log[..cursor], log[..cursor + 1];
    forall k | 0 <= k < cursor ensures before[k].id != log[cursor].id {
      if log[k].id == log[cursor].id { ChainedIdsDiffer(run, request, log, k, cursor); }
    }
    forall id ensures id in Ids(after) <==> id in Ids(before) || id == log[cursor].id {
      if Has(before, id) {
        var k :| 0 <= k < |before| && before[k].id == id;
        assert after[k].id == id;
      }
      if id == log[cursor].id { assert after[cursor].id == id; }
    }
  }

  lemma NextTerminal(log: seq<Event>, cursor: nat)
    requires cursor < |log|
    ensures AnyTerminal(log[..cursor + 1]) <==> AnyTerminal(log[..cursor]) || IsTerminalType(log[cursor].kind)
  {
    var before, after := log[..cursor], log[..cursor + 1];
    if AnyTerminal(before) {
      var k :| 0 <= k < |before| && IsTerminalType(before[k].kind);
      assert IsTerminalType(after[k].kind);
    }
    assert after[cursor] == log[cursor];
    assert forall k | 0 <= k < cursor :: after[k] == before[k];
  }

  /** The next event of the log is new to the client and moves it one step on. */
  lemma StepsOn(
    run: Uuid, request: Uuid, log: seq<Event>, cursor: nat, seen: set<Uuid>, events: seq<Event>, leq: IdOrder)
    requires Chained(run, request, log) && TotalOrder(leq) && cursor < |log| && InStep(log, cursor, seen, events)
    ensures log[cursor].id !in seen && log[cursor].sequence == cursor + 1
    ensures Merge(events, [log[cursor]], leq) == log[..cursor + 1]
    ensures !IsTerminalType(log[cursor].kind) ==>
              InStep(log, cursor + 1, seen + {log[cursor].id}, Merge(events, [log[cursor]], leq))
  {
    NextIsNew(run, request, log, cursor);
    NextTerminal(log, cursor);
    MergeExtendsPrefix(run, request, log, cursor, cursor, cursor + 1, leq);
    assert log[cursor..cursor + 1] == [log[cursor]];
    assert Linked(run, request, log, cursor);
  }

  /** An event before the cursor is known and did not end the run. */
  lemma KnownAlready(
    run: Uuid, request: Uuid, log: seq<Event>, k: nat, cursor: nat, seen: set<Uuid>, events: seq<Event>)
    requires Chained(run, request, log) && k < cursor && InStep(log, cursor, seen, events)
    ensures log[k].id in seen && !IsTerminalType(log[k].kind) && log[k].sequence == k + 1
  {
    assert Linked(run, request, log, k);
    assert log[..cursor][k] == log[k];
    assert Has(log[..cursor], log[k].id);
  }

  lemma {:induction false} HighestOfPrefix(run: Uuid, request: Uuid, log: seq<Event>)
    requires Chained(run, request, log)
    ensures HighestSequence(log) == |log|
  {
    if log != [] {
      var init := log[..|log| - 1];
      ChainedPrefix(run, request, log, init);
      HighestOfPrefix(run, request, init);
      assert Linked(run, request, log, |log| - 1);
    }
  }

  /** The client shows exactly the log up to the cursor, and stopped at the first event that ends the run, if it got there. */
  ghost predicate Shows(log: seq<Event>, cursor: nat, events: seq<Event>, complete: bool) {
    && cursor <= |log| && events == log[..cursor]
    && (complete ==> cursor > 0 && IsTerminalType(log[cursor - 1].kind) && !AnyTerminal(log[..cursor - 1]))
    && (!complete ==> !AnyTerminal(log[..cursor]))
  }

  /** Some of these events end the run, and the first that does is at place k. */
  ghost predicate FirstTerminal(items: seq<Event>, k: nat) {
    k < |items| && IsTerminalType(items[k].kind) && !AnyTerminal(items[..k])
  }

  /** One received event. */
  method Receive(
    item: Event, ghost run: Uuid, ghost request: Uuid, ghost log: seq<Event>, ghost place: nat, from: nat, known: set<Uuid>,
    shown: seq<Event>, leq: IdOrder)
    returns (cursor: nat, seen: set<Uuid>, events: seq<Event>, complete: bool)
    requires Chained(run, request, log) && TotalOrder(leq) && InStep(log, from, known, shown)
    requires place <= from && place < |log| && item == log[place]
    ensures cursor == if place < from then from else from + 1
    ensures complete <==> IsTerminalType(item.kind)
    ensures complete ==> cursor == place + 1 && Shows(log, cursor, events, true)
    ensures !complete ==> InStep(log, cursor, seen, events)
  {
    cursor, seen, events := from, known, shown;
    if place < from {
      KnownAlready(run, request, log, place, from, known, shown);
    } else {
      StepsOn(run, request, log, from, known, shown, leq);
    }
    cursor := if item.sequence > cursor then item.sequence else cursor;
    if item.id !in seen {
      seen := seen + {item.id};
      events := MergeRunEvents(events, [item], leq);
    }
    complete := IsTerminalType(item.kind);
  }

  /** The events of one connection, up to one that ends the run: all of them are taken, or those up to the first that ends it. */
  method Absorb(
    items: seq<Event>, ghost run: Uuid, ghost request: Uuid, ghost log: seq<Event>, ghost place: nat, from: nat,
    known: set<Uuid>, shown: seq<Event>,
    leq: IdOrder)
    returns (cursor: nat, seen: set<Uuid>, events: seq<Event>, complete: bool)
    requires Chained(run, request, log) && TotalOrder(leq) && InStep(log, from, known, shown)
    requires place <= from && Piece(log, place, items)
    ensures complete <==> AnyTerminal(items)
    ensures complete ==> exists k :: FirstTerminal(items, k) && cursor == place + k + 1
    ensures complete ==> from < cursor && Shows(log, cursor, events, true)
    ensures !complete ==> cursor == (if place + |items| > from then place + |items| else from)
    ensures !complete ==> InStep(log, cursor, seen, events)
  {
    cursor, seen, events, complete := from, known, shown, false;
    for k := 0 to |items|
      invariant cursor == if place + k > from then place + k else from
      invariant InStep(log, cursor, seen, events) && !AnyTerminal(items[..k]) && !complete
    {
      NextTerminal(items, k);
      cursor, seen, events, complete := Receive(items[k], run, request, log, place + k, cursor, seen, events, leq);
      if complete {
        assert FirstTerminal(items, k);
        return;
      }
    }
    assert items[..|items|] == items;
  }

  /** The failure counter and the pauses agree with the connections made, and an error state means too many failures. */
  ghost predicate Counted(past: seq<Delivered>, waits: seq<nat>, delay: nat, state: State, limit: nat) {
    && |past| <= limit && |past| - 1 <= |waits| <= |past| && Waited(delay, past[..|waits|], waits)
    && (state.Error? ==> past != [] && past[|past| - 1].thrown && Attempts(past) > 8)
    && (state.TornDown? ==> |past| == limit)
  }

  /** None of these connections was the ninth failure in a row. */
  ghost predicate Patient(past: seq<Delivered>) {
    past == [] || (Patient(past[..|past| - 1]) && !(past[|past| - 1].thrown && Attempts(past) > 8))
  }

  /** Everything the connections delivered. */
  function AllItems(past: seq<Delivered>): seq<Event> {
    if past == [] then [] else AllItems(past[..|past| - 1]) + past[|past| - 1].items
  }

  /** What is shown was shown before or delivered since, and all that was is shown. */
  ghost predicate Gathered(events: seq<Event>, before: seq<Event>, items: seq<Event>) {
    forall e :: e in events <==> e in before || e in items
  }

  /** Of these last items those up to place k, the first that ends the run. */
  ghost predicate ShowedUpTo(events: seq<Event>, before: seq<Event>, earlier: seq<Event>, items: seq<Event>, k: nat) {
    FirstTerminal(items, k) && Gathered(events, before, earlier + items[..k + 1])
  }

  ghost predicate Finished(events: seq<Event>, before: seq<Event>, earlier: seq<Event>, items: seq<Event>) {
    exists k :: ShowedUpTo(events, before, earlier, items, k)
  }

  /** What is shown at the end: all that was delivered, or, when the run was over, all before the last connection
      and of that the events up to the first that ends the run. */
  ghost predicate Showed(events: seq<Event>, before: seq<Event>, past: seq<Delivered>, state: State) {
    && (state.TornDown? ==> Gathered(events, before, AllItems(past)) && Patient(past))
    && (!state.TornDown? ==> past != [] && Patient(past[..|past| - 1]))
    && (state.Error? ==> Gathered(events, before, AllItems(past)))
    && (state.Complete? ==> Finished(events, before, AllItems(past[..|past| - 1]), past[|past| - 1].items))
  }

  /** A client in step that takes a piece of the log shows what it showed and the piece. */
  lemma PieceIsGathered(log: seq<Event>, from: nat, place: nat, items: seq<Event>, cursor: nat)
    requires place <= from <= |log| && Piece(log, place, items)
    requires cursor == if place + |items| > from then place + |items| else from
    ensures Gathered(log[..cursor], log[..from], items)
  {
    forall e ensures e in log[..cursor] <==> e in log[..from] || e in items {
      if e in log[..cursor] {
        var k :| 0 <= k < cursor && log[k] == e;
        assert k < from ==> log[..from][k] == e;
        assert k >= from ==> items[k - place] == e;
      }
      if e in log[..from] {
        var k :| 0 <= k < from && log[..from][k] == e;
        assert log[..cursor][k] == e;
      }
      if e in items {
        var k :| 0 <= k < |items| && items[k] == e;
        assert log[..cursor][place + k] == e;
      }
    }
  }

  lemma GatheredOn(events: seq<Event>, mid: seq<Event>, before: seq<Event>, items: seq<Event>, more: seq<Event>)
    requires Gathered(mid, before, items) && Gathered(events, mid, more)
    ensures Gathered(events, before, items + more)
  {}

  /** One connection: its events, then the failure counter. */
  method Follow(
    stream: Delivered, ghost run: Uuid, ghost request: Uuid, ghost log: seq<Event>, from: nat,
    known: set<Uuid>, shown: seq<Event>,
    failures: nat, leq: IdOrder)
    returns (cursor: nat, seen: set<Uuid>, events: seq<Event>, attempt: nat, stop: Option<State>)
    requires Chained(run, request, log) && TotalOrder(leq) && InStep(log, from, known, shown)
    requires SliceFrom(log, from, stream.items)
    ensures from <= cursor && stop != Some(TornDown)
    ensures if stop == Some(Complete) then Shows(log, cursor, events, true) else InStep(log, cursor, seen, events)
    ensures stop == Some(Complete) ==> Finished(events, shown, [], stream.items)
    ensures stop != Some(Complete) ==>
              && Gathered(events, shown, stream.items)
              && attempt == (if !stream.thrown && stream.items != [] then 1 else failures + 1)
              && (stop == Some(Error) <==> stream.thrown && attempt > 8)
  {
    ghost var place: nat :| place <= from && Piece(log, place, stream.items);
    var complete;
    attempt, stop := failures, None;
    cursor, seen, events, complete := Absorb(stream.items, run, request, log, place, from, known, shown, leq);
    if complete {
      stop := Some(Complete);
      ghost var k: nat :| FirstTerminal(stream.items, k) && cursor == place + k + 1;
      PieceIsGathered(log, from, place, stream.items[..k + 1], cursor);
      assert [] + stream.items[..k + 1] == stream.items[..k + 1];
      assert ShowedUpTo(events, shown, [], stream.items, k);
    } else {
      PieceIsGathered(log, from, place, stream.items, cursor);
      if !stream.thrown {
        attempt := if stream.items != [] then 1 else attempt + 1;
      } else {
        attempt := attempt + 1;
        if attempt > 8 {
          stop := Some(Error);
        }
      }
    }
  }

  /** The reconnect loop of useRunEvents: `connect(n, cursor)` is the n-th connection, asked to resume after `cursor`;
      `limit` of them are opened before the component goes away. */
  method Reconnect(
    ghost run: Uuid, ghost request: Uuid, ghost log: seq<Event>, from: nat, known: set<Uuid>, shown: seq<Event>,
    connect: (nat, nat) -> Delivered, limit: nat, delay: nat, leq: IdOrder)
    returns (events: seq<Event>, cursor: nat, state: State, waits: seq<nat>, past: seq<Delivered>, ghost asked: seq<nat>)
    requires Chained(run, request, log) && TotalOrder(leq) && Serves(log, connect) && InStep(log, from, known, shown)
    ensures from <= cursor && Shows(log, cursor, events, state.Complete?)
    ensures Opened(connect, past, asked, cursor) && Counted(past, waits, delay, state, limit)
    ensures Showed(events, shown, past, state)
  {
    events, cursor, waits, past, asked := shown, from, [], [], [];
    var seen := known;
    var attempt := 0;
    while |past| < limit
      invariant from <= cursor && InStep(log, cursor, seen, events)
      invariant |past| == |waits| <= limit && attempt == Attempts(past) && Waited(delay, past, waits)
      invariant Opened(connect, past, asked, cursor)
      invariant Gathered(events, shown, AllItems(past)) && Patient(past)
      decreases limit - |past|
    {
      var stream := connect(|past|, cursor);
      ghost var before, mid, earlier := cursor, events, past;
      var stop;
      cursor, seen, events, attempt, stop := Follow(stream, run, request, log, cursor, seen, events, attempt, leq);
      OpenedNext(connect, past, asked, before, cursor, waits, delay);
      past, asked := past + [stream], asked + [before];
      assert past[..|past| - 1] == earlier;
      ConnectionIsShown(events, mid, shown, earlier, stream, stop);
      if stop.Some? {
        state := stop.value;
        return;
      }
      waits := waits + [Backoff(delay, attempt)];
    }
    state := TornDown;
    assert past[..|waits|] == past;
  }

  lemma ConnectionIsShown(
    events: seq<Event>, mid: seq<Event>, before: seq<Event>, earlier: seq<Delivered>, stream: Delivered, stop: Option<State>)
    requires Gathered(mid, before, AllItems(earlier)) && Patient(earlier) && stop != Some(TornDown)
    requires stop == Some(Complete) ==> Finished(events, mid, [], stream.items)
    requires stop != Some(Complete) ==> Gathered(events, mid, stream.items)
    requires stop == None ==> !(stream.thrown && Attempts(earlier + [stream]) > 8)
    ensures Showed(events, before, earlier + [stream], if stop.Some? then stop.value else TornDown)
    ensures stop == None ==> Gathered(events, before, AllItems(earlier + [stream])) && Patient(earlier + [stream])
  {
    assert (earlier + [stream])[..|earlier|] == earlier;
    if stop == Some(Complete) {
      var k: nat :| ShowedUpTo(events, mid, [], stream.items, k);
      assert [] + stream.items[..k + 1] == stream.items[..k + 1];
      GatheredOn(events, mid, before, AllItems(earlier), stream.items[..k + 1]);
      assert ShowedUpTo(events, before, AllItems(earlier), stream.items, k);
    } else {
      GatheredOn(events, mid, before, AllItems(earlier), stream.items);
    }
  }

  /** useRunEvents, from the events the page was loaded with. */
  method Consume(
    ghost run: Uuid, ghost request: Uuid, ghost log: seq<Event>, initial: seq<Event>,
    connect: (nat, nat) -> Delivered, limit: nat,
    delay: nat, leq: IdOrder)
    returns (events: seq<Event>, cursor: nat, state: State, waits: seq<nat>, past: seq<Delivered>, ghost asked: seq<nat>)
    requires Chained(run, request, log) && TotalOrder(leq) && Serves(log, connect) && initial <= log
    ensures |initial| <= cursor <= |log| && events == log[..cursor]
    ensures state.Complete? <==> AnyTerminal(events)
    ensures AnyTerminal(initial) ==> events == initial && past == []
    ensures !AnyTerminal(initial) ==> Shows(log, cursor, events, state.Complete?) && Showed(events, initial, past, state)
    ensures Opened(connect, past, asked, cursor) && Counted(past, waits, delay, state, limit)
  {
    events := MergeRunEvents([], initial, leq);
    InitialIsPrefix(run, request, log, initial, leq);
    cursor, waits, past, asked := HighestSequence(initial), [], [], [];
    var seen := Ids(initial);
    if AnyTerminal(initial) {
      state := Complete;
      return;
    }
    events, cursor, state, waits, past, asked :=
      Reconnect(run, request, log, cursor, seen, events, connect, limit, delay, leq);
    if state.Complete? { assert IsTerminalType(events[cursor - 1].kind); }
  }

  lemma InitialIsPrefix(run: Uuid, request: Uuid, log: seq<Event>, initial: seq<Event>, leq: IdOrder)
    requires Chained(run, request, log) && TotalOrder(leq) && initial <= log
    ensures Merge([], initial, leq) == initial == log[..|initial|] && HighestSequence(initial) == |initial|
  {
    MergeExtendsPrefix(run, request, log, 0, 0, |initial|, leq);
    assert log[..0] == [] && log[0..|initial|] == initial == log[..|initial|];
    ChainedPrefix(run, request, log, initial);
    HighestOfPrefix(run, request, initial);
  }
}
