/** The rows of one run and the transactions on them: event log, status, set-once trace, tool result, webhook outbox. */
module RunDatabase {
  import opened Options
  import opened Json
  import opened RunEvents
  import Sequences

  /** A subscription is known by its place in the list. */
  datatype Subscription = Subscription(kinds: set<EventType>, revoked: bool)

  datatype Delivery = Delivery(
    subscription: nat, run: Uuid, sequence: nat, kind: EventType,
    status: Status, result: Option<Json>, errorCode: Option<string>, occurredAt: int)

  /** Event and delivery rows are in insertion order. */
  datatype Database = Database(
    events: seq<Event>, status: Status, startedAt: Option<int>, output: Option<Json>,
    trace: Option<Trace>, invocation: Option<Json>,
    subscriptions: seq<Subscription>, deliveries: seq<Delivery>)

  const CREATED := Database([], Queued, None, None, None, None, [], [])

  /** A transaction commits new rows and a value, or leaves everything as it was. */
  datatype Tx<T> = Commit(db: Database, value: T) | Abort

  /** The rows a transaction leaves behind. */
  function Settle<T>(db: Database, tx: Tx<T>): Database { if tx.Commit? then tx.db else db }

  // ----- append_event -----

  predicate Clashes(row: Event, e: Event) { row.id == e.id || row.sequence == e.sequence }

  /** A row with the event's id or its place in the run, if there is one. */
  function FindRow(rows: seq<Event>, e: Event): (r: Option<Event>)
    ensures r.Some? ==> r.value in rows && Clashes(r.value, e)
    ensures r.None? ==> forall i | 0 <= i < |rows| :: !Clashes(rows[i], e)
  {
    if rows == [] then None else if Clashes(rows[0], e) then Some(rows[0]) else FindRow(rows[1..], e)
  }

  function AppendEvent(db: Database, e: Event): Tx<bool> {
    match FindRow(db.events, e)
    case Some(row) => if row == e then Commit(db, false) else Abort
    case None =>
      var starts := e.kind.RunStarted? && db.status.Queued?;
      Commit(db.(events := db.events + [e],
                 status := if starts then Running else db.status,
                 startedAt := if starts then Some(e.occurredAt) else db.startedAt), true)
  }

  ghost predicate RowsUnique(rows: seq<Event>) {
    forall i, j | 0 <= i < j < |rows| :: !Clashes(rows[i], rows[j])
  }

  /** With unique rows the outcome does not depend on which clashing row the query returns:
      an event that is there is accepted again, any other claim on a taken id or place is refused. */
  lemma AppendOutcome(db: Database, e: Event)
    requires RowsUnique(db.events)
    ensures AppendEvent(db, e) ==
            if e in db.events then Commit(db, false)
            else if exists i | 0 <= i < |db.events| :: db.events[i].id == e.id || db.events[i].sequence == e.sequence then Abort
            else
              var starts := e.kind.RunStarted? && db.status.Queued?;
              Commit(db.(events := db.events + [e], status := if starts then Running else db.status,
                         startedAt := if starts then Some(e.occurredAt) else db.startedAt), true)
  {
    var r := FindRow(db.events, e);
    if r.Some? && e in db.events {
      var i :| 0 <= i < |db.events| && db.events[i] == r.value;
      var j :| 0 <= j < |db.events| && db.events[j] == e;
      assert i == j;
    }
  }

  // ----- list_events -----

  function InsertBySequence(e: Event, sorted: seq<Event>): seq<Event> {
    if sorted == [] || e.sequence <= sorted[0].sequence then [e] + sorted
    else [sorted[0]] + InsertBySequence(e, sorted[1..])
  }

  function SortBySequence(rows: seq<Event>): seq<Event> {
    if rows == [] then [] else InsertBySequence(rows[0], SortBySequence(rows[1..]))
  }

  function After(rows: seq<Event>, cursor: int): seq<Event> {
    if rows == [] then []
    else (if rows[0].sequence > cursor then [rows[0]] else []) + After(rows[1..], cursor)
  }

  /** The rows beyond the cursor, by sequence. */
  function ListEvents(db: Database, cursor: int): seq<Event> { SortBySequence(After(db.events, cursor)) }

  ghost predicate Ascending(rows: seq<Event>) { forall i, j | 0 <= i < j < |rows| :: rows[i].sequence <= rows[j].sequence }

  /** The rows with one sequence number, in order. */
  function OfSequence(rows: seq<Event>, n: nat): seq<Event> {
    if rows == [] then [] else (if rows[0].sequence == n then [rows[0]] else []) + OfSequence(rows[1..], n)
  }

  lemma FirstOfSequence(e: Event, rest: seq<Event>, n: nat)
    ensures OfSequence([e] + rest, n) == (if e.sequence == n then [e] else []) + OfSequence(rest, n)
  {
    Sequences.Cons(e, rest);
  }

  lemma {:induction false} InsertSays(e: Event, sorted: seq<Event>, n: nat)
    ensures OfSequence(InsertBySequence(e, sorted), n) == (if e.sequence == n then [e] else []) + OfSequence(sorted, n)
  {
    if sorted == [] || e.sequence <= sorted[0].sequence {
      FirstOfSequence(e, sorted, n);
    } else {
      var rest := sorted[1..];
      InsertSays(e, rest, n);
      FirstOfSequence(sorted[0], InsertBySequence(e, rest), n);
      Passes(if sorted[0].sequence == n then [sorted[0]] else [], if e.sequence == n then [e] else [], OfSequence(rest, n));
    }
  }

  lemma Passes<T>(a: seq<T>, b: seq<T>, rest: seq<T>)
    requires a == [] || b == []
    ensures a + (b + rest) == b + (a + rest)
  {}

  lemma {:induction false} InsertOrders(e: Event, sorted: seq<Event>)
    requires Ascending(sorted)
    ensures Ascending(InsertBySequence(e, sorted))
    ensures InsertBySequence(e, sorted)[0] == if sorted == [] || e.sequence <= sorted[0].sequence then e else sorted[0]
  {
    if sorted != [] && e.sequence > sorted[0].sequence {
      InsertOrders(e, sorted[1..]);
      FirstOrders(sorted[0], InsertBySequence(e, sorted[1..]));
    }
  }

  lemma FirstOrders(e: Event, rest: seq<Event>)
    requires Ascending(rest) && (rest != [] ==> e.sequence <= rest[0].sequence)
    ensures Ascending([e] + rest)
  {}

  /** Sorting puts the rows in order of their sequence numbers, and keeps the order of those that share one. */
  lemma {:induction false} SortSays(rows: seq<Event>, n: nat)
    ensures Ascending(SortBySequence(rows)) && OfSequence(SortBySequence(rows), n) == OfSequence(rows, n)
  {
    if rows != [] {
      SortSays(rows[1..], n);
      InsertSays(rows[0], SortBySequence(rows[1..]), n);
      InsertOrders(rows[0], SortBySequence(rows[1..]));
    }
  }

  /** The query's rows are those beyond the cursor. */
  lemma {:induction false} AfterSays(rows: seq<Event>, cursor: int, n: nat)
    ensures OfSequence(After(rows, cursor), n) == if n > cursor then OfSequence(rows, n) else []
  {
    if rows != [] {
      AfterSays(rows[1..], cursor, n);
      var rest := After(rows[1..], cursor);
      if rows[0].sequence > cursor { FirstOfSequence(rows[0], rest, n); } else { Sequences.Units(rest); }
    }
  }

  /** Whatever the rows, the listing is in order and holds exactly those beyond the cursor. */
  lemma ListingSays(db: Database, cursor: int, n: nat)
    ensures Ascending(ListEvents(db, cursor))
    ensures OfSequence(ListEvents(db, cursor), n) == if n > cursor then OfSequence(db.events, n) else []
  {
    SortSays(After(db.events, cursor), n);
    AfterSays(db.events, cursor, n);
  }

  ghost predicate NumberedFrom(rows: seq<Event>, first: int) {
    forall i | 0 <= i < |rows| :: rows[i].sequence == first + i
  }

  lemma {:induction false} SortNumbered(rows: seq<Event>, first: int)
    requires NumberedFrom(rows, first)
    ensures SortBySequence(rows) == rows
  {
    if rows != [] {
      assert NumberedFrom(rows[1..], first + 1);
      SortNumbered(rows[1..], first + 1);
      assert rows[1..] != [] ==> rows[1].sequence == first + 1;
    }
  }

  lemma {:induction false} AfterNumbered(rows: seq<Event>, first: int, cursor: int)
    requires NumberedFrom(rows, first) && first - 1 <= cursor
    ensures After(rows, cursor) == if cursor - first + 1 < |rows| then rows[cursor - first + 1..] else []
  {
    if rows != [] {
      assert NumberedFrom(rows[1..], first + 1);
      if first <= cursor {
        AfterNumbered(rows[1..], first + 1, cursor);
      } else {
        AfterNumbered(rows[1..], first + 1, cursor + 1);
        AllAfter(rows[1..], first + 1, cursor);
      }
    }
  }

  lemma {:induction false} AllAfter(rows: seq<Event>, first: int, cursor: int)
    requires NumberedFrom(rows, first) && cursor < first
    ensures After(rows, cursor) == rows
  {
    if rows != [] {
      assert NumberedFrom(rows[1..], first + 1);
      AllAfter(rows[1..], first + 1, cursor);
    }
  }

  lemma ChainedNumbered(run: Uuid, request: Uuid, log: seq<Event>)
    requires Chained(run, request, log)
    ensures NumberedFrom(log, 1) && RowsUnique(log)
  {
    forall i | 0 <= i < |log| ensures log[i].sequence == 1 + i { assert Linked(run, request, log, i); }
    forall i, j | 0 <= i < j < |log| ensures !Clashes(log[i], log[j]) {
      if log[i].id == log[j].id { ChainedIdsDiffer(run, request, log, i, j); }
    }
  }

  /** On a chained log the query returns exactly the part after the cursor. */
  lemma ListIsSuffix(run: Uuid, request: Uuid, db: Database, cursor: nat)
    requires Chained(run, request, db.events)
    ensures ListEvents(db, cursor) == if cursor < |db.events| then db.events[cursor..] else []
  {
    ChainedNumbered(run, request, db.events);
    AfterNumbered(db.events, 1, cursor);
    if cursor < |db.events| {
      assert NumberedFrom(db.events[cursor..], cursor + 1);
      SortNumbered(db.events[cursor..], cursor + 1);
    }
  }

  // ----- finalize_trace and the outbox -----

  function FinalizeTrace(db: Database, t: Trace): Tx<bool> {
    match db.trace
    case Some(stored) => if stored == t then Commit(db, false) else Abort
    case None =>
      Commit(db.(status := t.status, output := Some(if t.output.Obj? then t.output else Obj(map[])), trace := Some(t)), true)
  }

  /** The last terminal event of a trace. */
  function TerminalEvent(events: seq<Event>): Option<Event> {
    if events == [] then None
    else if IsTerminalType(events[|events| - 1].kind) then Some(events[|events| - 1])
    else TerminalEvent(events[..|events| - 1])
  }

  function ErrorCode(kind: EventType): Option<string> {
    if kind.RunFailed? then Some("invocation_unavailable")
    else if kind.RunCancelled? then Some("run_cancelled")
    else None
  }

  function DeliveryFor(subscription: nat, run: Uuid, t: Trace, terminal: Event): Delivery {
    Delivery(subscription, run, terminal.sequence, terminal.kind, t.status,
             if terminal.kind.RunCompleted? && t.output.Obj? then Some(t.output) else None,
             ErrorCode(terminal.kind), terminal.occurredAt)
  }

  predicate SameSlot(row: Delivery, d: Delivery) {
    row.subscription == d.subscription && row.run == d.run && row.sequence == d.sequence
  }

  /** Adds a delivery unless its subscription already has one for the same event. */
  function Enqueue(rows: seq<Delivery>, d: Delivery): seq<Delivery> {
    if exists i | 0 <= i < |rows| :: SameSlot(rows[i], d) then rows else rows + [d]
  }

  /** The outbox after one more subscription has been served. */
  function EnqueueOne(subscriptions: seq<Subscription>, n: nat, served: seq<Delivery>,
    run: Uuid, t: Trace, terminal: Event): seq<Delivery>
    requires n < |subscriptions|
  {
    var s := subscriptions[n];
    if !s.revoked && terminal.kind in s.kinds then Enqueue(served, DeliveryFor(n, run, t, terminal)) else served
  }

  /** The outbox after the first n subscriptions have been served. */
  function EnqueueFor(subscriptions: seq<Subscription>, n: nat, rows: seq<Delivery>,
    run: Uuid, t: Trace, terminal: Event): seq<Delivery>
    requires n <= |subscriptions|
  {
    if n == 0 then rows
    else EnqueueOne(subscriptions, n - 1, EnqueueFor(subscriptions, n - 1, rows, run, t, terminal), run, t, terminal)
  }

  function EnqueueTerminal(db: Database, run: Uuid, t: Trace): Tx<bool> {
    match TerminalEvent(t.events)
    case None => Abort
    case Some(terminal) =>
      Commit(db.(deliveries := EnqueueFor(db.subscriptions, |db.subscriptions|, db.deliveries, run, t, terminal)), true)
  }

  /** Trace and outbox rows are one transaction. */
  function FinalizeRun(db: Database, run: Uuid, t: Trace): Tx<bool> {
    match FinalizeTrace(db, t)
    case Abort => Abort
    case Commit(mid, _) => EnqueueTerminal(mid, run, t)
  }

  lemma {:induction false} TerminalEventSays(events: seq<Event>)
    ensures TerminalEvent(events).None? <==> forall k | 0 <= k < |events| :: !IsTerminalType(events[k].kind)
    ensures TerminalEvent(events).Some? ==>
              exists k :: 0 <= k < |events| && events[k] == TerminalEvent(events).value && IsTerminalType(events[k].kind)
                && forall j | k < j < |events| :: !IsTerminalType(events[j].kind)
  {
    if events != [] {
      var n := |events| - 1;
      var init := events[..n];
      TerminalEventSays(init);
      if !IsTerminalType(events[n].kind) && TerminalEvent(init).Some? {
        var k :| 0 <= k < |init| && init[k] == TerminalEvent(init).value && IsTerminalType(init[k].kind)
                 && forall j | k < j < |init| :: !IsTerminalType(init[j].kind);
        assert events[k] == init[k] && forall j | k < j < n :: events[j] == init[j];
      } else if !IsTerminalType(events[n].kind) {
        assert forall k | 0 <= k < n :: events[k] == init[k];
      }
    }
  }

  /** A trace is stored exactly when none is, or it is the stored one, and one of its events ends a run; with it go the run's
      status and output. */
  lemma FinalizeOutcome(db: Database, run: Uuid, t: Trace)
    ensures var tx := FinalizeRun(db, run, t);
            && (tx.Commit? <==>
                  && (db.trace.None? || db.trace == Some(t))
                  && exists k :: 0 <= k < |t.events| && IsTerminalType(t.events[k].kind))
            && (tx.Commit? ==>
                  && tx.db.trace == Some(t) && tx.db.events == db.events && tx.db.invocation == db.invocation
                  && tx.db.startedAt == db.startedAt && tx.db.subscriptions == db.subscriptions
                  && (db.trace.None? ==> tx.db.status == t.status
                                         && tx.db.output == Some(if t.output.Obj? then t.output else Obj(map[])))
                  && (db.trace.Some? ==> tx.db.status == db.status && tx.db.output == db.output))
  {
    TerminalEventSays(t.events);
  }

  /** A delivery is enqueued unless its subscription has one for the same event of the same run. */
  lemma EnqueueSays(rows: seq<Delivery>, d: Delivery)
    ensures var taken := exists i :: 0 <= i < |rows| && rows[i].subscription == d.subscription && rows[i].run == d.run
                                     && rows[i].sequence == d.sequence;
            Enqueue(rows, d) == if taken then rows else rows + [d]
  {
    if i :| 0 <= i < |rows| && rows[i].subscription == d.subscription && rows[i].run == d.run && rows[i].sequence == d.sequence {
      assert SameSlot(rows[i], d);
    }
  }

  // ----- the memoised tool call -----

  /** `computed` is what the tool would answer now; None when it raises. */
  function InvokeOnce(db: Database, computed: Option<Json>): Tx<Json> {
    match db.invocation
    case Some(result) => Commit(db, result)
    case None =>
      match computed
      case None => Abort
      case Some(result) => Commit(db.(invocation := Some(result)), result)
  }

  // ----- the same transactions on mutable rows -----

  class Persistence {
    var events: seq<Event>
    var status: Status
    var startedAt: Option<int>
    var output: Option<Json>
    var trace: Option<Trace>
    var invocation: Option<Json>
    var subscriptions: seq<Subscription>
    var deliveries: seq<Delivery>

    function View(): Database
      reads this
    {
      Database(events, status, startedAt, output, trace, invocation, subscriptions, deliveries)
    }

    constructor ()
      ensures View() == CREATED
    {
      events, status, startedAt, output, trace, invocation, subscriptions, deliveries :=
        [], Queued, None, None, None, None, [], [];
    }

    method Rollback(saved: Database)
      modifies this
      ensures View() == saved
    {
      events, status, startedAt, output := saved.events, saved.status, saved.startedAt, saved.output;
      trace, invocation, subscriptions, deliveries := saved.trace, saved.invocation, saved.subscriptions, saved.deliveries;
    }

    /** False for a conflict. */
    method Append(e: Event) returns (ok: bool)
      modifies this
      ensures ok == AppendEvent(old(View()), e).Commit?
      ensures View() == Settle(old(View()), AppendEvent(old(View()), e))
    {
      var existing := FindRow(events, e);
      if existing.Some? {
        return existing.value == e;
      }
      events := events + [e];
      if e.kind.RunStarted? {
        if status.Queued? {
          status := Running;
          startedAt := Some(e.occurredAt);
        }
      }
      return true;
    }

    method EnqueueAll(run: Uuid, t: Trace, terminal: Event)
      modifies this`deliveries
      ensures deliveries == EnqueueFor(subscriptions, |subscriptions|, old(deliveries), run, t, terminal)
    {
      for i := 0 to |subscriptions|
        invariant deliveries == EnqueueFor(subscriptions, i, old(deliveries), run, t, terminal)
      {
        var s := subscriptions[i];
        if !s.revoked && terminal.kind in s.kinds {
          var d := DeliveryFor(i, run, t, terminal);
          if !exists j | 0 <= j < |deliveries| :: SameSlot(deliveries[j], d) {
            deliveries := deliveries + [d];
          }
        }
      }
    }

    method Finalize(run: Uuid, t: Trace) returns (ok: bool)
      modifies this
      ensures ok == FinalizeRun(old(View()), run, t).Commit?
      ensures View() == Settle(old(View()), FinalizeRun(old(View()), run, t))
    {
      var saved := View();
      if trace.Some? {
        if trace.value != t {
          return false;
        }
      } else {
        status := t.status;
        output := Some(if t.output.Obj? then t.output else Obj(map[]));
        trace := Some(t);
      }
      var terminal := TerminalEvent(t.events);
      if terminal.None? {
        Rollback(saved);
        return false;
      }
      EnqueueAll(run, t, terminal.value);
      return true;
    }

    /** None when the tool raises; an earlier result is returned without calling it. */
    method InvokeCalculatorOnce(computed: Option<Json>) returns (result: Option<Json>)
      modifies this
      ensures result == (if InvokeOnce(old(View()), computed).Commit? then Some(InvokeOnce(old(View()), computed).value)
                           else None)
      ensures View() == Settle(old(View()), InvokeOnce(old(View()), computed))
    {
      if invocation.Some? {
        return invocation;
      }
      if computed.Some? {
        invocation := computed;
      }
      return computed;
    }
  }
}
