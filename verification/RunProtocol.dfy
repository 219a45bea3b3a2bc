/** Every interleaving of the writers of one run: any number of executions and finalizers, each able to stop after
    any transaction, the API's start-failure writer, and changes of the webhook subscriptions. */
module RunProtocol {
  import opened Options
  import opened Json
  import opened RunEvents
  import opened RunDatabase
  import opened Kernel
  import opened RunAttempts

  datatype World = World(db: Database, live: map<nat, Attempt>)

  datatype Move =
    | StartExecution(id: nat, start: int)
    | StartFinalizer(id: nat, start: int, status: Status)
    | Advance(id: nat, computed: Option<Json>)
    | Crash(id: nat)
    | FailStart(now: int, code: string)
    | Subscribe(kinds: set<EventType>)
    | Revoke(subscription: nat)

  const INITIAL := World(CREATED, map[])

  function Do(cmd: Command, prog: Program, w: World, move: Move): World {
    match move
    case StartExecution(id, start) =>
      if id in w.live then w else w.(live := w.live[id := Execution(start, [], None)])
    case StartFinalizer(id, start, status) =>
      if id in w.live || !(status.Cancelled? || status.Failed?) then w
      else w.(live := w.live[id := Finalizer(start, status, None)])
    case Advance(id, computed) =>
      if id !in w.live then w
      else
        var r := Perform(cmd, prog, w.db, w.live[id], computed);
        World(r.db, if r.next.Some? then w.live[id := r.next.value] else w.live - {id})
    case Crash(id) => w.(live := w.live - {id})
    case FailStart(now, code) => w.(db := Settle(w.db, StartFailure(cmd, w.db, now, code)))
    case Subscribe(kinds) => w.(db := w.db.(subscriptions := w.db.subscriptions + [Subscription(kinds, false)]))
    case Revoke(s) =>
      if s < |w.db.subscriptions|
      then w.(db := w.db.(subscriptions := w.db.subscriptions[s := w.db.subscriptions[s].(revoked := true)]))
      else w
  }

  function Run(cmd: Command, prog: Program, w: World, moves: seq<Move>): World
    decreases |moves|
  {
    if moves == [] then w else Do(cmd, prog, Run(cmd, prog, w, moves[..|moves| - 1]), moves[|moves| - 1])
  }

  /** Attempts start under any free name and crash at any time, and neither touches the rows; subscriptions come and are
      revoked at any time, for good. */
  lemma AnythingMayHappen(cmd: Command, prog: Program, w: World, id: nat, start: int, status: Status, kinds: set<EventType>)
    ensures id !in w.live ==>
              && Do(cmd, prog, w, StartExecution(id, start)) == World(w.db, w.live[id := Execution(start, [], None)])
              && (status.Cancelled? || status.Failed? ==>
                    Do(cmd, prog, w, StartFinalizer(id, start, status))
                    == World(w.db, w.live[id := Finalizer(start, status, None)]))
    ensures var crashed := Do(cmd, prog, w, Crash(id));
            crashed.db == w.db && id !in crashed.live && forall other | other in w.live && other != id ::
              other in crashed.live && crashed.live[other] == w.live[other]
    ensures var after := Do(cmd, prog, w, Revoke(id));
            id < |w.db.subscriptions| ==>
              && |after.db.subscriptions| == |w.db.subscriptions|
              && after.db.subscriptions[id] == Subscription(w.db.subscriptions[id].kinds, true)
    ensures var after := Do(cmd, prog, w, Subscribe(kinds)); var n := |w.db.subscriptions|;
            |after.db.subscriptions| == n + 1 && after.db.subscriptions[n] == Subscription(kinds, false)
  {}

  // ----- what every step keeps -----

  ghost predicate StatusKept(db: Database) {
    && (db.status.Queued? <==> db.events == [])
    && db.startedAt == (if db.events == [] then None else Some(db.events[0].occurredAt))
    && (IsTerminalStatus(db.status) <==> db.trace.Some?)
  }

  /** A stored trace: of this run, over a prefix of the log, announced by its last event, with the run's status and output. */
  ghost predicate TraceKept(cmd: Command, db: Database, t: Trace) {
    && t.run == cmd.run && t.request == cmd.request && t.provenance.policy == DEFAULT_POLICY
    && t.events != [] && t.events <= db.events
    && TerminalTypeOf(t.status) == Some(t.events[|t.events| - 1].kind)
    && db.status == t.status && db.output == Some(if t.output.Obj? then t.output else Obj(map[]))
  }

  /** A delivery says what the stored trace says. */
  ghost predicate DeliveryKept(cmd: Command, db: Database, d: Delivery) {
    && d.subscription < |db.subscriptions|
    && db.trace.Some? && db.trace.value.events != []
    && d == DeliveryFor(d.subscription, cmd.run, db.trace.value, db.trace.value.events[|db.trace.value.events| - 1])
  }

  ghost predicate OutboxKept(cmd: Command, db: Database) {
    && (forall i | 0 <= i < |db.deliveries| :: DeliveryKept(cmd, db, db.deliveries[i]))
    && (forall i, j | 0 <= i < j < |db.deliveries| :: db.deliveries[i].subscription != db.deliveries[j].subscription)
  }

  ghost predicate AttemptKept(cmd: Command, prog: Program, db: Database, a: Attempt) {
    match a
    case Execution(start, recorded, out) =>
      && recorded <= db.events
      && recorded <= Record(cmd, start, Emissions(cmd, prog, out))
      && (out.Some? ==> out == db.invocation)
    case Finalizer(_, status, seen) =>
      && (status.Cancelled? || status.Failed?)
      && (seen.Some? ==> seen.value <= db.events)
  }

  ghost predicate DatabaseKept(cmd: Command, db: Database) {
    && Chained(cmd.run, cmd.request, db.events)
    && StatusKept(db)
    && (db.trace.Some? ==> TraceKept(cmd, db, db.trace.value))
    && OutboxKept(cmd, db)
  }

  ghost predicate Kept(cmd: Command, prog: Program, w: World) {
    && DatabaseKept(cmd, w.db)
    && forall id | id in w.live :: AttemptKept(cmd, prog, w.db, w.live[id])
  }

  /** What one database state keeps of an earlier one. */
  ghost predicate Extends(db: Database, later: Database) {
    && db.events <= later.events
    && (db.trace.Some? ==> later.trace == db.trace && later.status == db.status && later.output == db.output)
    && (db.invocation.Some? ==> later.invocation == db.invocation)
    && (db.startedAt.Some? ==> later.startedAt == db.startedAt)
    && db.deliveries <= later.deliveries
    && Forward(db.status, later.status)
    && |db.subscriptions| <= |later.subscriptions|
  }

  /** From queued over running to a status that stays. */
  ghost predicate Forward(s: Status, later: Status) {
    && (later.Queued? ==> s.Queued?) && (later.Running? ==> s.Queued? || s.Running?)
    && (!s.Queued? && !s.Running? ==> later == s)
  }

  // ----- transactions -----

  lemma NewRowKeeps(cmd: Command, db: Database, e: Event)
    requires DatabaseKept(cmd, db) && Linked(cmd.run, cmd.request, db.events + [e], |db.events|)
    requires FindRow(db.events, e).None?
    ensures var after := AppendEvent(db, e).db;
            && after.events == db.events + [e] && DatabaseKept(cmd, after) && Extends(db, after)
  {
    ChainedExtend(cmd.run, cmd.request, db.events, e);
    var after := AppendEvent(db, e).db;
    forall i | 0 <= i < |db.deliveries| ensures DeliveryKept(cmd, after, db.deliveries[i]) {
      assert DeliveryKept(cmd, db, db.deliveries[i]);
    }
  }

  /** An event that continues a prefix of the log lands right behind that prefix or not at all. */
  lemma AppendContinues(cmd: Command, db: Database, part: seq<Event>, e: Event)
    requires DatabaseKept(cmd, db) && part <= db.events && Linked(cmd.run, cmd.request, part + [e], |part|)
    requires AppendEvent(db, e).Commit?
    ensures var after := AppendEvent(db, e).db;
            && part + [e] <= after.events && DatabaseKept(cmd, after) && Extends(db, after)
            && (after == db || (after.events == db.events + [e] && part == db.events))
            && after.trace == db.trace && after.subscriptions == db.subscriptions && after.invocation == db.invocation
  {
    if FindRow(db.events, e).Some? {
      StoredIsNext(cmd, db, part, e);
    } else {
      assert |part| < |db.events| ==> Linked(cmd.run, cmd.request, db.events, |part|);
      assert part == db.events;
      NewRowKeeps(cmd, db, e);
    }
  }

  lemma StoredIsNext(cmd: Command, db: Database, part: seq<Event>, e: Event)
    requires Chained(cmd.run, cmd.request, db.events) && part <= db.events && e in db.events
    requires Linked(cmd.run, cmd.request, part + [e], |part|)
    ensures part + [e] <= db.events
  {
    var i :| 0 <= i < |db.events| && db.events[i] == e;
    assert Linked(cmd.run, cmd.request, db.events, i);
    assert i == |part|;
  }

  /** Every open interested one of the first n subscriptions has a delivery. */
  ghost predicate Served(db: Database, n: nat, rows: seq<Delivery>, kind: EventType)
    requires n <= |db.subscriptions|
  {
    forall s | 0 <= s < n && !db.subscriptions[s].revoked && kind in db.subscriptions[s].kinds ::
      exists i | 0 <= i < |rows| :: rows[i].subscription == s
  }

  lemma MoreServe(db: Database, n: nat, rows: seq<Delivery>, d: Delivery, kind: EventType)
    requires n <= |db.subscriptions| && Served(db, n, rows, kind)
    ensures Served(db, n, rows + [d], kind)
    ensures n < |db.subscriptions| && d.subscription == n ==> Served(db, n + 1, rows + [d], kind)
  {
    var more := rows + [d];
    assert more[|rows|] == d;
    forall s | 0 <= s < n && !db.subscriptions[s].revoked && kind in db.subscriptions[s].kinds
      ensures exists i | 0 <= i < |more| :: more[i].subscription == s
    {
      var i :| 0 <= i < |rows| && rows[i].subscription == s;
      assert more[i].subscription == s;
    }
  }

  /** One more delivery for a subscription whose slot is free. */
  lemma OutboxNext(cmd: Command, db: Database, rows: seq<Delivery>, d: Delivery)
    requires OutboxKept(cmd, db.(deliveries := rows)) && DeliveryKept(cmd, db, d)
    requires !exists i | 0 <= i < |rows| :: SameSlot(rows[i], d)
    ensures OutboxKept(cmd, db.(deliveries := rows + [d]))
  {
    var before, after := db.(deliveries := rows), db.(deliveries := rows + [d]);
    forall i | 0 <= i < |rows + [d]| ensures DeliveryKept(cmd, after, (rows + [d])[i]) {
      if i < |rows| { assert DeliveryKept(cmd, before, rows[i]); }
    }
    forall i | 0 <= i < |rows| ensures rows[i].subscription != d.subscription {
      assert !SameSlot(rows[i], d) && DeliveryKept(cmd, before, rows[i]);
    }
  }

  /** The outbox once the first n subscriptions have been served. */
  ghost predicate ServedSoFar(cmd: Command, db: Database, n: nat, rows: seq<Delivery>, kind: EventType)
    requires n <= |db.subscriptions|
  {
    db.deliveries <= rows && OutboxKept(cmd, db.(deliveries := rows)) && Served(db, n, rows, kind)
  }

  lemma EnqueueOneKeeps(cmd: Command, db: Database, n: nat, t: Trace, served: seq<Delivery>)
    requires n < |db.subscriptions| && db.trace == Some(t) && t.events != []
    requires ServedSoFar(cmd, db, n, served, t.events[|t.events| - 1].kind)
    ensures var terminal := t.events[|t.events| - 1];
            ServedSoFar(cmd, db, n + 1, EnqueueOne(db.subscriptions, n, served, cmd.run, t, terminal), terminal.kind)
  {
    var terminal := t.events[|t.events| - 1];
    var d := DeliveryFor(n, cmd.run, t, terminal);
    if !exists i | 0 <= i < |served| :: SameSlot(served[i], d) {
      OutboxNext(cmd, db, served, d);
      MoreServe(db, n, served, d, terminal.kind);
    }
  }

  lemma EnqueueForNext(db: Database, n: nat, run: Uuid, t: Trace, terminal: Event)
    requires 0 < n <= |db.subscriptions|
    ensures EnqueueFor(db.subscriptions, n, db.deliveries, run, t, terminal)
         == EnqueueOne(db.subscriptions, n - 1, EnqueueFor(db.subscriptions, n - 1, db.deliveries, run, t, terminal),
                       run, t, terminal)
  {}

  lemma {:induction false} EnqueueForKeeps(cmd: Command, db: Database, n: nat, t: Trace)
    requires n <= |db.subscriptions| && db.trace == Some(t) && t.events != [] && OutboxKept(cmd, db)
    ensures var terminal := t.events[|t.events| - 1];
            ServedSoFar(cmd, db, n, EnqueueFor(db.subscriptions, n, db.deliveries, cmd.run, t, terminal), terminal.kind)
  {
    if n > 0 {
      var terminal := t.events[|t.events| - 1];
      var served := EnqueueFor(db.subscriptions, n - 1, db.deliveries, cmd.run, t, terminal);
      EnqueueForKeeps(cmd, db, n - 1, t);
      EnqueueOneKeeps(cmd, db, n - 1, t, served);
      EnqueueForNext(db, n, cmd.run, t, terminal);
    }
  }

  /** A trace over a terminated prefix of the log is stored once, and then every open interested subscription has its delivery. */
  lemma FinalizeKeeps(cmd: Command, db: Database, t: Trace)
    requires DatabaseKept(cmd, db) && FinalizeRun(db, cmd.run, t).Commit?
    requires t.run == cmd.run && t.request == cmd.request && t.provenance.policy == DEFAULT_POLICY
    requires t.events != [] && t.events <= db.events
    requires TerminalTypeOf(t.status) == Some(t.events[|t.events| - 1].kind)
    ensures var after := FinalizeRun(db, cmd.run, t).db;
            && DatabaseKept(cmd, after) && Extends(db, after) && after.trace == Some(t)
            && after.events == db.events && after.invocation == db.invocation
            && Notified(after)
  {
    var mid := FinalizeTrace(db, t).db;
    assert TerminalEvent(t.events) == Some(t.events[|t.events| - 1]);
    assert db.trace.None? ==> db.deliveries == [] by {
      assert db.deliveries != [] ==> DeliveryKept(cmd, db, db.deliveries[0]);
    }
    if db.trace.Some? {
      assert mid == db;
    }
    assert OutboxKept(cmd, mid);
    EnqueueForKeeps(cmd, mid, |mid.subscriptions|, t);
  }

  /** Every open subscription interested in the stored trace's terminal event has a delivery. */
  ghost predicate Notified(db: Database) {
    db.trace.Some? && db.trace.value.events != [] &&
    forall s | 0 <= s < |db.subscriptions| && !db.subscriptions[s].revoked
              && db.trace.value.events[|db.trace.value.events| - 1].kind in db.subscriptions[s].kinds ::
      exists i | 0 <= i < |db.deliveries| :: db.deliveries[i].subscription == s
  }

  /** The start-failure writer adds its two events to an empty log, its second event to its own first, or nothing. */
  ghost predicate StartFailureGrows(cmd: Command, now: int, code: string, log: seq<Event>, after: seq<Event>) {
    var started, ended := StartFailureStarted(cmd, now), StartFailureEnd(cmd, now, code);
    after == log || ((log == [] || log == [started]) && after == [started] + [ended])
  }

  lemma StartFailureKeeps(cmd: Command, db: Database, now: int, code: string)
    requires DatabaseKept(cmd, db)
    ensures var tx := StartFailure(cmd, db, now, code);
            var after := Settle(db, tx);
            && DatabaseKept(cmd, after) && Extends(db, after) && after.invocation == db.invocation
            && StartFailureGrows(cmd, now, code, db.events, after.events)
            && (tx.Commit? ==> after.trace == Some(StartFailureTrace(cmd, now, code)) && Notified(after))
  {
    var started, ended, t := StartFailureStarted(cmd, now), StartFailureEnd(cmd, now, code), StartFailureTrace(cmd, now, code);
    if StartFailure(cmd, db, now, code).Commit? {
      assert Linked(cmd.run, cmd.request, [] + [started], 0);
      AppendContinues(cmd, db, [], started);
      var one := AppendEvent(db, started).db;
      assert [started] <= one.events by { assert [] + [started] == [started]; }
      assert Linked(cmd.run, cmd.request, [started] + [ended], 1);
      AppendContinues(cmd, one, [started], ended);
      var two := AppendEvent(one, ended).db;
      assert t.events == [started] + [ended];
      FinalizeKeeps(cmd, two, t);
      assert Extends(two, FinalizeRun(two, cmd.run, t).db);
    }
  }

  // ----- steps -----

  /** The event a live attempt writes next continues what it knows of the log. */
  lemma EmitIsLinked(cmd: Command, prog: Program, db: Database, a: Attempt)
    requires DatabaseKept(cmd, db) && AttemptKept(cmd, prog, db, a) && NextAction(cmd, prog, a).Emit?
    ensures var known := if a.Execution? then a.recorded else a.seen.value;
            && known <= db.events
            && Linked(cmd.run, cmd.request, known + [NextAction(cmd, prog, a).event], |known|)
  {
    match a
    case Execution(start, recorded, out) =>
      NextEventLinked(cmd, start, recorded, Emissions(cmd, prog, out)[|recorded|]);
    case Finalizer(start, status, seen) =>
      ChainedPrefix(cmd.run, cmd.request, db.events, seen.value);
      if seen.value != [] { assert Linked(cmd.run, cmd.request, seen.value, |seen.value| - 1); }
  }

  /** A trace a live attempt saves is over a prefix of the log that ends in its status. */
  lemma SaveIsTerminated(cmd: Command, prog: Program, db: Database, a: Attempt)
    requires DatabaseKept(cmd, db) && AttemptKept(cmd, prog, db, a) && NextAction(cmd, prog, a).Save?
    ensures var t := NextAction(cmd, prog, a).trace;
            && t.run == cmd.run && t.request == cmd.request && t.provenance.policy == DEFAULT_POLICY
            && t.events != [] && t.events <= db.events
            && TerminalTypeOf(t.status) == Some(t.events[|t.events| - 1].kind)
  {
    match a
    case Execution(start, recorded, out) =>
      CompletedTimeline(cmd, prog, start, out.value);
      assert recorded == Record(cmd, start, Emissions(cmd, prog, out));
    case Finalizer(_, _, _) =>
  }

  lemma AttemptSurvives(cmd: Command, prog: Program, db: Database, later: Database, a: Attempt)
    requires AttemptKept(cmd, prog, db, a) && db.events <= later.events
    requires db.invocation.Some? ==> later.invocation == db.invocation
    ensures AttemptKept(cmd, prog, later, a)
  {}

  lemma RecordedIsKept(cmd: Command, start: int, es: seq<Emission>, recorded: seq<Event>)
    requires recorded <= Record(cmd, start, es) && |recorded| < |es|
    ensures recorded + [NextEvent(cmd, start, recorded, es[|recorded|])] <= Record(cmd, start, es)
  {
    var log, n := Record(cmd, start, es), |recorded|;
    assert recorded == log[..n];
    RecordNext(cmd, start, es, n);
    assert recorded + [log[n]] == log[..n + 1];
  }

  lemma AnswerKeepsRecord(cmd: Command, prog: Program, start: int, recorded: seq<Event>, out: Json)
    requires recorded <= Record(cmd, start, Emissions(cmd, prog, None))
    ensures recorded <= Record(cmd, start, Emissions(cmd, prog, Some(out)))
  {
    EmissionsExtend(cmd, prog, out);
    var es, more := Emissions(cmd, prog, None), Emissions(cmd, prog, Some(out));
    RecordPrefix(cmd, start, more, |es|);
    assert more[..|es|] == es;
  }

  ghost predicate ResultKept(cmd: Command, prog: Program, db: Database, r: Result) {
    DatabaseKept(cmd, r.db) && Extends(db, r.db) && (r.next.Some? ==> AttemptKept(cmd, prog, r.db, r.next.value))
  }

  lemma ListKeeps(cmd: Command, prog: Program, db: Database, a: Attempt, computed: Option<Json>)
    requires DatabaseKept(cmd, db) && AttemptKept(cmd, prog, db, a) && NextAction(cmd, prog, a) == ListAll
    ensures ResultKept(cmd, prog, db, Perform(cmd, prog, db, a, computed))
  {
    ListIsSuffix(cmd.run, cmd.request, db, 0);
    assert ListEvents(db, 0) <= db.events;
  }

  lemma EmitKeeps(cmd: Command, prog: Program, db: Database, a: Attempt, computed: Option<Json>, e: Event)
    requires DatabaseKept(cmd, db) && AttemptKept(cmd, prog, db, a) && NextAction(cmd, prog, a) == Emit(e)
    ensures ResultKept(cmd, prog, db, Perform(cmd, prog, db, a, computed))
  {
    if AppendEvent(db, e).Commit? {
      EmitIsLinked(cmd, prog, db, a);
      AppendContinues(cmd, db, if a.Execution? then a.recorded else a.seen.value, e);
      if a.Execution? { RecordedIsKept(cmd, a.start, Emissions(cmd, prog, a.out), a.recorded); }
      assert AttemptKept(cmd, prog, AppendEvent(db, e).db, Recorded(a, e));
    }
  }

  lemma AnswerKeeps(cmd: Command, db: Database, answer: Json)
    requires DatabaseKept(cmd, db) && db.invocation.None?
    ensures var after := db.(invocation := Some(answer)); DatabaseKept(cmd, after) && Extends(db, after)
  {
    var after := db.(invocation := Some(answer));
    forall i | 0 <= i < |db.deliveries| ensures DeliveryKept(cmd, after, db.deliveries[i]) {
      assert DeliveryKept(cmd, db, db.deliveries[i]);
    }
  }

  lemma InvokeKeeps(cmd: Command, prog: Program, db: Database, a: Attempt, computed: Option<Json>)
    requires DatabaseKept(cmd, db) && AttemptKept(cmd, prog, db, a) && NextAction(cmd, prog, a) == Invoke
    ensures ResultKept(cmd, prog, db, Perform(cmd, prog, db, a, computed))
  {
    if InvokeOnce(db, computed).Commit? {
      if db.invocation.None? { AnswerKeeps(cmd, db, computed.value); }
      AnswerKeepsRecord(cmd, prog, a.start, a.recorded, InvokeOnce(db, computed).value);
    }
  }

  lemma SaveKeeps(cmd: Command, prog: Program, db: Database, a: Attempt, computed: Option<Json>, t: Trace)
    requires DatabaseKept(cmd, db) && AttemptKept(cmd, prog, db, a) && NextAction(cmd, prog, a) == Save(t)
    ensures ResultKept(cmd, prog, db, Perform(cmd, prog, db, a, computed))
  {
    SaveIsTerminated(cmd, prog, db, a);
    if FinalizeRun(db, cmd.run, t).Commit? { FinalizeKeeps(cmd, db, t); }
  }

  lemma PerformKeeps(cmd: Command, prog: Program, db: Database, a: Attempt, computed: Option<Json>)
    requires DatabaseKept(cmd, db) && AttemptKept(cmd, prog, db, a)
    ensures ResultKept(cmd, prog, db, Perform(cmd, prog, db, a, computed))
  {
    var action := NextAction(cmd, prog, a);
    if action.ListAll? {
      ListKeeps(cmd, prog, db, a, computed);
    } else if action.Emit? {
      EmitKeeps(cmd, prog, db, a, computed, action.event);
    } else if action.Invoke? {
      InvokeKeeps(cmd, prog, db, a, computed);
    } else if action.Save? {
      SaveKeeps(cmd, prog, db, a, computed, action.trace);
    }
  }

  lemma SubscriptionsKeep(cmd: Command, db: Database, subscriptions: seq<Subscription>)
    requires DatabaseKept(cmd, db) && |db.subscriptions| <= |subscriptions|
    ensures DatabaseKept(cmd, db.(subscriptions := subscriptions))
  {
    forall i | 0 <= i < |db.deliveries|
      ensures DeliveryKept(cmd, db.(subscriptions := subscriptions), db.deliveries[i])
    {
      assert DeliveryKept(cmd, db, db.deliveries[i]);
    }
  }

  /** What a move makes of the database keeps it and what live attempts know of it. */
  lemma MoveKeepsDatabase(cmd: Command, prog: Program, w: World, move: Move)
    requires Kept(cmd, prog, w)
    ensures var after := Do(cmd, prog, w, move).db; DatabaseKept(cmd, after) && Extends(w.db, after)
  {
    var after := Do(cmd, prog, w, move);
    match move {
      case Advance(id, computed) =>
        if id in w.live { PerformKeeps(cmd, prog, w.db, w.live[id], computed); }
      case FailStart(now, code) => StartFailureKeeps(cmd, w.db, now, code);
      case Subscribe(kinds) => SubscriptionsKeep(cmd, w.db, after.db.subscriptions);
      case Revoke(_) => SubscriptionsKeep(cmd, w.db, after.db.subscriptions);
      case _ =>
    }
  }

  lemma MoveKeepsAttempts(cmd: Command, prog: Program, w: World, move: Move, id: nat)
    requires Kept(cmd, prog, w) && id in Do(cmd, prog, w, move).live
    ensures AttemptKept(cmd, prog, Do(cmd, prog, w, move).db, Do(cmd, prog, w, move).live[id])
  {
    MoveKeepsDatabase(cmd, prog, w, move);
    if move.Advance? && move.id == id && id in w.live {
      PerformKeeps(cmd, prog, w.db, w.live[id], move.computed);
    } else if id in w.live {
      AttemptSurvives(cmd, prog, w.db, Do(cmd, prog, w, move).db, w.live[id]);
    }
  }

  lemma StepKeeps(cmd: Command, prog: Program, w: World, move: Move)
    requires Kept(cmd, prog, w)
    ensures Kept(cmd, prog, Do(cmd, prog, w, move)) && Extends(w.db, Do(cmd, prog, w, move).db)
  {
    MoveKeepsDatabase(cmd, prog, w, move);
    var after := Do(cmd, prog, w, move);
    forall id | id in after.live ensures AttemptKept(cmd, prog, after.db, after.live[id]) {
      MoveKeepsAttempts(cmd, prog, w, move, id);
    }
  }

  lemma {:induction false} RunKeeps(cmd: Command, prog: Program, w: World, moves: seq<Move>)
    requires Kept(cmd, prog, w)
    ensures Kept(cmd, prog, Run(cmd, prog, w, moves)) && Extends(w.db, Run(cmd, prog, w, moves).db)
    decreases |moves|
  {
    if moves != [] {
      RunKeeps(cmd, prog, w, moves[..|moves| - 1]);
      StepKeeps(cmd, prog, Run(cmd, prog, w, moves[..|moves| - 1]), moves[|moves| - 1]);
    }
  }

  lemma ReachedIsKept(cmd: Command, prog: Program, moves: seq<Move>)
    ensures Kept(cmd, prog, Run(cmd, prog, INITIAL, moves))
  {
    RunKeeps(cmd, prog, INITIAL, moves);
  }

  lemma {:induction false} RunConcat(cmd: Command, prog: Program, w: World, x: seq<Move>, y: seq<Move>)
    ensures Run(cmd, prog, w, x + y) == Run(cmd, prog, Run(cmd, prog, w, x), y)
    decreases |y|
  {
    if y == [] {
      assert x + y == x;
    } else {
      assert (x + y)[..|x + y| - 1] == x + y[..|y| - 1];
      RunConcat(cmd, prog, w, x, y[..|y| - 1]);
    }
  }

  // ----- what holds in every interleaving -----

  /** The log is contiguous from 1 with pairwise different ids, starts with run.started caused by the request,
      and every later event is caused by its predecessor. */
  lemma LogIsChained(cmd: Command, prog: Program, moves: seq<Move>)
    ensures var log := Run(cmd, prog, INITIAL, moves).db.events;
            && (forall i | 0 <= i < |log| :: log[i].sequence == i + 1 && log[i].run == cmd.run)
            && (forall i, j | 0 <= i < j < |log| :: log[i].id != log[j].id)
            && (log != [] ==> log[0].kind.RunStarted? && log[0].causation == cmd.request)
            && (forall i | 0 < i < |log| :: log[i].causation == log[i - 1].id)
  {
    ReachedIsKept(cmd, prog, moves);
    var log := Run(cmd, prog, INITIAL, moves).db.events;
    forall i | 0 <= i < |log|
      ensures log[i].sequence == i + 1 && log[i].run == cmd.run && (i == 0 ==> log[i].kind.RunStarted?)
    {
      assert Linked(cmd.run, cmd.request, log, i);
    }
    forall i | 0 < i < |log| ensures log[i].causation == log[i - 1].id { assert Linked(cmd.run, cmd.request, log, i); }
    assert log != [] ==> Linked(cmd.run, cmd.request, log, 0);
    forall i, j | 0 <= i < j < |log| ensures log[i].id != log[j].id {
      if log[i].id == log[j].id { ChainedIdsDiffer(cmd.run, cmd.request, log, i, j); }
    }
  }

  /** A stored trace passes validation, is never replaced, and its events stay a prefix of the log. */
  lemma StoredTraceIsStable(cmd: Command, prog: Program, before: seq<Move>, later: seq<Move>)
    requires Run(cmd, prog, INITIAL, before).db.trace.Some?
    ensures var t := Run(cmd, prog, INITIAL, before).db.trace.value;
            var now := Run(cmd, prog, INITIAL, before + later).db;
            && ValidateRunTrace(t) == {} && t.events != []
            && now.trace == Some(t) && t.events <= now.events
            && t.events <= Run(cmd, prog, INITIAL, before).db.events
  {
    ReachedIsKept(cmd, prog, before);
    RunConcat(cmd, prog, INITIAL, before, later);
    var w := Run(cmd, prog, INITIAL, before);
    RunKeeps(cmd, prog, w, later);
    var t := w.db.trace.value;
    ChainedPrefix(cmd.run, cmd.request, w.db.events, t.events);
    ChainedTraceValid(t);
  }

  /** The run is queued exactly while nothing is logged and terminal exactly when a trace is stored, with that trace's
      status and output; it only moves forward and a terminal status never changes. */
  lemma StatusFollowsTheTrace(cmd: Command, prog: Program, before: seq<Move>, later: seq<Move>)
    ensures var db := Run(cmd, prog, INITIAL, before).db;
            var now := Run(cmd, prog, INITIAL, before + later).db;
            && (db.status.Queued? <==> db.events == [])
            && (IsTerminalStatus(db.status) <==> db.trace.Some?)
            && (db.trace.Some? ==> db.status == db.trace.value.status)
            && Forward(db.status, now.status)
            && (IsTerminalStatus(db.status) ==> now.output == db.output)
            && db.startedAt == (if db.events == [] then None else Some(db.events[0].occurredAt))
  {
    ReachedIsKept(cmd, prog, before);
    RunConcat(cmd, prog, INITIAL, before, later);
    RunKeeps(cmd, prog, Run(cmd, prog, INITIAL, before), later);
  }

  /** Every delivery ever enqueued tells the one stored trace, and no subscription has two. */
  lemma DeliveriesTellTheTrace(cmd: Command, prog: Program, moves: seq<Move>, i: nat)
    requires i < |Run(cmd, prog, INITIAL, moves).db.deliveries|
    ensures var db := Run(cmd, prog, INITIAL, moves).db;
            var d := db.deliveries[i];
            && db.trace.Some?
            && var t := db.trace.value;
            && t.events != []
            && d.run == cmd.run && d.status == t.status
            && d.sequence == |t.events|
            && Some(d.kind) == TerminalTypeOf(t.status)
            && d.occurredAt == t.events[|t.events| - 1].occurredAt
            && (d.result.Some? <==> t.status.Completed? && t.output.Obj?)
            && (d.result.Some? ==> d.result == Some(t.output))
            && d.errorCode == (if t.status.Completed? then None
                               else Some(if t.status.Cancelled? then "run_cancelled" else "invocation_unavailable"))
            && (forall j | 0 <= j < |db.deliveries| && j != i :: db.deliveries[j].subscription != d.subscription)
  {
    ReachedIsKept(cmd, prog, moves);
    var db := Run(cmd, prog, INITIAL, moves).db;
    assert DeliveryKept(cmd, db, db.deliveries[i]);
    var t := db.trace.value;
    assert t.events[|t.events| - 1] == db.events[|t.events| - 1];
    assert Linked(cmd.run, cmd.request, db.events, |t.events| - 1);
  }

  /** The move that stores a trace, or finds its own stored already, in state `w`: `stored` is that trace. */
  ghost predicate Stores(cmd: Command, prog: Program, w: World, move: Move, stored: Trace) {
    match move
    case Advance(id, _) =>
      && id in w.live && NextAction(cmd, prog, w.live[id]) == Save(stored)
      && FinalizeRun(w.db, cmd.run, stored).Commit?
    case FailStart(now, code) =>
      StartFailure(cmd, w.db, now, code).Commit? && stored == StartFailureTrace(cmd, now, code)
    case _ => false
  }

  lemma StoringNotifies(cmd: Command, prog: Program, w: World, move: Move, stored: Trace)
    requires Kept(cmd, prog, w) && Stores(cmd, prog, w, move, stored)
    ensures var after := Do(cmd, prog, w, move);
            after.db.trace == Some(stored) && Notified(after.db) && w.db.deliveries <= after.db.deliveries
  {
    if move.Advance? {
      SaveIsTerminated(cmd, prog, w.db, w.live[move.id]);
      FinalizeKeeps(cmd, w.db, stored);
    } else {
      StartFailureKeeps(cmd, w.db, move.now, move.code);
    }
  }

  /** Whoever stores the trace, an attempt or the start-failure writer, leaves every open interested subscription with
      a delivery in the same step, and deliveries are only ever added. */
  lemma FinishingNotifies(cmd: Command, prog: Program, moves: seq<Move>, move: Move, stored: Trace)
    requires Stores(cmd, prog, Run(cmd, prog, INITIAL, moves), move, stored)
    ensures var w := Run(cmd, prog, INITIAL, moves);
            var after := Run(cmd, prog, INITIAL, moves + [move]);
            after.db.trace == Some(stored) && Notified(after.db) && w.db.deliveries <= after.db.deliveries
  {
    ReachedIsKept(cmd, prog, moves);
    assert (moves + [move])[..|moves|] == moves;
    StoringNotifies(cmd, prog, Run(cmd, prog, INITIAL, moves), move, stored);
  }

  lemma SaveStores(cmd: Command, prog: Program, db: Database, a: Attempt)
    requires DatabaseKept(cmd, db) && AttemptKept(cmd, prog, db, a) && NextAction(cmd, prog, a).Save?
    ensures var t := NextAction(cmd, prog, a).trace;
            FinalizeRun(db, cmd.run, t).Commit? ==> FinalizeRun(db, cmd.run, t).db.trace == Some(t)
  {
    var t := NextAction(cmd, prog, a).trace;
    SaveIsTerminated(cmd, prog, db, a);
    if FinalizeRun(db, cmd.run, t).Commit? { FinalizeKeeps(cmd, db, t); }
  }

  lemma OthersStoreNothing(cmd: Command, prog: Program, db: Database, a: Attempt, computed: Option<Json>)
    requires !NextAction(cmd, prog, a).Save?
    ensures Perform(cmd, prog, db, a, computed).db.trace == db.trace
  {}

  /** A transaction of an attempt that changes the stored trace saves one. */
  lemma PerformStores(cmd: Command, prog: Program, db: Database, a: Attempt, computed: Option<Json>)
    requires DatabaseKept(cmd, db) && AttemptKept(cmd, prog, db, a)
    ensures var action, after := NextAction(cmd, prog, a), Perform(cmd, prog, db, a, computed).db;
            after.trace != db.trace ==>
              action.Save? && after.trace == Some(action.trace) && FinalizeRun(db, cmd.run, action.trace).Commit?
  {
    if NextAction(cmd, prog, a).Save? {
      SaveStores(cmd, prog, db, a);
    } else {
      OthersStoreNothing(cmd, prog, db, a, computed);
    }
  }

  lemma AdvanceStores(cmd: Command, prog: Program, w: World, id: nat, computed: Option<Json>)
    requires Kept(cmd, prog, w) && id in w.live
    ensures var after := Do(cmd, prog, w, Advance(id, computed)).db;
            after.trace != w.db.trace ==>
              after.trace.Some? && Stores(cmd, prog, w, Advance(id, computed), after.trace.value)
  {
    assert AttemptKept(cmd, prog, w.db, w.live[id]);
    PerformStores(cmd, prog, w.db, w.live[id], computed);
  }

  lemma FailStartStores(cmd: Command, prog: Program, w: World, now: int, code: string)
    requires Kept(cmd, prog, w)
    ensures var after := Do(cmd, prog, w, FailStart(now, code)).db;
            after.trace != w.db.trace ==> after.trace.Some? && Stores(cmd, prog, w, FailStart(now, code), after.trace.value)
  {
    StartFailureKeeps(cmd, w.db, now, code);
  }

  /** No other move stores a trace: one that changes the stored trace is a storing move. */
  lemma OnlyStoringChangesTheTrace(cmd: Command, prog: Program, moves: seq<Move>, move: Move)
    ensures var w := Run(cmd, prog, INITIAL, moves);
            var after := Run(cmd, prog, INITIAL, moves + [move]);
            after.db.trace != w.db.trace ==> after.db.trace.Some? && Stores(cmd, prog, w, move, after.db.trace.value)
  {
    ReachedIsKept(cmd, prog, moves);
    var w := Run(cmd, prog, INITIAL, moves);
    assert (moves + [move])[..|moves|] == moves;
    match move {
      case Advance(id, computed) => if id in w.live { AdvanceStores(cmd, prog, w, id, computed); }
      case FailStart(now, code) => FailStartStores(cmd, prog, w, now, code);
      case _ =>
    }
  }
}
