/** One attempt at an activity as a sequence of transactions, and the activities that perform them in order. */
module RunAttempts {
  import opened Options
  import opened Json
  import opened RunEvents
  import opened RunDatabase
  import opened Kernel
  import opened Redaction

  /** A kernel attempt knows what it has recorded and what the tool answered;
      a finalizer knows the event list it works on once it has read it. */
  datatype Attempt =
    | Execution(start: int, recorded: seq<Event>, out: Option<Json>)
    | Finalizer(start: int, status: Status, seen: Option<seq<Event>>)

  datatype Action = ListAll | Emit(event: Event) | Invoke | Save(trace: Trace) | Raise

  function NextAction(cmd: Command, prog: Program, a: Attempt): Action {
    match a
    case Execution(start, recorded, out) =>
      var es := Emissions(cmd, prog, out);
      if |recorded| < |es| then Emit(NextEvent(cmd, start, recorded, es[|recorded|]))
      else if ReachesTool(prog) && out.None? then Invoke
      else if Completes(prog, out) then Save(KernelTrace(cmd, prog, start, recorded, out.value))
      else Raise
    case Finalizer(start, status, seen) =>
      if seen.None? then ListAll
      else if seen.value == [] then Emit(FinalizerStarted(cmd, start))
      else if seen.value[|seen.value| - 1].kind == FinalType(status) then Save(FinalizerTrace(cmd, start, status, seen.value))
      else Emit(FinalizerEnd(cmd, start, status, seen.value))
  }

  function Recorded(a: Attempt, e: Event): Attempt {
    match a
    case Execution(start, recorded, out) => Execution(start, recorded + [e], out)
    case Finalizer(start, status, seen) => Finalizer(start, status, Some((if seen.Some? then seen.value else []) + [e]))
  }

  /** One transaction of an attempt. An attempt that finished or raised is gone. */
  datatype Result = Result(db: Database, next: Option<Attempt>)

  function Perform(cmd: Command, prog: Program, db: Database, a: Attempt, computed: Option<Json>): Result {
    match NextAction(cmd, prog, a)
    case ListAll => Result(db, if a.Finalizer? then Some(a.(seen := Some(ListEvents(db, 0)))) else None)
    case Emit(e) =>
      (match AppendEvent(db, e)
       case Abort => Result(db, None)
       case Commit(after, _) => Result(after, Some(Recorded(a, e))))
    case Invoke =>
      (match InvokeOnce(db, computed)
       case Abort => Result(db, None)
       case Commit(after, result) => Result(after, if a.Execution? then Some(a.(out := Some(result))) else None))
    case Save(t) =>
      (match FinalizeRun(db, cmd.run, t)
       case Abort => Result(db, None)
       case Commit(after, _) => Result(after, None))
    case Raise => Result(db, None)
  }

  /** Transactions an attempt still has before its last one. */
  function Remaining(a: Attempt): nat {
    match a
    case Execution(_, recorded, out) =>
      (if |recorded| <= 8 then 8 - |recorded| else 0) + (if out.None? then 1 else 0)
    case Finalizer(_, status, seen) =>
      if seen.None? then 3
      else if seen.value == [] then 2
      else if seen.value[|seen.value| - 1].kind == FinalType(status) then 0
      else 1
  }

  lemma PerformProgresses(cmd: Command, prog: Program, db: Database, a: Attempt, computed: Option<Json>)
    ensures var r := Perform(cmd, prog, db, a, computed);
            r.next.Some? ==> Remaining(r.next.value) < Remaining(a)
  {}

  /** An attempt left to itself until it ends. */
  function Alone(cmd: Command, prog: Program, db: Database, a: Attempt, computed: Option<Json>): Database
    decreases Remaining(a)
  {
    PerformProgresses(cmd, prog, db, a, computed);
    var r := Perform(cmd, prog, db, a, computed);
    if r.next.None? then r.db else Alone(cmd, prog, r.db, r.next.value, computed)
  }

  // ----- the activities -----

  class SteppingClock {
    var current: int

    constructor (start: int)
      ensures current == start
    {
      current := start;
    }

    method Now() returns (value: int)
      modifies this
      ensures value == old(current) && current == old(current) + TICK
    {
      value := current;
      current := current + TICK;
    }
  }

  class EventRecorder {
    const cmd: Command
    const sink: Persistence
    var events: seq<Event>

    constructor (cmd: Command, sink: Persistence)
      ensures this.cmd == cmd && this.sink == sink && events == []
    {
      this.cmd, this.sink := cmd, sink;
      events := [];
    }

    /** False when the sink raises; then nothing is recorded. */
    method EmitEvent(kind: EventType, payload: Json, node: Option<string>, occurredAt: Option<int>, clock: SteppingClock)
      returns (ok: bool)
      modifies this`events, sink, clock
      ensures clock.current == old(clock.current) + if occurredAt.Some? then 0 else TICK
      ensures var at := if occurredAt.Some? then occurredAt.value else old(clock.current);
              var e := Stamp(cmd, old(events), kind, payload, node, at);
              var tx := AppendEvent(old(sink.View()), e);
              && ok == tx.Commit?
              && sink.View() == Settle(old(sink.View()), tx)
              && events == if ok then old(events) + [e] else old(events)
    {
      var sequence := |events| + 1;
      var id := EventId(cmd.run, sequence, kind, node);
      var causation := if events == [] then cmd.request else events[|events| - 1].id;
      var moment;
      if occurredAt.Some? { moment := occurredAt.value; } else { moment := clock.Now(); }
      var e := Event(id, cmd.run, sequence, kind, moment, cmd.request, causation, node, DEFAULT_POLICY, Redact(payload));
      ok := sink.Append(e);
      if ok { events := events + [e]; }
    }
  }

  /** Where an attempt ends up, as a value the proofs below carry along without unfolding it. */
  type Destination = imap<(Database, Attempt), Database>

  ghost predicate LeadsAlone(lead: Destination, cmd: Command, prog: Program, computed: Option<Json>) {
    && (forall x: (Database, Attempt) :: x in lead)
    && (forall db, a {:trigger Alone(cmd, prog, db, a, computed)} :: lead[(db, a)] == Alone(cmd, prog, db, a, computed))
  }

  lemma EmitLeads(lead: Destination, cmd: Command, prog: Program, computed: Option<Json>,
                  db: Database, start: int, recorded: seq<Event>, out: Option<Json>, em: Emission)
    requires LeadsAlone(lead, cmd, prog, computed)
    requires |recorded| < |Emissions(cmd, prog, out)| && em == Emissions(cmd, prog, out)[|recorded|]
    ensures var e := NextEvent(cmd, start, recorded, em);
            var tx := AppendEvent(db, e);
            lead[(db, Execution(start, recorded, out))]
            == if tx.Commit? then lead[(Settle(db, tx), Execution(start, recorded + [e], out))] else Settle(db, tx)
  {
    var e := NextEvent(cmd, start, recorded, em);
    var a := Execution(start, recorded, out);
    assert NextAction(cmd, prog, a) == Emit(e);
    assert lead[(db, a)] == Alone(cmd, prog, db, a, computed);
    match AppendEvent(db, e)
    case Abort =>
    case Commit(after, _) => assert Alone(cmd, prog, after, Execution(start, recorded + [e], out), computed) == lead[(db, a)];
  }

  lemma RaiseLeads(lead: Destination, cmd: Command, prog: Program, computed: Option<Json>, db: Database, a: Attempt)
    requires LeadsAlone(lead, cmd, prog, computed) && NextAction(cmd, prog, a) == Raise
    ensures lead[(db, a)] == db
  {
    assert Alone(cmd, prog, db, a, computed) == db;
  }

  lemma InvokeLeads(lead: Destination, cmd: Command, prog: Program, computed: Option<Json>, db: Database, a: Attempt)
    requires LeadsAlone(lead, cmd, prog, computed) && a.Execution? && NextAction(cmd, prog, a) == Invoke
    ensures var tx := InvokeOnce(db, computed);
            lead[(db, a)] == if tx.Commit? then lead[(Settle(db, tx), a.(out := Some(tx.value)))] else Settle(db, tx)
  {
    assert lead[(db, a)] == Alone(cmd, prog, db, a, computed);
    match InvokeOnce(db, computed)
    case Abort =>
    case Commit(after, out) => assert Alone(cmd, prog, after, a.(out := Some(out)), computed) == lead[(db, a)];
  }

  lemma SaveLeads(lead: Destination, cmd: Command, prog: Program, computed: Option<Json>, db: Database, a: Attempt, t: Trace)
    requires LeadsAlone(lead, cmd, prog, computed) && NextAction(cmd, prog, a) == Save(t)
    ensures lead[(db, a)] == Settle(db, FinalizeRun(db, cmd.run, t))
  {
    assert lead[(db, a)] == Alone(cmd, prog, db, a, computed);
  }

  /** EmitEvent for an event that is known to lead on. */
  method EmitStep(recorder: EventRecorder, kind: EventType, payload: Json, node: Option<string>, occurredAt: Option<int>,
                  clock: SteppingClock, ghost lead: Destination, ghost start: int, ghost out: Option<Json>, ghost e: Event)
    returns (ok: bool)
    requires forall x: (Database, Attempt) :: x in lead
    requires e == Stamp(recorder.cmd, recorder.events, kind, payload, node,
                        if occurredAt.Some? then occurredAt.value else clock.current)
    requires var db := recorder.sink.View();
             var tx := AppendEvent(db, e);
             lead[(db, Execution(start, recorder.events, out))]
             == if tx.Commit? then lead[(Settle(db, tx), Execution(start, recorder.events + [e], out))] else Settle(db, tx)
    modifies recorder`events, recorder.sink, clock
    ensures clock.current == old(clock.current) + if occurredAt.Some? then 0 else TICK
    ensures ok ==> recorder.events == old(recorder.events) + [e]
    ensures old(lead[(recorder.sink.View(), Execution(start, recorder.events, out))])
         == if ok then lead[(recorder.sink.View(), Execution(start, recorder.events, out))] else recorder.sink.View()
  {
    ok := recorder.EmitEvent(kind, payload, node, occurredAt, clock);
  }

  /** EmitEvent for the emission that is due. */
  method EmitPlanned(recorder: EventRecorder, kind: EventType, payload: Json, node: Option<string>, occurredAt: Option<int>,
                     clock: SteppingClock, ghost lead: Destination, ghost prog: Program, ghost start: int,
                     ghost out: Option<Json>, ghost computed: Option<Json>, ghost tick: nat)
    returns (ok: bool)
    requires LeadsAlone(lead, recorder.cmd, prog, computed)
    requires |recorder.events| < |Emissions(recorder.cmd, prog, out)|
    requires Emissions(recorder.cmd, prog, out)[|recorder.events|] == Emission(kind, payload, node, tick)
    requires start + tick * TICK == if occurredAt.Some? then occurredAt.value else clock.current
    modifies recorder`events, recorder.sink, clock
    ensures clock.current == old(clock.current) + if occurredAt.Some? then 0 else TICK
    ensures ok ==> |recorder.events| == |old(recorder.events)| + 1
    ensures ok ==> recorder.events[|recorder.events| - 1].occurredAt == start + tick * TICK
    ensures old(lead[(recorder.sink.View(), Execution(start, recorder.events, out))])
         == if ok then lead[(recorder.sink.View(), Execution(start, recorder.events, out))] else recorder.sink.View()
  {
    ghost var e := NextEvent(recorder.cmd, start, recorder.events, Emission(kind, payload, node, tick));
    EmitLeads(lead, recorder.cmd, prog, computed, recorder.sink.View(), start, recorder.events, out,
      Emission(kind, payload, node, tick));
    ok := EmitStep(recorder, kind, payload, node, occurredAt, clock, lead, start, out, e);
  }

  /** The kernel's run through its graph: a None result stands for the exception that ends the attempt. */
  method ExecuteRun(cmd: Command, prog: Program, store: Persistence, start: int, computed: Option<Json>)
    returns (outcome: Option<Trace>)
    modifies store
    ensures store.View() == Alone(cmd, prog, old(store.View()), Execution(start, [], None), computed)
    ensures outcome.Some? ==> store.trace == outcome
  {
    ghost var lead := imap x: (Database, Attempt) | true :: Alone(cmd, prog, x.0, x.1, computed);
    assert forall db, a {:trigger Alone(cmd, prog, db, a, computed)} :: lead[(db, a)] == Alone(cmd, prog, db, a, computed);
    outcome := StartRun(cmd, prog, store, start, computed, lead);
  }

  lemma EmissionsBeforeTool(cmd: Command, prog: Program)
    requires prog.runnable
    ensures var es := Emissions(cmd, prog, None);
            && |es| == (if prog.request.None? then 3 else if prog.admitted then 5 else 4)
            && es[0] == Emission(RunStarted, VersionPayload(cmd), None, 0)
            && es[1] == Emission(NodeStarted, Obj(map[]), Some(prog.modelNode), 2)
            && es[2] == Emission(ModelRequested, Obj(map["profile_id" := Str(prog.profile)]), Some(prog.modelNode), 3)
            && (prog.request.Some? ==> es[3] == Emission(ModelCompleted, prog.request.value.arguments, Some(prog.modelNode), 4))
            && (prog.request.Some? && prog.admitted ==>
                  es[4] == Emission(ToolRequested, Obj(map["tool_id" := Str(prog.request.value.tool)]), Some(prog.toolNode), 6))
  {}

  lemma EmissionsAfterTool(cmd: Command, prog: Program, out: Json)
    requires ReachesTool(prog)
    ensures var es := Emissions(cmd, prog, Some(out));
            && |es| == (if !prog.toolAccepts(out) then 5 else if !prog.resultAccepts(out) then 6 else 8)
            && (prog.toolAccepts(out) ==> es[5] == Emission(ToolCompleted, out, Some(prog.toolNode), 7))
            && (prog.toolAccepts(out) && prog.resultAccepts(out) ==>
                  && es[6] == Emission(NodeCompleted, out, Some(prog.outputNode), 8)
                  && es[7] == Emission(RunCompleted, Obj(map["status" := Str("completed")]), None, 9))
  {}

  method StartRun(cmd: Command, prog: Program, store: Persistence, start: int, computed: Option<Json>, ghost lead: Destination)
    returns (outcome: Option<Trace>)
    requires LeadsAlone(lead, cmd, prog, computed)
    modifies store
    ensures store.View() == old(lead[(store.View(), Execution(start, [], None))])
    ensures outcome.Some? ==> store.trace == outcome
  {
    if !prog.runnable {
      RaiseLeads(lead, cmd, prog, computed, store.View(), Execution(start, [], None));
      return None;
    }
    EmissionsBeforeTool(cmd, prog);
    var clock := new SteppingClock(start);
    var recorder := new EventRecorder(cmd, store);

    var startedAt := clock.Now();
    var ok := EmitPlanned(recorder, RunStarted, VersionPayload(cmd), None, Some(startedAt), clock,
                          lead, prog, start, None, computed, 0);
    if !ok { return None; }

    var inputCompletedAt := clock.Now();
    var executions := [NodeExecution(prog.inputNode, startedAt, inputCompletedAt, DurationMs(startedAt, inputCompletedAt),
                                     Redact(cmd.input), Redact(cmd.input))];

    var modelStartedAt := clock.Now();
    ok := EmitPlanned(recorder, NodeStarted, Obj(map[]), Some(prog.modelNode), Some(modelStartedAt), clock,
                      lead, prog, start, None, computed, 2);
    if !ok { return None; }
    outcome := CallModel(cmd, prog, store, start, computed, clock, recorder, executions, modelStartedAt, lead);
  }

  method CallModel(cmd: Command, prog: Program, store: Persistence, start: int, computed: Option<Json>,
                   clock: SteppingClock, recorder: EventRecorder, before: seq<NodeExecution>,
                   modelStartedAt: int, ghost lead: Destination)
    returns (outcome: Option<Trace>)
    requires LeadsAlone(lead, cmd, prog, computed)
    requires prog.runnable && recorder.cmd == cmd && recorder.sink == store
    requires |recorder.events| == 2 && clock.current == start + 3 * TICK && modelStartedAt == start + 2 * TICK
    requires before == Planned(cmd, prog, start)[..1]
    modifies store, clock, recorder
    ensures store.View() == old(lead[(store.View(), Execution(start, recorder.events, None))])
    ensures outcome.Some? ==> store.trace == outcome
  {
    EmissionsBeforeTool(cmd, prog);
    var ok := EmitPlanned(recorder, ModelRequested, Obj(map["profile_id" := Str(prog.profile)]),
                          Some(prog.modelNode), None, clock,
                      lead, prog, start, None, computed, 3);
    if !ok { return None; }
    if prog.request.None? {
      RaiseLeads(lead, cmd, prog, computed, store.View(), Execution(start, recorder.events, None));
      return None;
    }
    var request := prog.request.value;
    ok := EmitPlanned(recorder, ModelCompleted, request.arguments, Some(prog.modelNode), None, clock,
                      lead, prog, start, None, computed, 4);
    if !ok { return None; }
    var modelCompletedAt := clock.Now();
    var executions := before + [NodeExecution(prog.modelNode, modelStartedAt, modelCompletedAt,
                                              DurationMs(modelStartedAt, modelCompletedAt),
                                              Redact(cmd.input), Redact(request.arguments))];
    if !prog.admitted {
      RaiseLeads(lead, cmd, prog, computed, store.View(), Execution(start, recorder.events, None));
      return None;
    }
    assert executions == Planned(cmd, prog, start);
    outcome := CallTool(cmd, prog, store, start, computed, clock, recorder, executions, lead);
  }

  method CallTool(cmd: Command, prog: Program, store: Persistence, start: int, computed: Option<Json>,
                  clock: SteppingClock, recorder: EventRecorder, before: seq<NodeExecution>, ghost lead: Destination)
    returns (outcome: Option<Trace>)
    requires LeadsAlone(lead, cmd, prog, computed)
    requires ReachesTool(prog) && recorder.cmd == cmd && recorder.sink == store
    requires |recorder.events| == 4 && clock.current == start + 6 * TICK
    requires before == Planned(cmd, prog, start)
    modifies store, clock, recorder
    ensures store.View() == old(lead[(store.View(), Execution(start, recorder.events, None))])
    ensures outcome.Some? ==> store.trace == outcome
  {
    EmissionsBeforeTool(cmd, prog);
    var request := prog.request.value;
    var toolStartedAt := clock.Now();
    var ok := EmitPlanned(recorder, ToolRequested, Obj(map["tool_id" := Str(request.tool)]),
                          Some(prog.toolNode), Some(toolStartedAt), clock,
                          lead, prog, start, None, computed, 6);
    if !ok { return None; }
    InvokeLeads(lead, cmd, prog, computed, store.View(), Execution(start, recorder.events, None));
    var answer := store.InvokeCalculatorOnce(computed);
    if answer.None? { return None; }
    var out := answer.value;
    EmissionsAfterTool(cmd, prog, out);
    if !prog.toolAccepts(out) {
      RaiseLeads(lead, cmd, prog, computed, store.View(), Execution(start, recorder.events, Some(out)));
      return None;
    }
    ok := EmitPlanned(recorder, ToolCompleted, out, Some(prog.toolNode), None, clock, lead, prog, start, Some(out), computed, 7);
    if !ok { return None; }
    var toolCompletedAt := recorder.events[|recorder.events| - 1].occurredAt;
    var execution := NodeExecution(prog.toolNode, toolStartedAt, toolCompletedAt, DurationMs(toolStartedAt, toolCompletedAt),
                                   Redact(request.arguments), Redact(out));
    if !prog.resultAccepts(out) {
      RaiseLeads(lead, cmd, prog, computed, store.View(), Execution(start, recorder.events, Some(out)));
      return None;
    }
    outcome := FinishRun(cmd, prog, store, start, computed, clock, recorder, before + [execution], out, lead);
  }

  method FinishRun(cmd: Command, prog: Program, store: Persistence, start: int, ghost computed: Option<Json>,
                   clock: SteppingClock, recorder: EventRecorder, before: seq<NodeExecution>, out: Json, ghost lead: Destination)
    returns (outcome: Option<Trace>)
    requires LeadsAlone(lead, cmd, prog, computed)
    requires Completes(prog, Some(out)) && recorder.cmd == cmd && recorder.sink == store
    requires |recorder.events| == 6 && clock.current == start + 8 * TICK
    requires before == Planned(cmd, prog, start) + [Ran(prog.toolNode, start, 6, 7, Arguments(prog), out)]
    modifies store, clock, recorder
    ensures store.View() == old(lead[(store.View(), Execution(start, recorder.events, Some(out)))])
    ensures outcome.Some? ==> store.trace == outcome
  {
    EmissionsAfterTool(cmd, prog, out);
    var outputStartedAt := clock.Now();
    var ok := EmitPlanned(recorder, NodeCompleted, out, Some(prog.outputNode), Some(outputStartedAt), clock,
                          lead, prog, start, Some(out), computed, 8);
    if !ok { return None; }
    var outputCompletedAt := recorder.events[|recorder.events| - 1].occurredAt;
    var executions := before + [NodeExecution(prog.outputNode, outputStartedAt, outputCompletedAt, 0, Redact(out), Redact(out))];
    assert executions == Executions(cmd, prog, start, out);
    ok := EmitPlanned(recorder, RunCompleted, Obj(map["status" := Str("completed")]), None, None, clock,
                      lead, prog, start, Some(out), computed, 9);
    if !ok { return None; }
    var completedAt := recorder.events[|recorder.events| - 1].occurredAt;
    var trace := Trace(cmd.run, cmd.request, cmd.version, cmd.digest, Completed, start, completedAt,
                       Redact(cmd.input), Redact(out), recorder.events, executions,
                       Provenance(prog.models, prog.tools, DEFAULT_POLICY), DurationMs(start, completedAt), 1, None);
    SaveLeads(lead, cmd, prog, computed, store.View(), Execution(start, recorder.events, Some(out)), trace);
    var saved := store.Finalize(cmd.run, trace);
    return if saved then Some(trace) else None;
  }

  lemma AloneLists(cmd: Command, prog: Program, db: Database, start: int, status: Status)
    ensures Alone(cmd, prog, db, Finalizer(start, status, None), None)
         == Alone(cmd, prog, db, Finalizer(start, status, Some(ListEvents(db, 0))), None)
  {}

  lemma AloneEmits(cmd: Command, prog: Program, db: Database, a: Attempt, e: Event)
    requires NextAction(cmd, prog, a) == Emit(e)
    ensures var tx := AppendEvent(db, e);
            Alone(cmd, prog, db, a, None) == if tx.Commit? then Alone(cmd, prog, Settle(db, tx), Recorded(a, e), None) else db
  {}

  lemma AloneSaves(cmd: Command, prog: Program, db: Database, a: Attempt, t: Trace)
    requires NextAction(cmd, prog, a) == Save(t)
    ensures Alone(cmd, prog, db, a, None) == Settle(db, FinalizeRun(db, cmd.run, t))
  {}

  /** The cancelled and failed finalizers. */
  method FinalizeTerminalRun(cmd: Command, prog: Program, store: Persistence, start: int, status: Status)
    returns (outcome: Option<Trace>)
    modifies store
    ensures store.View() == Alone(cmd, prog, old(store.View()), Finalizer(start, status, None), None)
    ensures outcome.Some? ==> store.trace == outcome
  {
    var events := ListEvents(store.View(), 0);
    AloneLists(cmd, prog, store.View(), start, status);
    if events == [] {
      var started := FinalizerStarted(cmd, start);
      AloneEmits(cmd, prog, store.View(), Finalizer(start, status, Some(events)), started);
      var ok := store.Append(started);
      if !ok { return None; }
      events := events + [started];
    }
    outcome := EndTerminalRun(cmd, prog, store, start, status, events);
  }

  /** From a list that begins the run on: the ending when it is missing, then the trace. */
  method EndTerminalRun(cmd: Command, prog: Program, store: Persistence, start: int, status: Status, listed: seq<Event>)
    returns (outcome: Option<Trace>)
    requires listed != []
    modifies store
    ensures store.View() == Alone(cmd, prog, old(store.View()), Finalizer(start, status, Some(listed)), None)
    ensures outcome.Some? ==> store.trace == outcome
  {
    var events := listed;
    var last := events[|events| - 1];
    if last.kind != FinalType(status) {
      var ending := FinalizerEnd(cmd, start, status, events);
      AloneEmits(cmd, prog, store.View(), Finalizer(start, status, Some(events)), ending);
      var ok := store.Append(ending);
      if !ok { return None; }
      events := events + [ending];
    }
    outcome := SaveTerminalTrace(cmd, prog, store, start, status, events);
  }

  method SaveTerminalTrace(cmd: Command, prog: Program, store: Persistence, start: int, status: Status, events: seq<Event>)
    returns (outcome: Option<Trace>)
    requires events != [] && events[|events| - 1].kind == FinalType(status)
    modifies store
    ensures store.View() == Alone(cmd, prog, old(store.View()), Finalizer(start, status, Some(events)), None)
    ensures outcome.Some? ==> store.trace == outcome
  {
    var trace := FinalizerTrace(cmd, start, status, events);
    AloneSaves(cmd, prog, store.View(), Finalizer(start, status, Some(events)), trace);
    var saved := store.Finalize(cmd.run, trace);
    return if saved then Some(trace) else None;
  }
}
