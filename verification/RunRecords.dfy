/** What the writers of a run put on record, field by field: events, traces and the run's own columns. */
module RunRecords {
  import opened Options
  import opened Json
  import opened Redaction
  import opened RunEvents
  import opened RunDatabase
  import opened Kernel
  import opened RunAttempts
  import opened RunProtocol
  import opened RunSettlement

  // ----- finalizers -----

  /** The event a finalizer ends a log with: its place, cause and instant follow from the log before it,
      its type and payload from the status. */
  ghost predicate EndsWith(cmd: Command, start: int, status: Status, log: seq<Event>) {
    |log| >= 2 &&
    var last := log[|log| - 1];
    && last.run == cmd.run && last.sequence == |log| && last.id == EventId(cmd.run, |log|, last.kind, None)
    && last.correlation == cmd.request && last.causation == log[|log| - 2].id
    && last.occurredAt == start + |log| * 10_000
    && last.node.None? && last.policy == "default-redaction"
    && (if status.Cancelled?
        then last.kind == RunCancelled && last.payload == Obj(map["status" := Str("cancelled")])
        else last.kind == RunFailed && last.payload == Obj(map["code" := Str("execution_failed")]))
  }

  /** The start a finalizer makes up. */
  ghost predicate BeginsWith(cmd: Command, start: int, first: Event) {
    && first.run == cmd.run && first.sequence == 1 && first.kind == RunStarted && first.occurredAt == start
    && first.id == EventId(cmd.run, 1, RunStarted, None)
    && first.correlation == cmd.request && first.causation == cmd.request && first.node.None?
    && first.policy == "default-redaction" && first.payload == Obj(map["agent_version_id" := Str(cmd.version)])
  }

  /** The trace a finalizer stores. */
  ghost predicate TraceSays(cmd: Command, start: int, status: Status, log: seq<Event>, t: Trace) {
    && t.run == cmd.run && t.request == cmd.request && t.version == cmd.version && t.digest == cmd.digest
    && t.status == status && t.startedAt == start
    && log != [] && t.completedAt == log[|log| - 1].occurredAt && t.events == log
    && t.input == Redact(cmd.input) && t.output == Obj(map[]) && t.executions == []
    && t.provenance == Provenance([], [], "default-redaction") && t.toolCalls == 0
    && t.durationMs == DurationMs(t.startedAt, t.completedAt)
    && t.error == if status.Failed? then Some("execution_failed") else None
  }

  /** What a finalizer leaves: a start only where nothing was logged, an ending only where the last event does not announce the
      status already, and its trace only where there was none. */
  ghost predicate FinalizerLeaves(cmd: Command, start: int, status: Status, db: Database, settled: Database) {
    var log := settled.events;
    && db.events <= log
    && |log| == (if db.events == [] then 2
                 else |db.events| + if TerminalTypeOf(status) == Some(db.events[|db.events| - 1].kind) then 0 else 1)
    && (db.events == [] ==> BeginsWith(cmd, start, log[0]))
    && (log != db.events ==> EndsWith(cmd, start, status, log))
    && (db.trace.None? ==> settled.trace.Some? && TraceSays(cmd, start, status, log, settled.trace.value))
    && (db.trace.Some? ==> settled.trace == db.trace)
  }

  /** One undisturbed finalizer, from any reachable state. */
  lemma FinalizerWrites(cmd: Command, prog: Program, moves: seq<Move>, start: int, status: Status)
    requires status.Cancelled? || status.Failed?
    ensures var db := Run(cmd, prog, INITIAL, moves).db;
            FinalizerLeaves(cmd, start, status, db, Alone(cmd, prog, db, Finalizer(start, status, None), None))
  {
    var db := Run(cmd, prog, INITIAL, moves).db;
    FinalizerSettles(cmd, prog, moves, start, status);
    ReachedIsKept(cmd, prog, moves);
    SettledLeaves(cmd, start, status, db, Alone(cmd, prog, db, Finalizer(start, status, None), None));
  }

  lemma SettledLeaves(cmd: Command, start: int, status: Status, db: Database, settled: Database)
    requires (status.Cancelled? || status.Failed?) && Chained(cmd.run, cmd.request, db.events)
    requires Settles(cmd, start, status, db, settled)
    ensures FinalizerLeaves(cmd, start, status, db, settled)
  {
    EndedLogSays(cmd, start, status, db.events);
    if db.trace.None? { FinalizerTraceSays(cmd, start, status, settled.events); }
  }

  lemma EndedLogSays(cmd: Command, start: int, status: Status, log: seq<Event>)
    requires (status.Cancelled? || status.Failed?) && Chained(cmd.run, cmd.request, log)
    ensures var ended := EndedLog(cmd, start, status, log);
            && log <= ended && ended != []
            && |ended| == (if log == [] then 2
                           else |log| + if TerminalTypeOf(status) == Some(log[|log| - 1].kind) then 0 else 1)
            && (log == [] ==> BeginsWith(cmd, start, ended[0]))
            && (ended != log ==> EndsWith(cmd, start, status, ended))
  {
    if log != [] { assert Linked(cmd.run, cmd.request, log, |log| - 1); }
  }

  lemma FinalizerTraceSays(cmd: Command, start: int, status: Status, log: seq<Event>)
    requires log != []
    ensures TraceSays(cmd, start, status, log, FinalizerTrace(cmd, start, status, log))
  {}

  // ----- the start-failure writer -----

  /** The start-failure writer on a fresh run: two events a millisecond apart, the second with the failure's code, a failed
      trace over them, and the run's columns. */
  lemma FailedStartWrites(cmd: Command, prog: Program, now: int, code: string)
    ensures var db := Run(cmd, prog, INITIAL, [FailStart(now, code)]).db;
            && |db.events| == 2 && BeginsWith(cmd, now, db.events[0])
            && db.trace.Some? && var t := db.trace.value; var last := db.events[1];
            && last.run == cmd.run && last.sequence == 2 && last.kind == RunFailed && last.occurredAt == now + 1_000
            && last.id == EventId(cmd.run, 2, RunFailed, None)
            && last.correlation == cmd.request && last.causation == db.events[0].id && last.node.None?
            && last.policy == "default-redaction" && last.payload == Obj(map["code" := Str(code)])
            && t.run == cmd.run && t.request == cmd.request && t.version == cmd.version && t.digest == cmd.digest
            && t.status == Failed && t.startedAt == now && t.completedAt == now + 1_000 && t.events == db.events
            && t.input == cmd.input && t.output == Obj(map[]) && t.executions == [] && t.durationMs == 1 && t.toolCalls == 0
            && t.provenance == Provenance([], [], "default-redaction") && t.error.None?
            && db.status == Failed && db.output == Some(Obj(map[])) && db.startedAt == Some(now)
  {
    var moves := [FailStart(now, code)];
    FailedStartIsReached(cmd, prog, now, code);
    StartFailureOnNothing(cmd, now, code);
    ReachedIsKept(cmd, prog, moves);
    assert moves[..0] == [];
  }

  // ----- executions -----

  /** How far an execution gets: nothing without a runnable spec, three events when the model raises, four when its request is
      refused, five until the tool answers or when its answer is refused, six when the result is, and all eight otherwise. */
  function Reached(prog: Program, out: Option<Json>): nat {
    if !prog.runnable then 0
    else if prog.request.None? then 3
    else if !prog.admitted then 4
    else if out.None? || !prog.toolAccepts(out.value) then 5
    else if !prog.resultAccepts(out.value) then 6
    else 8
  }

  /** The type, node and payload of the k-th event of an execution. */
  ghost predicate SaysAt(cmd: Command, prog: Program, start: int, out: Option<Json>, k: nat, e: Event) {
    match k
    case 0 => e.kind == RunStarted && e.node.None? && e.occurredAt == start
              && e.payload == Redact(Obj(map["agent_version_id" := Str(cmd.version)]))
    case 1 => e.kind == NodeStarted && e.node == Some(prog.modelNode) && e.occurredAt == start + 20_000
              && e.payload == Redact(Obj(map[]))
    case 2 => e.kind == ModelRequested && e.node == Some(prog.modelNode) && e.occurredAt == start + 30_000
              && e.payload == Redact(Obj(map["profile_id" := Str(prog.profile)]))
    case 3 => e.kind == ModelCompleted && e.node == Some(prog.modelNode) && e.occurredAt == start + 40_000
              && prog.request.Some? && e.payload == Redact(prog.request.value.arguments)
    case 4 => e.kind == ToolRequested && e.node == Some(prog.toolNode) && e.occurredAt == start + 60_000
              && prog.request.Some? && e.payload == Redact(Obj(map["tool_id" := Str(prog.request.value.tool)]))
    case 5 => e.kind == ToolCompleted && e.node == Some(prog.toolNode) && e.occurredAt == start + 70_000
              && out.Some? && e.payload == Redact(out.value)
    case 6 => e.kind == NodeCompleted && e.node == Some(prog.outputNode) && e.occurredAt == start + 80_000
              && out.Some? && e.payload == Redact(out.value)
    case _ => e.kind == RunCompleted && e.node.None? && e.occurredAt == start + 90_000
              && e.payload == Redact(Obj(map["status" := Str("completed")]))
  }

  /** Every event: its place in the run, its names, and its cause. */
  ghost predicate StampedAt(cmd: Command, log: seq<Event>, k: nat)
    requires k < |log|
  {
    var e := log[k];
    && e.run == cmd.run && e.sequence == k + 1 && e.id == EventId(cmd.run, k + 1, e.kind, e.node)
    && e.correlation == cmd.request && e.causation == (if k == 0 then cmd.request else log[k - 1].id)
    && e.policy == "default-redaction"
  }

  lemma EmissionsSay(cmd: Command, prog: Program, start: int, out: Option<Json>, k: nat, recorded: seq<Event>)
    requires k < |Emissions(cmd, prog, out)|
    ensures SaysAt(cmd, prog, start, out, k, NextEvent(cmd, start, recorded, Emissions(cmd, prog, out)[k]))
    ensures |Emissions(cmd, prog, out)| == Reached(prog, out)
  {
    var es := Emissions(cmd, prog, out);
    if k >= 5 { assert es[k] == AfterTool(prog, out.value)[k - 5]; } else { assert es[k] == BeforeTool(cmd, prog)[k]; }
  }

  /** The log of an execution, however far it gets. */
  lemma ExecutionWrites(cmd: Command, prog: Program, start: int, out: Option<Json>)
    ensures var log := KernelLog(cmd, prog, start, out);
            && |log| == Reached(prog, out)
            && forall k | 0 <= k < |log| :: SaysAt(cmd, prog, start, out, k, log[k]) && StampedAt(cmd, log, k)
  {
    var es, log := Emissions(cmd, prog, out), KernelLog(cmd, prog, start, out);
    forall k | 0 <= k < |log| ensures SaysAt(cmd, prog, start, out, k, log[k]) && StampedAt(cmd, log, k) {
      RecordNext(cmd, start, es, k);
      EmissionsSay(cmd, prog, start, out, k, log[..k]);
    }
    if es != [] { EmissionsSay(cmd, prog, start, out, 0, []); }
  }

  ghost predicate KernelTraceSays(cmd: Command, prog: Program, start: int, log: seq<Event>, out: Json, t: Trace) {
    && t.run == cmd.run && t.request == cmd.request && t.version == cmd.version && t.digest == cmd.digest
    && t.status == Completed && t.startedAt == start && t.completedAt == start + 90_000 && t.durationMs == 90
    && t.events == log && t.input == Redact(cmd.input) && t.output == Redact(out)
    && t.provenance == Provenance(prog.models, prog.tools, "default-redaction") && t.toolCalls == 1 && t.error.None?
    && |t.executions| == 4
    && t.executions[0].input == t.executions[0].output == t.executions[1].input == Redact(cmd.input)
    && t.executions[0].startedAt == start && t.executions[0].completedAt == start + 10_000
    && t.executions[1].completedAt == start + 50_000
  }

  /** What the rows of a run say after an execution with this answer. */
  ghost predicate ExecutionLeft(cmd: Command, prog: Program, start: int, computed: Option<Json>, done: Database) {
    var log := done.events;
    && |log| == Reached(prog, computed)
    && (forall k | 0 <= k < |log| :: SaysAt(cmd, prog, start, computed, k, log[k]) && StampedAt(cmd, log, k))
    && done.invocation == (if prog.runnable && prog.request.Some? && prog.admitted then computed else None)
    && done.startedAt == (if log == [] then None else Some(start))
    && done.status == (if |log| == 8 then Completed else if log == [] then Queued else Running)
    && (done.trace.Some? <==> |log| == 8)
    && (done.trace.Some? ==>
          && computed.Some? && KernelTraceSays(cmd, prog, start, log, computed.value, done.trace.value)
          && done.output == Some(if Redact(computed.value).Obj? then Redact(computed.value) else Obj(map[])))
  }

  lemma SameLog(cmd: Command, prog: Program, start: int, computed: Option<Json>)
    ensures KernelLog(cmd, prog, start, Answer(prog, CREATED, computed)) == KernelLog(cmd, prog, start, computed)
  {
    assert Emissions(cmd, prog, Answer(prog, CREATED, computed)) == Emissions(cmd, prog, computed);
  }

  lemma CompletedTraceSays(cmd: Command, prog: Program, start: int, out: Json)
    requires Completes(prog, Some(out))
    ensures var log := KernelLog(cmd, prog, start, Some(out));
            KernelTraceSays(cmd, prog, start, log, out, KernelTrace(cmd, prog, start, log, out))
  {
    CompletedTrace(cmd, prog, start, out);
    CompletedExecutions(cmd, prog, start, out);
    CompletedPlaces(cmd, prog, start, out);
  }

  lemma ArrivedSays(cmd: Command, prog: Program, start: int, computed: Option<Json>, done: Database)
    requires Arrived(cmd, prog, start, Answer(prog, CREATED, computed), done) && DatabaseKept(cmd, done)
    ensures ExecutionLeft(cmd, prog, start, computed, done)
  {
    SameLog(cmd, prog, start, computed);
    ExecutionWrites(cmd, prog, start, computed);
    if Completes(prog, computed) { CompletedTraceSays(cmd, prog, start, computed.value); }
  }

  /** What an execution of a fresh run leaves when the tool answers `computed`: the log as far as the program gets, the answer,
      and for a completed one its trace and the run's columns. */
  lemma ExecutionLeaves(cmd: Command, prog: Program, start: int, computed: Option<Json>)
    ensures ExecutionLeft(cmd, prog, start, computed, Alone(cmd, prog, CREATED, Execution(start, [], None), computed))
  {
    ReachedIsKept(cmd, prog, []);
    assert Run(cmd, prog, INITIAL, []).db == CREATED;
    var a := Execution(start, [], None);
    assert AttemptKept(cmd, prog, CREATED, a);
    RestartCompletes(cmd, prog, start, [], computed);
    AloneExtends(cmd, prog, CREATED, a, computed);
    ArrivedSays(cmd, prog, start, computed, Alone(cmd, prog, CREATED, a, computed));
  }
}
