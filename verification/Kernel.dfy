/** What one execution of an agent run emits, and the two activities and the API path that finish a run otherwise. */
module Kernel {
  import opened Options
  import opened Json
  import opened Redaction
  import opened RunEvents
  import opened RunDatabase

  datatype Command = Command(run: Uuid, request: Uuid, version: string, digest: string, input: Json)

  datatype ToolRequest = ToolRequest(tool: string, arguments: Json)

  /** What the command's agent and the model decide before and around the tool call:
      `runnable`: the spec, the input and the graph pass and the profile is found;
      `request`: the model's answer, None when it raises;
      `admitted`: the tool asked for is the configured, declared one and accepts the arguments;
      the two schemas judge the tool's output. */
  datatype Program = Program(
    runnable: bool, inputNode: string, modelNode: string, toolNode: string, outputNode: string,
    profile: string, request: Option<ToolRequest>, admitted: bool,
    toolAccepts: Json -> bool, resultAccepts: Json -> bool,
    models: seq<Json>, tools: seq<Json>)

  const TICK := 10_000

  /** One emit call: type, payload, node, and the clock reading it carries, in ticks after the start. */
  datatype Emission = Emission(kind: EventType, payload: Json, node: Option<string>, tick: nat)

  function VersionPayload(cmd: Command): Json { Obj(map["agent_version_id" := Str(cmd.version)]) }

  predicate ReachesTool(prog: Program) { prog.runnable && prog.request.Some? && prog.admitted }

  function BeforeTool(cmd: Command, prog: Program): seq<Emission> {
    if !prog.runnable then []
    else
      [Emission(RunStarted, VersionPayload(cmd), None, 0),
       Emission(NodeStarted, Obj(map[]), Some(prog.modelNode), 2),
       Emission(ModelRequested, Obj(map["profile_id" := Str(prog.profile)]), Some(prog.modelNode), 3)]
      + (match prog.request
         case None => []
         case Some(r) =>
           [Emission(ModelCompleted, r.arguments, Some(prog.modelNode), 4)]
           + (if prog.admitted then [Emission(ToolRequested, Obj(map["tool_id" := Str(r.tool)]), Some(prog.toolNode), 6)]
              else []))
  }

  function AfterTool(prog: Program, out: Json): seq<Emission> {
    if !prog.toolAccepts(out) then []
    else
      [Emission(ToolCompleted, out, Some(prog.toolNode), 7)]
      + (if !prog.resultAccepts(out) then []
         else
           [Emission(NodeCompleted, out, Some(prog.outputNode), 8),
            Emission(RunCompleted, Obj(map["status" := Str("completed")]), None, 9)])
  }

  /** Everything the execution emits once the tool has answered, or as far as it gets without an answer. */
  function Emissions(cmd: Command, prog: Program, out: Option<Json>): (es: seq<Emission>)
    ensures |es| <= 8
    ensures es != [] ==> es[0].kind.RunStarted?
  {
    BeforeTool(cmd, prog) + if ReachesTool(prog) && out.Some? then AfterTool(prog, out.value) else []
  }

  predicate Completes(prog: Program, out: Option<Json>) {
    ReachesTool(prog) && out.Some? && prog.toolAccepts(out.value) && prog.resultAccepts(out.value)
  }

  /** The event the recorder makes of one emit call after the events it already has. */
  function Stamp(cmd: Command, recorded: seq<Event>, kind: EventType, payload: Json, node: Option<string>, at: int): Event {
    Event(EventId(cmd.run, |recorded| + 1, kind, node), cmd.run, |recorded| + 1, kind, at, cmd.request,
          if recorded == [] then cmd.request else recorded[|recorded| - 1].id, node, DEFAULT_POLICY, Redact(payload))
  }

  function NextEvent(cmd: Command, start: int, recorded: seq<Event>, e: Emission): Event {
    Stamp(cmd, recorded, e.kind, e.payload, e.node, start + e.tick * TICK)
  }

  function Record(cmd: Command, start: int, es: seq<Emission>): (log: seq<Event>)
    ensures |log| == |es|
  {
    if es == [] then []
    else
      var init := Record(cmd, start, es[..|es| - 1]);
      init + [NextEvent(cmd, start, init, es[|es| - 1])]
  }

  lemma {:induction false} RecordPrefix(cmd: Command, start: int, es: seq<Emission>, n: nat)
    requires n <= |es|
    ensures Record(cmd, start, es)[..n] == Record(cmd, start, es[..n])
  {
    if n < |es| {
      RecordPrefix(cmd, start, es[..|es| - 1], n);
      assert es[..|es| - 1][..n] == es[..n];
    } else {
      assert es[..n] == es;
    }
  }

  lemma RecordNext(cmd: Command, start: int, es: seq<Emission>, n: nat)
    requires n < |es|
    ensures var sofar := Record(cmd, start, es)[..n];
            Record(cmd, start, es)[n] == NextEvent(cmd, start, sofar, es[n])
  {
    RecordPrefix(cmd, start, es, n);
    RecordPrefix(cmd, start, es, n + 1);
    assert es[..n + 1][..n] == es[..n];
    assert Record(cmd, start, es)[n] == Record(cmd, start, es)[..n + 1][n];
  }

  lemma NextEventLinked(cmd: Command, start: int, recorded: seq<Event>, e: Emission)
    requires recorded == [] ==> e.kind.RunStarted?
    ensures Linked(cmd.run, cmd.request, recorded + [NextEvent(cmd, start, recorded, e)], |recorded|)
  {}

  lemma {:induction false} RecordChained(cmd: Command, start: int, es: seq<Emission>)
    requires es != [] ==> es[0].kind.RunStarted?
    ensures Chained(cmd.run, cmd.request, Record(cmd, start, es))
  {
    if es != [] {
      var init := Record(cmd, start, es[..|es| - 1]);
      RecordChained(cmd, start, es[..|es| - 1]);
      NextEventLinked(cmd, start, init, es[|es| - 1]);
      ChainedExtend(cmd.run, cmd.request, init, NextEvent(cmd, start, init, es[|es| - 1]));
    }
  }

  /** The stored answer only adds to what is emitted before it. */
  lemma EmissionsExtend(cmd: Command, prog: Program, out: Json)
    ensures Emissions(cmd, prog, None) <= Emissions(cmd, prog, Some(out))
  {}

  /** A node that ran from one tick to another. */
  function Ran(node: string, start: int, a: nat, b: nat, x: Json, y: Json): NodeExecution {
    NodeExecution(node, start + a * TICK, start + b * TICK, DurationMs(start + a * TICK, start + b * TICK), Redact(x), Redact(y))
  }

  function Arguments(prog: Program): Json { if prog.request.Some? then prog.request.value.arguments else Null }

  function Planned(cmd: Command, prog: Program, start: int): seq<NodeExecution> {
    [Ran(prog.inputNode, start, 0, 1, cmd.input, cmd.input),
     Ran(prog.modelNode, start, 2, 5, cmd.input, Arguments(prog))]
  }

  function Executions(cmd: Command, prog: Program, start: int, out: Json): seq<NodeExecution> {
    Planned(cmd, prog, start)
    + [Ran(prog.toolNode, start, 6, 7, Arguments(prog), out), Ran(prog.outputNode, start, 8, 8, out, out)]
  }

  function KernelTrace(cmd: Command, prog: Program, start: int, events: seq<Event>, out: Json): Trace {
    var completed := if events == [] then start else events[|events| - 1].occurredAt;
    Trace(cmd.run, cmd.request, cmd.version, cmd.digest, Completed, start, completed,
          Redact(cmd.input), Redact(out), events, Executions(cmd, prog, start, out),
          Provenance(prog.models, prog.tools, DEFAULT_POLICY), DurationMs(start, completed), 1, None)
  }

  // ----- finalizers -----

  function FinalizerStarted(cmd: Command, start: int): Event {
    Event(EventId(cmd.run, 1, RunStarted, None), cmd.run, 1, RunStarted, start, cmd.request, cmd.request,
          None, DEFAULT_POLICY, VersionPayload(cmd))
  }

  function FinalType(status: Status): EventType { if status.Cancelled? then RunCancelled else RunFailed }

  function FinalizerEnd(cmd: Command, start: int, status: Status, events: seq<Event>): Event
    requires events != []
  {
    var last := events[|events| - 1];
    var sequence := last.sequence + 1;
    Event(EventId(cmd.run, sequence, FinalType(status), None), cmd.run, sequence, FinalType(status),
          start + sequence * TICK, cmd.request, last.id, None, DEFAULT_POLICY,
          if status.Cancelled? then Obj(map["status" := Str("cancelled")]) else Obj(map["code" := Str("execution_failed")]))
  }

  function FinalizerTrace(cmd: Command, start: int, status: Status, events: seq<Event>): Trace
    requires events != []
  {
    var completed := events[|events| - 1].occurredAt;
    Trace(cmd.run, cmd.request, cmd.version, cmd.digest, status, start, completed,
          Redact(cmd.input), Obj(map[]), events, [], Provenance([], [], DEFAULT_POLICY),
          DurationMs(start, completed), 0, if status.Failed? then Some("execution_failed") else None)
  }

  lemma TextMemberIsShown(key: string, text: string)
    requires !IsSecretKey(key)
    ensures Redact(Obj(map[key := Str(text)])) == Obj(map[key := Str(text)])
  {
    assert Redact(Obj(map[key := Str(text)])).fields == map[key := Str(text)];
  }

  lemma VersionPayloadIsShown(cmd: Command)
    ensures Redact(VersionPayload(cmd)) == VersionPayload(cmd)
  {
    VersionKeyIsNotSecret();
    TextMemberIsShown("agent_version_id", cmd.version);
  }

  /** The event a finalizer makes up for a run that never started is the kernel's own first event. */
  lemma FabricatedStartIsTheKernels(cmd: Command, prog: Program, start: int, out: Option<Json>)
    requires prog.runnable
    ensures Emissions(cmd, prog, out) != []
    ensures Record(cmd, start, Emissions(cmd, prog, out))[0] == FinalizerStarted(cmd, start)
  {
    var es := Emissions(cmd, prog, out);
    assert es[0] == Emission(RunStarted, VersionPayload(cmd), None, 0);
    RecordNext(cmd, start, es, 0);
    VersionPayloadIsShown(cmd);
  }

  /** The types and instants a completed execution puts in the log. */
  lemma CompletedTimeline(cmd: Command, prog: Program, start: int, out: Json)
    requires Completes(prog, Some(out))
    ensures var log := Record(cmd, start, Emissions(cmd, prog, Some(out)));
            && |log| == 8
            && log[0].kind.RunStarted? && log[1].kind.NodeStarted? && log[2].kind.ModelRequested?
            && log[3].kind.ModelCompleted? && log[4].kind.ToolRequested? && log[5].kind.ToolCompleted?
            && log[6].kind.NodeCompleted? && log[7].kind.RunCompleted?
            && (forall i | 0 < i < 8 :: log[i - 1].occurredAt < log[i].occurredAt)
            && log[0].occurredAt == start && log[7].occurredAt == start + 9 * TICK
            && log[5].payload == log[6].payload == Redact(out)
            && log[3].payload == Redact(prog.request.value.arguments)
  {
    var es := Emissions(cmd, prog, Some(out));
    var log := Record(cmd, start, es);
    assert |es| == 8;
    forall i | 0 <= i < 8 ensures log[i].kind == es[i].kind
                          ensures log[i].occurredAt == start + es[i].tick * TICK
                          ensures log[i].payload == Redact(es[i].payload)
    {
      RecordNext(cmd, start, es, i);
    }
    assert es[5..] == AfterTool(prog, out);
  }

  lemma CompletedPlaces(cmd: Command, prog: Program, start: int, out: Json)
    requires Completes(prog, Some(out))
    ensures var log := Record(cmd, start, Emissions(cmd, prog, Some(out)));
            && |log| == 8
            && (forall i | 0 <= i < 8 :: log[i].occurredAt == start + [0, 2, 3, 4, 6, 7, 8, 9][i] * TICK)
            && log[1].node == log[3].node == Some(prog.modelNode) && log[6].node == Some(prog.outputNode)
            && log[4].node == log[5].node == Some(prog.toolNode)
  {
    var es := Emissions(cmd, prog, Some(out));
    assert es[5..] == AfterTool(prog, out);
    forall i | 0 <= i < 8 ensures Record(cmd, start, es)[i].node == es[i].node
                          ensures Record(cmd, start, es)[i].occurredAt == start + es[i].tick * TICK
    {
      RecordNext(cmd, start, es, i);
    }
  }

  /** Input, model, tool and output ran one after the other, when and with what the log says. */
  ghost predicate TellsTheNodes(prog: Program, log: seq<Event>, x: seq<NodeExecution>) {
    && |log| == 8 && |x| == 4
    && x[0].node == prog.inputNode && Some(x[1].node) == log[1].node == log[3].node
    && Some(x[2].node) == log[4].node == log[5].node && Some(x[3].node) == log[6].node
    && (forall i | 0 < i < 4 :: x[i - 1].completedAt <= x[i].startedAt)
    && x[1].startedAt == log[1].occurredAt && log[3].occurredAt <= x[1].completedAt
    && x[2].startedAt == log[4].occurredAt && x[2].completedAt == log[5].occurredAt
    && x[3].startedAt == x[3].completedAt == log[6].occurredAt
    && x[1].output == x[2].input == log[3].payload
    && x[2].output == x[3].input == x[3].output == log[5].payload
    && x[0].durationMs == 10 && x[1].durationMs == 30 && x[2].durationMs == 10 && x[3].durationMs == 0
  }

  /** The four executions of a completed one, in microseconds from the start. */
  lemma CompletedExecutions(cmd: Command, prog: Program, start: int, out: Json)
    ensures var x := Executions(cmd, prog, start, out);
            && |x| == 4
            && x[0] == Ran(prog.inputNode, start, 0, 1, cmd.input, cmd.input)
            && x[1] == Ran(prog.modelNode, start, 2, 5, cmd.input, Arguments(prog))
            && x[2] == Ran(prog.toolNode, start, 6, 7, Arguments(prog), out)
            && x[3] == Ran(prog.outputNode, start, 8, 8, out, out)
  {}

  /** The trace of a completed execution: 90 ms in all, and its four nodes one after the other, each with the instants
      and results that the log tells of it. */
  lemma CompletedTrace(cmd: Command, prog: Program, start: int, out: Json)
    requires Completes(prog, Some(out))
    ensures var log := Record(cmd, start, Emissions(cmd, prog, Some(out)));
            var t := KernelTrace(cmd, prog, start, log, out);
            var x := t.executions;
            && t.events == log && t.output == log[6].payload
            && t.startedAt == log[0].occurredAt && t.completedAt == log[7].occurredAt && t.durationMs == 90
            && TellsTheNodes(prog, log, x)
            && t.startedAt <= x[0].startedAt && x[3].completedAt <= t.completedAt
  {
    CompletedTimeline(cmd, prog, start, out);
    CompletedPlaces(cmd, prog, start, out);
    CompletedExecutions(cmd, prog, start, out);
  }

  // ----- the API-side writer -----

  function StartFailureStarted(cmd: Command, now: int): Event { FinalizerStarted(cmd, now) }

  function StartFailureEnd(cmd: Command, now: int, code: string): Event {
    Event(EventId(cmd.run, 2, RunFailed, None), cmd.run, 2, RunFailed, now + 1_000, cmd.request,
          StartFailureStarted(cmd, now).id, None, DEFAULT_POLICY, Obj(map["code" := Str(code)]))
  }

  function StartFailureTrace(cmd: Command, now: int, code: string): Trace {
    Trace(cmd.run, cmd.request, cmd.version, cmd.digest, Failed, now, now + 1_000, cmd.input, Obj(map[]),
          [StartFailureStarted(cmd, now), StartFailureEnd(cmd, now, code)], [],
          Provenance([], [], DEFAULT_POLICY), 1, 0, None)
  }

  /** One transaction: both events, the trace and the outbox rows, or nothing. */
  function StartFailure(cmd: Command, db: Database, now: int, code: string): Tx<bool> {
    match AppendEvent(db, StartFailureStarted(cmd, now))
    case Abort => Abort
    case Commit(one, _) =>
      match AppendEvent(one, StartFailureEnd(cmd, now, code))
      case Abort => Abort
      case Commit(two, _) => FinalizeRun(two, cmd.run, StartFailureTrace(cmd, now, code))
  }

  method FinalizeStartFailure(cmd: Command, store: Persistence, now: int, code: string) returns (ok: bool)
    modifies store
    ensures ok == StartFailure(cmd, old(store.View()), now, code).Commit?
    ensures store.View() == Settle(old(store.View()), StartFailure(cmd, old(store.View()), now, code))
  {
    var saved := store.View();
    ok := store.Append(StartFailureStarted(cmd, now));
    if ok {
      ok := store.Append(StartFailureEnd(cmd, now, code));
    }
    if ok {
      ok := store.Finalize(cmd.run, StartFailureTrace(cmd, now, code));
    }
    if !ok {
      store.Rollback(saved);
    }
  }
}
