/** Run events, run traces and the semantic check on a trace. */
module RunEvents {
  import opened Options
  import opened Json
  import opened Text

  /** Identifiers. A name-based identifier is determined by its namespace and name, and determines both. */
  datatype Uuid = Given(number: nat) | V5(space: Uuid, name: string)

  datatype EventType =
    | RunStarted | NodeStarted | ModelRequested | ModelCompleted | ToolRequested | ToolCompleted
    | ApprovalRequired | ApprovalResolved | NodeFailed | NodeCompleted
    | RunCompleted | RunFailed | RunCancelled

  function TypeName(t: EventType): string {
    match t
    case RunStarted => "run.started"
    case NodeStarted => "node.started"
    case ModelRequested => "model.requested"
    case ModelCompleted => "model.completed"
    case ToolRequested => "tool.requested"
    case ToolCompleted => "tool.completed"
    case ApprovalRequired => "approval.required"
    case ApprovalResolved => "approval.resolved"
    case NodeFailed => "node.failed"
    case NodeCompleted => "node.completed"
    case RunCompleted => "run.completed"
    case RunFailed => "run.failed"
    case RunCancelled => "run.cancelled"
  }

  predicate IsTerminalType(t: EventType) { t.RunCompleted? || t.RunFailed? || t.RunCancelled? }

  datatype Status = Queued | Running | Completed | Failed | Cancelled

  predicate IsTerminalStatus(s: Status) { s.Completed? || s.Failed? || s.Cancelled? }

  function TerminalTypeOf(s: Status): Option<EventType> {
    match s
    case Completed => Some(RunCompleted)
    case Failed => Some(RunFailed)
    case Cancelled => Some(RunCancelled)
    case _ => None
  }

  /** Instants are in microseconds. */
  datatype Event = Event(
    id: Uuid, run: Uuid, sequence: nat, kind: EventType, occurredAt: int,
    correlation: Uuid, causation: Uuid, node: Option<string>, policy: string, payload: Json)

  datatype NodeExecution = NodeExecution(
    node: string, startedAt: int, completedAt: int, durationMs: nat, input: Json, output: Json)

  datatype Provenance = Provenance(models: seq<Json>, tools: seq<Json>, policy: string)

  datatype Trace = Trace(
    run: Uuid, request: Uuid, version: string, digest: string, status: Status,
    startedAt: int, completedAt: int, input: Json, output: Json,
    events: seq<Event>, executions: seq<NodeExecution>, provenance: Provenance,
    durationMs: nat, toolCalls: nat, error: Option<string>)

  const DEFAULT_POLICY := "default-redaction"

  // ----- deterministic identifiers -----

  function NodeText(node: Option<string>): string { if node.Some? then node.value else "" }

  function EventName(sequence: nat, kind: EventType, node: Option<string>): string {
    "event" + ":" + (Decimal(sequence) + ":" + (TypeName(kind) + ":" + NodeText(node)))
  }

  function EventId(run: Uuid, sequence: nat, kind: EventType, node: Option<string>): Uuid {
    V5(run, EventName(sequence, kind, node))
  }

  lemma TypeNamesDiffer(t: EventType, u: EventType)
    requires TypeName(t) == TypeName(u)
    ensures t == u
  {
    var a, b := TypeName(t), TypeName(u);
    assert |a| == |b|;
    assert a[4] == b[4] && a[0] == b[0] && a[|a| - 1] == b[|b| - 1];
  }

  lemma TypeNameHasNoColon(t: EventType)
    ensures ':' !in TypeName(t)
  {}

  /** Equal event ids come from the same run, sequence, type and node; only no node and one without a name count as the same. */
  lemma EventIdInjective(run: Uuid, s: nat, t: EventType, n: Option<string>,
    run': Uuid, s': nat, t': EventType, n': Option<string>)
    requires EventId(run, s, t, n) == EventId(run', s', t', n')
    ensures run == run' && s == s' && t == t'
    ensures n == n' || (n in {None, Some("")} && n' in {None, Some("")})
  {
    var x, x' := TypeName(t) + ":" + NodeText(n), TypeName(t') + ":" + NodeText(n');
    var y, y' := Decimal(s) + ":" + x, Decimal(s') + ":" + x';
    HeadsAgree("event", "event", y, y', ':');
    HeadsAgree(Decimal(s), Decimal(s'), x, x', ':');
    DecimalInjective(s, s');
    TypeNameHasNoColon(t);
    TypeNameHasNoColon(t');
    HeadsAgree(TypeName(t), TypeName(t'), NodeText(n), NodeText(n'), ':');
    TypeNamesDiffer(t, t');
  }

  /** The names of the types on the wire, and two of the names that ids are made of. */
  lemma NamesAre()
    ensures TypeName(RunStarted) == "run.started" && TypeName(RunCompleted) == "run.completed"
    ensures TypeName(RunFailed) == "run.failed" && TypeName(RunCancelled) == "run.cancelled"
    ensures TypeName(NodeStarted) == "node.started" && TypeName(NodeCompleted) == "node.completed"
    ensures TypeName(NodeFailed) == "node.failed"
    ensures TypeName(ModelRequested) == "model.requested" && TypeName(ModelCompleted) == "model.completed"
    ensures TypeName(ToolRequested) == "tool.requested" && TypeName(ToolCompleted) == "tool.completed"
    ensures TypeName(ApprovalRequired) == "approval.required" && TypeName(ApprovalResolved) == "approval.resolved"
    ensures EventName(1, RunStarted, None) == "event:1:run.started:"
    ensures EventName(2, RunFailed, None) == "event:2:run.failed:"
  {
    assert Decimal(1) == "1" && Decimal(2) == "2";
    assert "event" + ":" + ("1" + ":" + ("run.started" + ":" + "")) == "event:1:run.started:";
    assert "event" + ":" + ("2" + ":" + ("run.failed" + ":" + "")) == "event:2:run.failed:";
  }

  /** Durations round to the nearest millisecond, halves to the even one, and are never negative. */
  lemma DurationSays(startedAt: int, completedAt: int)
    ensures var us, ms := completedAt - startedAt, DurationMs(startedAt, completedAt);
            if us <= 0 then ms == 0
            else
              && -500 <= us - ms * 1000 <= 500
              && (us - ms * 1000 == 500 || us - ms * 1000 == -500 ==> ms % 2 == 0)
  {}

  /** max(0, round(milliseconds)) with halves to even. */
  function DurationMs(startedAt: int, completedAt: int): nat {
    var us := completedAt - startedAt;
    if us <= 0 then 0
    else
      var q, r := us / 1000, us % 1000;
      if r < 500 || (r == 500 && q % 2 == 0) then q else q + 1
  }

  // ----- validate_run_trace -----

  function SequenceErrors(events: seq<Event>): set<string> {
    if exists i | 0 <= i < |events| :: events[i].sequence != i + 1 then {"event_sequence_invalid"} else {}
  }

  function IdentityErrors(events: seq<Event>): set<string> {
    if exists i, j | 0 <= i < j < |events| :: events[i].id == events[j].id then {"duplicate_event_id"} else {}
  }

  function RunErrors(trace: Trace): set<string> {
    if exists i | 0 <= i < |trace.events| :: trace.events[i].run != trace.run then {"event_run_mismatch"} else {}
  }

  function LifecycleErrors(trace: Trace): set<string> {
    var events := trace.events;
    if events == [] then {}
    else if !events[0].kind.RunStarted? then {"event_lifecycle_invalid"}
    else if !IsTerminalType(events[|events| - 1].kind) then {"event_lifecycle_invalid"}
    else if TerminalTypeOf(trace.status) != Some(events[|events| - 1].kind) then {"event_lifecycle_invalid"}
    else {}
  }

  function CausationErrors(trace: Trace): set<string> {
    var events := trace.events;
    if events == [] then {}
    else if events[0].causation != trace.request then {"event_causation_invalid"}
    else if exists i | 0 < i < |events| :: events[i].causation != events[i - 1].id then {"event_causation_invalid"}
    else {}
  }

  function PolicyErrors(trace: Trace): set<string> {
    if exists i | 0 <= i < |trace.events| :: trace.events[i].policy != trace.provenance.policy
    then {"redaction_policy_mismatch"} else {}
  }

  function ValidateRunTrace(trace: Trace): set<string> {
    SequenceErrors(trace.events) + IdentityErrors(trace.events) + RunErrors(trace)
    + LifecycleErrors(trace) + CausationErrors(trace) + PolicyErrors(trace)
  }

  lemma CodesDiffer()
    ensures "event_sequence_invalid" !in
              {"duplicate_event_id", "event_run_mismatch", "event_lifecycle_invalid", "event_causation_invalid",
               "redaction_policy_mismatch"}
    ensures "duplicate_event_id" !in
              {"event_run_mismatch", "event_lifecycle_invalid", "event_causation_invalid", "redaction_policy_mismatch"}
    ensures "event_run_mismatch" !in {"event_lifecycle_invalid", "event_causation_invalid", "redaction_policy_mismatch"}
    ensures "event_lifecycle_invalid" !in {"event_causation_invalid", "redaction_policy_mismatch"}
    ensures "event_causation_invalid" != "redaction_policy_mismatch"
  {
    assert |"event_sequence_invalid"| == 22 && |"duplicate_event_id"| == |"event_run_mismatch"| == 18;
    assert |"event_lifecycle_invalid"| == |"event_causation_invalid"| == 23 && |"redaction_policy_mismatch"| == 25;
    assert "duplicate_event_id"[0] != "event_run_mismatch"[0];
    assert "event_lifecycle_invalid"[6] != "event_causation_invalid"[6];
  }

  /** The codes of six faults. */
  function Codes(sequence: bool, identity: bool, run: bool, lifecycle: bool, causation: bool, policy: bool): set<string> {
    (if sequence then {"event_sequence_invalid"} else {}) + (if identity then {"duplicate_event_id"} else {})
    + (if run then {"event_run_mismatch"} else {}) + (if lifecycle then {"event_lifecycle_invalid"} else {})
    + (if causation then {"event_causation_invalid"} else {}) + (if policy then {"redaction_policy_mismatch"} else {})
  }

  /** Different faults earn different codes. */
  lemma CodesTell(sequence: bool, identity: bool, run: bool, lifecycle: bool, causation: bool, policy: bool)
    ensures var errors := Codes(sequence, identity, run, lifecycle, causation, policy);
            && ("event_sequence_invalid" in errors <==> sequence) && ("duplicate_event_id" in errors <==> identity)
            && ("event_run_mismatch" in errors <==> run) && ("event_lifecycle_invalid" in errors <==> lifecycle)
            && ("event_causation_invalid" in errors <==> causation) && ("redaction_policy_mismatch" in errors <==> policy)
            && (errors == {} <==> !sequence && !identity && !run && !lifecycle && !causation && !policy)
  {
    CodesDiffer();
  }

  /** The types that end a run announce its status. */
  predicate Announces(kind: EventType, status: Status) {
    (kind == RunCompleted && status == Completed) || (kind == RunFailed && status == Failed)
    || (kind == RunCancelled && status == Cancelled)
  }

  /** The validator reports exactly the faults of a trace, whatever its events are. */
  lemma ValidationIsExact(trace: Trace)
    ensures var log := trace.events;
            ValidateRunTrace(trace) == Codes(
              exists i :: 0 <= i < |log| && log[i].sequence != i + 1,
              exists i, j :: 0 <= i < j < |log| && log[i].id == log[j].id,
              exists i :: 0 <= i < |log| && log[i].run != trace.run,
              log != [] && (log[0].kind != RunStarted || !Announces(log[|log| - 1].kind, trace.status)),
              log != [] && (log[0].causation != trace.request
                            || exists i :: 0 < i < |log| && log[i].causation != log[i - 1].id),
              exists i :: 0 <= i < |log| && log[i].policy != trace.provenance.policy)
  {
    LifecycleIsExact(trace);
  }

  lemma LifecycleIsExact(trace: Trace)
    ensures var log := trace.events;
            LifecycleErrors(trace) == if log != [] && (log[0].kind != RunStarted || !Announces(log[|log| - 1].kind, trace.status))
                                      then {"event_lifecycle_invalid"} else {}
  {}

  // ----- chained logs -----

  /** Event i of a chained log: contiguous, named after its place, caused by its predecessor. */
  ghost predicate Linked(run: Uuid, request: Uuid, log: seq<Event>, i: nat)
    requires i < |log|
  {
    && log[i].sequence == i + 1
    && log[i].run == run
    && log[i].id == EventId(run, i + 1, log[i].kind, log[i].node)
    && log[i].correlation == request
    && log[i].causation == (if i == 0 then request else log[i - 1].id)
    && log[i].policy == DEFAULT_POLICY
    && (i == 0 ==> log[i].kind.RunStarted?)
  }

  ghost predicate Chained(run: Uuid, request: Uuid, log: seq<Event>) {
    forall i | 0 <= i < |log| :: Linked(run, request, log, i)
  }

  lemma ChainedPrefix(run: Uuid, request: Uuid, log: seq<Event>, part: seq<Event>)
    requires Chained(run, request, log) && part <= log
    ensures Chained(run, request, part)
  {
    forall i | 0 <= i < |part| ensures Linked(run, request, part, i) {
      assert Linked(run, request, log, i);
    }
  }

  lemma ChainedExtend(run: Uuid, request: Uuid, log: seq<Event>, e: Event)
    requires Chained(run, request, log) && Linked(run, request, log + [e], |log|)
    ensures Chained(run, request, log + [e])
  {
    forall i | 0 <= i < |log + [e]| ensures Linked(run, request, log + [e], i) {
      if i < |log| { assert Linked(run, request, log, i); }
    }
  }

  lemma ChainedIdsDiffer(run: Uuid, request: Uuid, log: seq<Event>, i: nat, j: nat)
    requires Chained(run, request, log) && i < |log| && j < |log| && log[i].id == log[j].id
    ensures i == j
  {
    assert Linked(run, request, log, i) && Linked(run, request, log, j);
    EventIdInjective(run, i + 1, log[i].kind, log[i].node, run, j + 1, log[j].kind, log[j].node);
  }

  /** A trace over a chained log is accepted exactly when its last event announces its status
      (an empty event list is accepted with any status). */
  lemma ChainedTraceValid(trace: Trace)
    requires Chained(trace.run, trace.request, trace.events) && trace.provenance.policy == DEFAULT_POLICY
    ensures ValidateRunTrace(trace) == {} <==>
            trace.events == [] || TerminalTypeOf(trace.status) == Some(trace.events[|trace.events| - 1].kind)
  {
    var events := trace.events;
    forall i | 0 <= i < |events|
      ensures events[i].sequence == i + 1 && events[i].run == trace.run
      ensures events[i].policy == DEFAULT_POLICY && (i == 0 ==> events[i].kind.RunStarted?)
    {
      assert Linked(trace.run, trace.request, events, i);
    }
    forall i | 0 < i < |events| ensures events[i].causation == events[i - 1].id
    {
      assert Linked(trace.run, trace.request, events, i);
    }
    forall i, j | 0 <= i < j < |events| ensures events[i].id != events[j].id {
      if events[i].id == events[j].id { ChainedIdsDiffer(trace.run, trace.request, events, i, j); }
    }
    assert SequenceErrors(events) == {} && IdentityErrors(events) == {} && RunErrors(trace) == {};
    assert forall i | 0 <= i < |trace.events| :: trace.events[i].policy == trace.provenance.policy;
    assert PolicyErrors(trace) == {};
    assert events != [] ==> Linked(trace.run, trace.request, events, 0);
    assert CausationErrors(trace) == {};
    if events != [] && TerminalTypeOf(trace.status) != Some(events[|events| - 1].kind) {
      assert "event_lifecycle_invalid" in ValidateRunTrace(trace);
    }
  }
}
