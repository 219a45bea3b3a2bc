/** How a run ends: a finalizer left alone always settles it, replayed executions converge,
    and what the log may still gain afterwards. */
module RunSettlement {
  import opened Options
  import opened Json
  import opened RunEvents
  import opened RunDatabase
  import opened Kernel
  import opened RunAttempts
  import opened RunProtocol

  // ----- finalizers -----

  /** The next event of a chained log clashes with nothing in it. */
  lemma NextPlaceIsFree(cmd: Command, log: seq<Event>, e: Event)
    requires Chained(cmd.run, cmd.request, log) && e.sequence == |log| + 1
    requires e.id == EventId(cmd.run, |log| + 1, e.kind, e.node)
    ensures FindRow(log, e).None?
  {
    forall i | 0 <= i < |log| ensures !Clashes(log[i], e) {
      assert Linked(cmd.run, cmd.request, log, i);
      if log[i].id == e.id {
        EventIdInjective(cmd.run, i + 1, log[i].kind, log[i].node, cmd.run, |log| + 1, e.kind, e.node);
      }
    }
  }

  /** A log with the start and the ending it lacks. */
  function EndedLog(cmd: Command, start: int, status: Status, log: seq<Event>): seq<Event> {
    var begun := if log == [] then [FinalizerStarted(cmd, start)] else log;
    if begun[|begun| - 1].kind == FinalType(status) then begun else begun + [FinalizerEnd(cmd, start, status, begun)]
  }

  ghost predicate Settles(cmd: Command, start: int, status: Status, db: Database, settled: Database) {
    && settled.events == EndedLog(cmd, start, status, db.events) && settled.events != []
    && settled.trace == (if db.trace.Some? then db.trace
                         else Some(FinalizerTrace(cmd, start, status, settled.events)))
  }

  lemma KnowingFinalizerAppends(cmd: Command, prog: Program, db: Database, a: Attempt)
    requires DatabaseKept(cmd, db) && AttemptKept(cmd, prog, db, a)
    requires a.Finalizer? && a.seen == Some(db.events) && NextAction(cmd, prog, a).Emit?
    ensures var r := Perform(cmd, prog, db, a, None);
            && DatabaseKept(cmd, r.db) && r.db.events == db.events + [NextAction(cmd, prog, a).event]
            && r.db.trace == db.trace && r.next == Some(a.(seen := Some(r.db.events)))
  {
    var e := NextAction(cmd, prog, a).event;
    EmitIsLinked(cmd, prog, db, a);
    assert (db.events + [e])[|db.events|] == e;
    NextPlaceIsFree(cmd, db.events, e);
    NewRowKeeps(cmd, db, e);
  }

  lemma KnowingFinalizerSaves(cmd: Command, prog: Program, db: Database, a: Attempt)
    requires DatabaseKept(cmd, db) && AttemptKept(cmd, prog, db, a)
    requires a.Finalizer? && a.seen == Some(db.events) && NextAction(cmd, prog, a).Save?
    ensures var r := Perform(cmd, prog, db, a, None);
            && r.next.None? && r.db.events == db.events
            && r.db.trace == if db.trace.Some? then db.trace else Some(NextAction(cmd, prog, a).trace)
  {
    var t := NextAction(cmd, prog, a).trace;
    SaveIsTerminated(cmd, prog, db, a);
    assert TerminalEvent(t.events).Some?;
  }

  /** The last transaction of a finalizer that knows the whole log. */
  lemma SavingSettles(cmd: Command, prog: Program, db: Database, start: int, status: Status)
    requires DatabaseKept(cmd, db) && (status.Cancelled? || status.Failed?)
    requires NextAction(cmd, prog, Finalizer(start, status, Some(db.events))).Save?
    ensures Settles(cmd, start, status, db, Alone(cmd, prog, db, Finalizer(start, status, Some(db.events)), None))
  {
    var a := Finalizer(start, status, Some(db.events));
    assert AttemptKept(cmd, prog, db, a);
    KnowingFinalizerSaves(cmd, prog, db, a);
  }

  /** An earlier one. */
  lemma AppendingGoesOn(cmd: Command, prog: Program, db: Database, start: int, status: Status) returns (after: Database)
    requires DatabaseKept(cmd, db) && (status.Cancelled? || status.Failed?)
    requires NextAction(cmd, prog, Finalizer(start, status, Some(db.events))).Emit?
    ensures DatabaseKept(cmd, after) && after.trace == db.trace
    ensures EndedLog(cmd, start, status, after.events) == EndedLog(cmd, start, status, db.events)
    ensures Remaining(Finalizer(start, status, Some(after.events))) < Remaining(Finalizer(start, status, Some(db.events)))
    ensures Alone(cmd, prog, db, Finalizer(start, status, Some(db.events)), None)
         == Alone(cmd, prog, after, Finalizer(start, status, Some(after.events)), None)
  {
    var a := Finalizer(start, status, Some(db.events));
    assert AttemptKept(cmd, prog, db, a);
    KnowingFinalizerAppends(cmd, prog, db, a);
    PerformProgresses(cmd, prog, db, a, None);
    after := Perform(cmd, prog, db, a, None).db;
  }

  /** A finalizer that knows the whole log and works undisturbed completes the log and leaves a stored trace. */
  lemma {:induction false} KnowingFinalizerSettles(cmd: Command, prog: Program, db: Database, start: int, status: Status)
    requires DatabaseKept(cmd, db) && (status.Cancelled? || status.Failed?)
    ensures Settles(cmd, start, status, db, Alone(cmd, prog, db, Finalizer(start, status, Some(db.events)), None))
    decreases Remaining(Finalizer(start, status, Some(db.events)))
  {
    if NextAction(cmd, prog, Finalizer(start, status, Some(db.events))).Emit? {
      var after := AppendingGoesOn(cmd, prog, db, start, status);
      KnowingFinalizerSettles(cmd, prog, after, start, status);
    } else {
      SavingSettles(cmd, prog, db, start, status);
    }
  }

  /** From every reachable state one undisturbed finalizer brings the run to a terminal status: that of the trace stored
      before, or else the finalizer's own, with its trace over the log and the start and ending the log lacked. */
  lemma FinalizerSettles(cmd: Command, prog: Program, moves: seq<Move>, start: int, status: Status)
    requires status.Cancelled? || status.Failed?
    ensures var db := Run(cmd, prog, INITIAL, moves).db;
            var settled := Alone(cmd, prog, db, Finalizer(start, status, None), None);
            && Settles(cmd, start, status, db, settled)
            && IsTerminalStatus(settled.status) && settled.status == settled.trace.value.status
            && (db.trace.None? ==> settled.status == status)
  {
    ReachedIsKept(cmd, prog, moves);
    var db := Run(cmd, prog, INITIAL, moves).db;
    ListIsSuffix(cmd.run, cmd.request, db, 0);
    assert ListEvents(db, 0) == db.events;
    assert AttemptKept(cmd, prog, db, Finalizer(start, status, None));
    KnowingFinalizerSettles(cmd, prog, db, start, status);
    AloneExtends(cmd, prog, db, Finalizer(start, status, Some(db.events)), None);
  }

  lemma {:induction false} AloneExtends(cmd: Command, prog: Program, db: Database, a: Attempt, computed: Option<Json>)
    requires DatabaseKept(cmd, db) && AttemptKept(cmd, prog, db, a)
    ensures Extends(db, Alone(cmd, prog, db, a, computed)) && DatabaseKept(cmd, Alone(cmd, prog, db, a, computed))
    decreases Remaining(a)
  {
    PerformKeeps(cmd, prog, db, a, computed);
    PerformProgresses(cmd, prog, db, a, computed);
    var r := Perform(cmd, prog, db, a, computed);
    if r.next.Some? { AloneExtends(cmd, prog, r.db, r.next.value, computed); }
  }

  // ----- replay -----

  predicate Replays(start: int, move: Move) {
    match move
    case StartExecution(_, s) => s == start
    case StartFinalizer(_, _, _) => false
    case FailStart(_, _) => false
    case _ => true
  }

  /** Only executions of the one workflow start act on the log. */
  predicate Undisturbed(start: int, moves: seq<Move>) {
    forall i | 0 <= i < |moves| :: Replays(start, moves[i])
  }

  function KernelLog(cmd: Command, prog: Program, start: int, out: Option<Json>): seq<Event> {
    Record(cmd, start, Emissions(cmd, prog, out))
  }

  /** The database is somewhere on the way of the execution with the stored tool answer. */
  ghost predicate OnTheWay(cmd: Command, prog: Program, start: int, db: Database) {
    && db.events <= KernelLog(cmd, prog, start, db.invocation)
    && (db.trace.Some? ==>
          && Completes(prog, db.invocation)
          && db.events == KernelLog(cmd, prog, start, db.invocation)
          && db.trace == Some(KernelTrace(cmd, prog, start, db.events, db.invocation.value)))
  }

  ghost predicate AllOnTheWay(cmd: Command, prog: Program, start: int, w: World) {
    && Kept(cmd, prog, w)
    && OnTheWay(cmd, prog, start, w.db)
    && forall id | id in w.live :: w.live[id].Execution? && w.live[id].start == start
  }

  lemma KernelLogExtends(cmd: Command, prog: Program, start: int, out: Json)
    ensures KernelLog(cmd, prog, start, None) <= KernelLog(cmd, prog, start, Some(out))
  {
    AnswerKeepsRecord(cmd, prog, start, KernelLog(cmd, prog, start, None), out);
  }

  lemma NextIsOnTheWay(cmd: Command, prog: Program, db: Database, a: Attempt)
    requires AttemptKept(cmd, prog, db, a) && a.Execution? && NextAction(cmd, prog, a).Emit?
    ensures a.recorded + [NextAction(cmd, prog, a).event] <= KernelLog(cmd, prog, a.start, db.invocation)
  {
    RecordedIsKept(cmd, a.start, Emissions(cmd, prog, a.out), a.recorded);
    if a.out.None? && db.invocation.Some? { KernelLogExtends(cmd, prog, a.start, db.invocation.value); }
  }

  /** An event that agrees with the log is accepted: it is there already or becomes the next one. */
  lemma AgreeingAppend(cmd: Command, db: Database, part: seq<Event>, e: Event)
    requires DatabaseKept(cmd, db) && part <= db.events && Linked(cmd.run, cmd.request, part + [e], |part|)
    requires |part| < |db.events| ==> db.events[|part|] == e
    ensures AppendEvent(db, e).Commit?
    ensures AppendEvent(db, e).db.events == if |part| < |db.events| then db.events else part + [e]
  {
    if |part| < |db.events| {
      assert e in db.events;
      ChainedNumbered(cmd.run, cmd.request, db.events);
      AppendOutcome(db, e);
    } else {
      assert part == db.events && (part + [e])[|part|] == e;
      NextPlaceIsFree(cmd, db.events, e);
    }
  }

  /** What an execution emits next is in its place in the log already, or is the log's next event. */
  lemma EmitAgrees(cmd: Command, prog: Program, db: Database, a: Attempt)
    requires DatabaseKept(cmd, db) && AttemptKept(cmd, prog, db, a) && a.Execution?
    requires OnTheWay(cmd, prog, a.start, db) && NextAction(cmd, prog, a).Emit?
    ensures var e := NextAction(cmd, prog, a).event;
            && AppendEvent(db, e).Commit?
            && AppendEvent(db, e).db.events == (if |a.recorded| < |db.events| then db.events else a.recorded + [e])
            && OnTheWay(cmd, prog, a.start, AppendEvent(db, e).db)
  {
    var e := NextAction(cmd, prog, a).event;
    var log := KernelLog(cmd, prog, a.start, db.invocation);
    NextIsOnTheWay(cmd, prog, db, a);
    assert (a.recorded + [e])[|a.recorded|] == e == log[|a.recorded|];
    EmitIsLinked(cmd, prog, db, a);
    AgreeingAppend(cmd, db, a.recorded, e);
    AppendContinues(cmd, db, a.recorded, e);
  }

  lemma SaveAgrees(cmd: Command, prog: Program, db: Database, a: Attempt)
    requires DatabaseKept(cmd, db) && AttemptKept(cmd, prog, db, a) && a.Execution?
    requires OnTheWay(cmd, prog, a.start, db) && NextAction(cmd, prog, a).Save?
    ensures var t := NextAction(cmd, prog, a).trace;
            && db.events == KernelLog(cmd, prog, a.start, db.invocation)
            && FinalizeRun(db, cmd.run, t).Commit?
            && FinalizeRun(db, cmd.run, t).db.trace == Some(t)
            && t == KernelTrace(cmd, prog, a.start, db.events, db.invocation.value)
            && OnTheWay(cmd, prog, a.start, FinalizeRun(db, cmd.run, t).db)
  {
    SaveIsTerminated(cmd, prog, db, a);
    assert a.recorded == KernelLog(cmd, prog, a.start, a.out);
    assert a.recorded == db.events;
    assert TerminalEvent(a.recorded).Some?;
  }

  ghost predicate ResultOnTheWay(cmd: Command, prog: Program, start: int, r: Result) {
    OnTheWay(cmd, prog, start, r.db) && (r.next.Some? ==> r.next.value.Execution? && r.next.value.start == start)
  }

  lemma EmitStaysOnTheWay(cmd: Command, prog: Program, db: Database, a: Attempt, computed: Option<Json>)
    requires DatabaseKept(cmd, db) && AttemptKept(cmd, prog, db, a) && a.Execution?
    requires OnTheWay(cmd, prog, a.start, db) && NextAction(cmd, prog, a).Emit?
    ensures Perform(cmd, prog, db, a, computed).next.Some?
    ensures ResultOnTheWay(cmd, prog, a.start, Perform(cmd, prog, db, a, computed))
  {
    EmitAgrees(cmd, prog, db, a);
  }

  lemma InvokeStaysOnTheWay(cmd: Command, prog: Program, db: Database, a: Attempt, computed: Option<Json>)
    requires a.Execution? && OnTheWay(cmd, prog, a.start, db) && NextAction(cmd, prog, a).Invoke?
    ensures ResultOnTheWay(cmd, prog, a.start, Perform(cmd, prog, db, a, computed))
  {
    if db.invocation.None? && computed.Some? { KernelLogExtends(cmd, prog, a.start, computed.value); }
  }

  lemma PerformStaysOnTheWay(cmd: Command, prog: Program, db: Database, a: Attempt, computed: Option<Json>)
    requires DatabaseKept(cmd, db) && AttemptKept(cmd, prog, db, a) && a.Execution?
    requires OnTheWay(cmd, prog, a.start, db)
    ensures ResultOnTheWay(cmd, prog, a.start, Perform(cmd, prog, db, a, computed))
  {
    var action := NextAction(cmd, prog, a);
    if action.Emit? {
      EmitStaysOnTheWay(cmd, prog, db, a, computed);
    } else if action.Invoke? {
      InvokeStaysOnTheWay(cmd, prog, db, a, computed);
    } else if action.Save? {
      SaveAgrees(cmd, prog, db, a);
    }
  }

  lemma StepStaysOnTheWay(cmd: Command, prog: Program, start: int, w: World, move: Move)
    requires AllOnTheWay(cmd, prog, start, w) && Replays(start, move)
    ensures AllOnTheWay(cmd, prog, start, Do(cmd, prog, w, move))
  {
    StepKeeps(cmd, prog, w, move);
    if move.Advance? && move.id in w.live {
      PerformStaysOnTheWay(cmd, prog, w.db, w.live[move.id], move.computed);
      AdvanceStaysOnTheWay(cmd, prog, start, w, move.id, move.computed);
    }
  }

  lemma AdvanceStaysOnTheWay(cmd: Command, prog: Program, start: int, w: World, id: nat, computed: Option<Json>)
    requires id in w.live && Kept(cmd, prog, Do(cmd, prog, w, Advance(id, computed)))
    requires forall i | i in w.live :: w.live[i].Execution? && w.live[i].start == start
    requires ResultOnTheWay(cmd, prog, start, Perform(cmd, prog, w.db, w.live[id], computed))
    ensures AllOnTheWay(cmd, prog, start, Do(cmd, prog, w, Advance(id, computed)))
  {}

  lemma {:induction false} ReplaysStayOnTheWay(cmd: Command, prog: Program, start: int, moves: seq<Move>)
    requires Undisturbed(start, moves)
    ensures AllOnTheWay(cmd, prog, start, Run(cmd, prog, INITIAL, moves))
    decreases |moves|
  {
    if moves == [] {
      ReachedIsKept(cmd, prog, []);
    } else {
      var init, move := moves[..|moves| - 1], moves[|moves| - 1];
      assert Undisturbed(start, init);
      ReplaysStayOnTheWay(cmd, prog, start, init);
      StepStaysOnTheWay(cmd, prog, start, Run(cmd, prog, INITIAL, init), move);
    }
  }

  /** Among replaying executions nothing ever conflicts: every event and every trace a live attempt offers is accepted. */
  lemma ReplaysNeverConflict(cmd: Command, prog: Program, start: int, moves: seq<Move>, id: nat)
    requires Undisturbed(start, moves) && id in Run(cmd, prog, INITIAL, moves).live
    ensures var w := Run(cmd, prog, INITIAL, moves);
            match NextAction(cmd, prog, w.live[id])
            case Emit(e) => AppendEvent(w.db, e).Commit?
            case Save(t) => FinalizeRun(w.db, cmd.run, t).Commit?
            case _ => true
  {
    ReplaysStayOnTheWay(cmd, prog, start, moves);
    var w := Run(cmd, prog, INITIAL, moves);
    var a := w.live[id];
    if NextAction(cmd, prog, a).Emit? { EmitAgrees(cmd, prog, w.db, a); }
    if NextAction(cmd, prog, a).Save? { SaveAgrees(cmd, prog, w.db, a); }
  }

  /** The tool answer an execution ends with. */
  function Answer(prog: Program, db: Database, computed: Option<Json>): Option<Json> {
    if db.invocation.Some? then db.invocation else if ReachesTool(prog) then computed else None
  }

  ghost predicate Arrived(cmd: Command, prog: Program, start: int, out: Option<Json>, db: Database) {
    && db.invocation == out
    && db.events == KernelLog(cmd, prog, start, out)
    && db.trace == if Completes(prog, out) then Some(KernelTrace(cmd, prog, start, db.events, out.value)) else None
  }

  lemma {:induction false} AloneArrives(cmd: Command, prog: Program, db: Database, a: Attempt, computed: Option<Json>)
    requires DatabaseKept(cmd, db) && AttemptKept(cmd, prog, db, a) && a.Execution?
    requires OnTheWay(cmd, prog, a.start, db)
    ensures Arrived(cmd, prog, a.start, Answer(prog, db, computed), Alone(cmd, prog, db, a, computed))
    decreases Remaining(a)
  {
    PerformKeeps(cmd, prog, db, a, computed);
    PerformStaysOnTheWay(cmd, prog, db, a, computed);
    PerformProgresses(cmd, prog, db, a, computed);
    var r := Perform(cmd, prog, db, a, computed);
    if r.next.Some? {
      AloneArrives(cmd, prog, r.db, r.next.value, computed);
      AnswerIsSettled(cmd, prog, db, a, computed);
    } else {
      EndArrives(cmd, prog, db, a, computed);
    }
  }

  lemma AnswerIsSettled(cmd: Command, prog: Program, db: Database, a: Attempt, computed: Option<Json>)
    requires a.Execution?
    ensures Answer(prog, Perform(cmd, prog, db, a, computed).db, computed) == Answer(prog, db, computed)
  {}

  lemma SaveArrives(cmd: Command, prog: Program, db: Database, a: Attempt, computed: Option<Json>)
    requires DatabaseKept(cmd, db) && AttemptKept(cmd, prog, db, a) && a.Execution?
    requires OnTheWay(cmd, prog, a.start, db) && NextAction(cmd, prog, a).Save?
    ensures Arrived(cmd, prog, a.start, Answer(prog, db, computed), Perform(cmd, prog, db, a, computed).db)
  {
    SaveAgrees(cmd, prog, db, a);
  }

  /** An execution that ends without saving has recorded all it ever would. */
  lemma RaiseArrives(cmd: Command, prog: Program, db: Database, a: Attempt, computed: Option<Json>)
    requires DatabaseKept(cmd, db) && AttemptKept(cmd, prog, db, a) && a.Execution?
    requires OnTheWay(cmd, prog, a.start, db)
    requires NextAction(cmd, prog, a).Raise? || (NextAction(cmd, prog, a).Invoke? && db.invocation.None? && computed.None?)
    ensures Arrived(cmd, prog, a.start, Answer(prog, db, computed), db)
  {
    var answer := Answer(prog, db, computed);
    assert |a.recorded| == |KernelLog(cmd, prog, a.start, a.out)|;
    assert a.recorded == KernelLog(cmd, prog, a.start, a.out);
    assert Emissions(cmd, prog, a.out) == Emissions(cmd, prog, answer);
    assert db.events <= KernelLog(cmd, prog, a.start, answer) by {
      assert Emissions(cmd, prog, db.invocation) == Emissions(cmd, prog, answer);
    }
    assert a.recorded == db.events;
  }

  lemma EndArrives(cmd: Command, prog: Program, db: Database, a: Attempt, computed: Option<Json>)
    requires DatabaseKept(cmd, db) && AttemptKept(cmd, prog, db, a) && a.Execution?
    requires OnTheWay(cmd, prog, a.start, db) && Perform(cmd, prog, db, a, computed).next.None?
    ensures Arrived(cmd, prog, a.start, Answer(prog, db, computed), Perform(cmd, prog, db, a, computed).db)
  {
    var action := NextAction(cmd, prog, a);
    if action.Emit? {
      EmitStaysOnTheWay(cmd, prog, db, a, computed);
    } else if action.Save? {
      SaveArrives(cmd, prog, db, a, computed);
    } else {
      RaiseArrives(cmd, prog, db, a, computed);
    }
  }

  /** From every reachable state that is on the way, however it was reached, a fresh execution left alone keeps what is logged,
      appends exactly what is missing, and ends with the log, answer and trace that the stored answer determines. */
  lemma RestartCompletes(cmd: Command, prog: Program, start: int, moves: seq<Move>, computed: Option<Json>)
    requires OnTheWay(cmd, prog, start, Run(cmd, prog, INITIAL, moves).db)
    ensures var db := Run(cmd, prog, INITIAL, moves).db;
            var done := Alone(cmd, prog, db, Execution(start, [], None), computed);
            && db.events <= done.events
            && Arrived(cmd, prog, start, Answer(prog, db, computed), done)
  {
    ReachedIsKept(cmd, prog, moves);
    var db := Run(cmd, prog, INITIAL, moves).db;
    var a := Execution(start, [], None);
    assert AttemptKept(cmd, prog, db, a);
    AloneArrives(cmd, prog, db, a, computed);
    AloneExtends(cmd, prog, db, a, computed);
  }

  /** Such states are: nothing but replays so far, with any number of crashes. */
  lemma ReplayedIsOnTheWay(cmd: Command, prog: Program, start: int, moves: seq<Move>)
    requires Undisturbed(start, moves)
    ensures OnTheWay(cmd, prog, start, Run(cmd, prog, INITIAL, moves).db)
  {
    ReplaysStayOnTheWay(cmd, prog, start, moves);
  }

  /** And: a finalizer of the same start got no further than the start it made up. */
  lemma BegunIsOnTheWay(cmd: Command, prog: Program, start: int, moves: seq<Move>)
    requires prog.runnable && Run(cmd, prog, INITIAL, moves).db.events == [FinalizerStarted(cmd, start)]
    ensures OnTheWay(cmd, prog, start, Run(cmd, prog, INITIAL, moves).db)
  {
    ReachedIsKept(cmd, prog, moves);
    var db := Run(cmd, prog, INITIAL, moves).db;
    FabricatedStartIsTheKernels(cmd, prog, start, db.invocation);
    assert db.trace.Some? ==> TraceKept(cmd, db, db.trace.value);
  }

  /** The tool answers the same whenever it answers: `computed`. */
  ghost predicate Deterministic(moves: seq<Move>, computed: Option<Json>) {
    forall i | 0 <= i < |moves| && moves[i].Advance? && moves[i].computed.Some? :: moves[i].computed == computed
  }

  lemma StoredAnswerStep(cmd: Command, prog: Program, w: World, move: Move)
    ensures var after := Do(cmd, prog, w, move).db.invocation;
            after == w.db.invocation || (after.Some? && ReachesTool(prog) && move.Advance? && move.computed == after)
  {
    if move.Advance? && move.id in w.live {
      var action := NextAction(cmd, prog, w.live[move.id]);
      if action.Invoke? { assert ReachesTool(prog); }
    }
  }

  /** A stored answer is one the tool gave to a program that calls it. */
  lemma {:induction false} StoredAnswerIsComputed(cmd: Command, prog: Program, moves: seq<Move>, computed: Option<Json>)
    requires Deterministic(moves, computed)
    ensures var answer := Run(cmd, prog, INITIAL, moves).db.invocation; answer.Some? ==> answer == computed && ReachesTool(prog)
    decreases |moves|
  {
    if moves != [] {
      var init := moves[..|moves| - 1];
      assert forall i | 0 <= i < |init| :: init[i] == moves[i];
      StoredAnswerIsComputed(cmd, prog, init, computed);
      StoredAnswerStep(cmd, prog, Run(cmd, prog, INITIAL, init), moves[|moves| - 1]);
    }
  }

  lemma StatusAtTheEnd(cmd: Command, prog: Program, start: int, moves: seq<Move>, computed: Option<Json>)
    ensures var done := Alone(cmd, prog, Run(cmd, prog, INITIAL, moves).db, Execution(start, [], None), computed);
            done.status == if done.trace.Some? then done.trace.value.status else if done.events == [] then Queued else Running
  {
    ReachedIsKept(cmd, prog, moves);
    AloneExtends(cmd, prog, Run(cmd, prog, INITIAL, moves).db, Execution(start, [], None), computed);
  }

  /** With a deterministic tool the restarted execution ends exactly as one that was never interrupted. */
  lemma RestartEqualsUninterrupted(cmd: Command, prog: Program, start: int, moves: seq<Move>, computed: Option<Json>)
    requires OnTheWay(cmd, prog, start, Run(cmd, prog, INITIAL, moves).db) && Deterministic(moves, computed)
    ensures var restarted := Alone(cmd, prog, Run(cmd, prog, INITIAL, moves).db, Execution(start, [], None), computed);
            var straight := Alone(cmd, prog, CREATED, Execution(start, [], None), computed);
            && restarted.events == straight.events
            && restarted.invocation == straight.invocation
            && restarted.trace == straight.trace
            && restarted.status == straight.status
  {
    StoredAnswerIsComputed(cmd, prog, moves, computed);
    RestartCompletes(cmd, prog, start, moves, computed);
    RestartCompletes(cmd, prog, start, [], computed);
    assert Run(cmd, prog, INITIAL, []).db == CREATED;
    StatusAtTheEnd(cmd, prog, start, moves, computed);
    StatusAtTheEnd(cmd, prog, start, [], computed);
  }

  // ----- terminal events in the log -----

  predicate Ended(log: seq<Event>) { log != [] && IsTerminalType(log[|log| - 1].kind) }

  /** The move lets a finalizer that has read the whole log add its ending behind a last event of another type. */
  predicate Overrules(w: World, move: Move) {
    && move.Advance? && move.id in w.live
    && var a := w.live[move.id];
    && a.Finalizer? && a.seen == Some(w.db.events)
    && w.db.events != [] && w.db.events[|w.db.events| - 1].kind != FinalType(a.status)
  }

  lemma FinalizerAppends(cmd: Command, prog: Program, w: World, move: Move)
    requires Kept(cmd, prog, w) && Overrules(w, move)
    ensures var a := w.live[move.id];
            var after := Do(cmd, prog, w, move).db;
            && after.events == w.db.events + [FinalizerEnd(cmd, a.start, a.status, w.db.events)]
            && after.trace == w.db.trace
  {
    var a := w.live[move.id];
    assert AttemptKept(cmd, prog, w.db, a);
    KnowingFinalizerAppends(cmd, prog, w.db, a);
  }

  /** An execution's terminal event is the last it emits. */
  lemma TerminalEmissionIsLast(cmd: Command, prog: Program, out: Option<Json>, n: nat)
    requires n < |Emissions(cmd, prog, out)| && IsTerminalType(Emissions(cmd, prog, out)[n].kind)
    ensures n + 1 == |Emissions(cmd, prog, out)|
  {}

  /** An execution that has recorded an ended log has nothing left to emit. */
  lemma EndedExecutionIsDone(cmd: Command, prog: Program, db: Database, a: Attempt)
    requires AttemptKept(cmd, prog, db, a) && a.Execution? && Ended(a.recorded)
    ensures !NextAction(cmd, prog, a).Emit?
  {
    var es, n := Emissions(cmd, prog, a.out), |a.recorded| - 1;
    RecordNext(cmd, a.start, es, n);
    assert a.recorded[n] == Record(cmd, a.start, es)[n];
    TerminalEmissionIsLast(cmd, prog, a.out, n);
  }

  function Known(a: Attempt): seq<Event> {
    match a
    case Execution(_, recorded, _) => recorded
    case Finalizer(_, _, seen) => if seen.Some? then seen.value else []
  }

  lemma EmitAppends(cmd: Command, prog: Program, db: Database, a: Attempt)
    requires DatabaseKept(cmd, db) && AttemptKept(cmd, prog, db, a) && NextAction(cmd, prog, a).Emit?
    ensures var e := NextAction(cmd, prog, a).event;
            var after := Settle(db, AppendEvent(db, e)).events;
            after == db.events || (after == db.events + [e] && db.events == Known(a))
  {
    var e := NextAction(cmd, prog, a).event;
    EmitIsLinked(cmd, prog, db, a);
    if AppendEvent(db, e).Commit? { AppendContinues(cmd, db, Known(a), e); }
  }

  lemma SaveAppendsNothing(cmd: Command, prog: Program, db: Database, a: Attempt)
    requires DatabaseKept(cmd, db) && AttemptKept(cmd, prog, db, a) && NextAction(cmd, prog, a).Save?
    ensures Settle(db, FinalizeRun(db, cmd.run, NextAction(cmd, prog, a).trace)).events == db.events
  {
    var t := NextAction(cmd, prog, a).trace;
    SaveIsTerminated(cmd, prog, db, a);
    if FinalizeRun(db, cmd.run, t).Commit? { FinalizeKeeps(cmd, db, t); }
  }

  /** What a live attempt adds to the log: the event it emits next, right behind what it knows,
      and only if that is all there is. */
  lemma AdvanceAppends(cmd: Command, prog: Program, w: World, id: nat, computed: Option<Json>)
    requires Kept(cmd, prog, w) && id in w.live
    ensures var action := NextAction(cmd, prog, w.live[id]);
            var after := Do(cmd, prog, w, Advance(id, computed)).db.events;
            after == w.db.events
            || (action.Emit? && after == w.db.events + [action.event] && w.db.events == Known(w.live[id]))
  {
    var a := w.live[id];
    assert AttemptKept(cmd, prog, w.db, a);
    var action := NextAction(cmd, prog, a);
    if action.Emit? {
      EmitAppends(cmd, prog, w.db, a);
    } else if action.Save? {
      SaveAppendsNothing(cmd, prog, w.db, a);
    }
  }

  /** An ended log changes exactly when a finalizer overrules its last event; nothing else, neither an execution or its
      replay nor the start-failure writer, can add to it, and what is added is again a terminal event of another type. */
  lemma EndedLogsGrowExactly(cmd: Command, prog: Program, moves: seq<Move>, move: Move)
    requires Ended(Run(cmd, prog, INITIAL, moves).db.events)
    ensures var w := Run(cmd, prog, INITIAL, moves);
            var after := Run(cmd, prog, INITIAL, moves + [move]).db;
            && (after.events != w.db.events <==> Overrules(w, move))
            && (Overrules(w, move) ==>
                  var a := w.live[move.id];
                  && after.events == w.db.events + [FinalizerEnd(cmd, a.start, a.status, w.db.events)]
                  && Ended(after.events) && after.trace == w.db.trace)
  {
    ReachedIsKept(cmd, prog, moves);
    assert (moves + [move])[..|moves|] == moves;
    EndedStep(cmd, prog, Run(cmd, prog, INITIAL, moves), move);
  }

  lemma EndedStep(cmd: Command, prog: Program, w: World, move: Move)
    requires Kept(cmd, prog, w) && Ended(w.db.events)
    ensures var after := Do(cmd, prog, w, move).db;
            && (after.events != w.db.events <==> Overrules(w, move))
            && (Overrules(w, move) ==>
                  var a := w.live[move.id];
                  && after.events == w.db.events + [FinalizerEnd(cmd, a.start, a.status, w.db.events)]
                  && Ended(after.events) && after.trace == w.db.trace)
  {
    if Overrules(w, move) {
      assert AttemptKept(cmd, prog, w.db, w.live[move.id]);
      FinalizerAppends(cmd, prog, w, move);
    } else if move.Advance? && move.id in w.live {
      AdvanceAppends(cmd, prog, w, move.id, move.computed);
      assert AttemptKept(cmd, prog, w.db, w.live[move.id]);
      if w.live[move.id].Execution? && w.live[move.id].recorded == w.db.events {
        EndedExecutionIsDone(cmd, prog, w.db, w.live[move.id]);
      }
    } else if move.FailStart? {
      StartFailureKeeps(cmd, w.db, move.now, move.code);
    }
  }

  /** A log that has not ended gains no terminal event but as its new last event. */
  lemma OpenStep(cmd: Command, prog: Program, w: World, move: Move)
    requires Kept(cmd, prog, w) && !Ended(w.db.events) && Terminals(w.db.events) == 0
    ensures var after := Do(cmd, prog, w, move).db; Terminals(after.events) == if Ended(after.events) then 1 else 0
  {
    if move.Advance? && move.id in w.live {
      AdvanceAppends(cmd, prog, w, move.id, move.computed);
    } else if move.FailStart? {
      StartFailureKeeps(cmd, w.db, move.now, move.code);
      var started := StartFailureStarted(cmd, move.now);
      assert ([started] + [StartFailureEnd(cmd, move.now, move.code)])[..1] == [started] && [started][..0] == [];
      assert Terminals([started]) == 0;
    }
  }

  function Terminals(log: seq<Event>): nat {
    if log == [] then 0 else Terminals(log[..|log| - 1]) + if IsTerminalType(log[|log| - 1].kind) then 1 else 0
  }

  /** How often a finalizer overruled an ending, over a run. */
  function Overrulings(cmd: Command, prog: Program, moves: seq<Move>): nat {
    if moves == [] then 0
    else
      var init, move := moves[..|moves| - 1], moves[|moves| - 1];
      var w := Run(cmd, prog, INITIAL, init);
      Overrulings(cmd, prog, init) + if Ended(w.db.events) && Overrules(w, move) then 1 else 0
  }

  /** The log of every run holds its first terminal event, if it has ended, and one more for each time a finalizer
      overruled an ending; terminal events stand together at its end. So a log keeps at most one exactly while
      no finalizer overrules. */
  lemma {:induction false} TerminalEventsCounted(cmd: Command, prog: Program, moves: seq<Move>)
    ensures var log := Run(cmd, prog, INITIAL, moves).db.events;
            && Terminals(log) == (if Ended(log) then 1 + Overrulings(cmd, prog, moves) else 0)
            && (Terminals(log) <= 1 <==> Overrulings(cmd, prog, moves) == 0)
    decreases |moves|
  {
    if moves != [] {
      var init, move := moves[..|moves| - 1], moves[|moves| - 1];
      var w := Run(cmd, prog, INITIAL, init);
      TerminalEventsCounted(cmd, prog, init);
      ReachedIsKept(cmd, prog, init);
      if Ended(w.db.events) {
        EndedStep(cmd, prog, w, move);
      } else {
        OpenStep(cmd, prog, w, move);
      }
    }
  }

  lemma StartFailureOnNothing(cmd: Command, now: int, code: string)
    ensures StartFailure(cmd, CREATED, now, code).Commit?
    ensures var db := StartFailure(cmd, CREATED, now, code).db;
            && db.events == [StartFailureStarted(cmd, now), StartFailureEnd(cmd, now, code)]
            && db.trace == Some(StartFailureTrace(cmd, now, code))
  {
    var started, ended, t := StartFailureStarted(cmd, now), StartFailureEnd(cmd, now, code), StartFailureTrace(cmd, now, code);
    EventIdInjectiveFor(cmd, started, ended);
    var one := AppendEvent(CREATED, started).db;
    assert one.events == [started];
    assert FindRow([started], ended).None?;
    var two := AppendEvent(one, ended).db;
    assert two.events == [started, ended] && two.trace.None?;
    assert TerminalEvent(t.events) == Some(ended);
  }

  lemma RunMore(cmd: Command, prog: Program, moves: seq<Move>, x: Move)
    ensures Run(cmd, prog, INITIAL, moves + [x]) == Do(cmd, prog, Run(cmd, prog, INITIAL, moves), x)
  {
    assert (moves + [x])[..|moves|] == moves;
  }

  lemma FinalizerReads(cmd: Command, prog: Program, w: World, id: nat, start: int, status: Status)
    requires Kept(cmd, prog, w) && id in w.live && w.live[id] == Finalizer(start, status, None)
    ensures Do(cmd, prog, w, Advance(id, None)) == World(w.db, w.live[id := Finalizer(start, status, Some(w.db.events))])
  {
    ListIsSuffix(cmd.run, cmd.request, w.db, 0);
    assert ListEvents(w.db, 0) == w.db.events;
  }

  /** A finalizer with nothing done yet joins those at work. */
  lemma FinalizerJoins(cmd: Command, prog: Program, moves: seq<Move>, id: nat, start: int, status: Status)
    requires id !in Run(cmd, prog, INITIAL, moves).live && (status.Cancelled? || status.Failed?)
    ensures var w := Run(cmd, prog, INITIAL, moves);
            var joined := Run(cmd, prog, INITIAL, moves + [StartFinalizer(id, start, status)]);
            joined.db == w.db && id in joined.live && joined.live[id] == Finalizer(start, status, None)
  {
    RunMore(cmd, prog, moves, StartFinalizer(id, start, status));
  }

  /** And reads the log. */
  lemma FinalizerHasRead(cmd: Command, prog: Program, moves: seq<Move>, id: nat, start: int, status: Status)
    requires var w := Run(cmd, prog, INITIAL, moves); id in w.live && w.live[id] == Finalizer(start, status, None)
    ensures var w := Run(cmd, prog, INITIAL, moves);
            var read := Run(cmd, prog, INITIAL, moves + [Advance(id, None)]);
            read.db == w.db && id in read.live && read.live[id] == Finalizer(start, status, Some(w.db.events))
  {
    ReachedIsKept(cmd, prog, moves);
    RunMore(cmd, prog, moves, Advance(id, None));
    FinalizerReads(cmd, prog, Run(cmd, prog, INITIAL, moves), id, start, status);
  }

  /** A finalizer's ending stands behind what the log held, and the trace is as it was. */
  ghost predicate Overruled(cmd: Command, start: int, status: Status, db: Database, after: Database) {
    && db.events != [] && after.events == db.events + [FinalizerEnd(cmd, start, status, db.events)]
    && Ended(after.events) && after.trace == db.trace
  }

  /** And adds its ending. */
  lemma FinalizerHasOverruled(cmd: Command, prog: Program, moves: seq<Move>, id: nat, start: int, status: Status)
    requires var w := Run(cmd, prog, INITIAL, moves);
             id in w.live && w.live[id] == Finalizer(start, status, Some(w.db.events)) && Overrules(w, Advance(id, None))
    ensures Overruled(cmd, start, status, Run(cmd, prog, INITIAL, moves).db,
                      Run(cmd, prog, INITIAL, moves + [Advance(id, None)]).db)
  {
    ReachedIsKept(cmd, prog, moves);
    RunMore(cmd, prog, moves, Advance(id, None));
    FinalizerAppends(cmd, prog, Run(cmd, prog, INITIAL, moves), Advance(id, None));
  }

  /** Overruling is always possible: from every reachable state with a non-empty log, whoever else is at work, a new finalizer
      whose type is not the last one's adds its ending, whether or not the run has ended. */
  lemma TerminalEventsMayRepeat(cmd: Command, prog: Program, moves: seq<Move>, id: nat, start: int, status: Status)
    requires var w := Run(cmd, prog, INITIAL, moves);
             id !in w.live && w.db.events != [] && w.db.events[|w.db.events| - 1].kind != FinalType(status)
    requires status.Cancelled? || status.Failed?
    ensures Overruled(cmd, start, status, Run(cmd, prog, INITIAL, moves).db,
                      Run(cmd, prog, INITIAL, moves + [StartFinalizer(id, start, status)] + [Advance(id, None)]
                                              + [Advance(id, None)]).db)
  {
    var joined := moves + [StartFinalizer(id, start, status)];
    var read := joined + [Advance(id, None)];
    FinalizerJoins(cmd, prog, moves, id, start, status);
    FinalizerHasRead(cmd, prog, joined, id, start, status);
    FinalizerHasOverruled(cmd, prog, read, id, start, status);
  }

  /** Such a state is reached: a start that failed leaves an ended run with nobody at work. */
  lemma FailedStartIsReached(cmd: Command, prog: Program, now: int, code: string)
    ensures var w := Run(cmd, prog, INITIAL, [FailStart(now, code)]);
            && w.live == map[] && |w.db.events| == 2 && w.db.events[1].kind.RunFailed?
            && w.db.status.Failed? && w.db.trace == Some(StartFailureTrace(cmd, now, code))
  {
    StartFailureOnNothing(cmd, now, code);
    assert [FailStart(now, code)][..0] == [];
    ReachedIsKept(cmd, prog, [FailStart(now, code)]);
  }

  lemma EventIdInjectiveFor(cmd: Command, a: Event, b: Event)
    requires a.id == EventId(cmd.run, 1, a.kind, a.node) && b.id == EventId(cmd.run, 2, b.kind, b.node)
    ensures a.id != b.id
  {
    if a.id == b.id { EventIdInjective(cmd.run, 1, a.kind, a.node, cmd.run, 2, b.kind, b.node); }
  }
}
