/** Who gets a webhook delivery, and who does not: over every interleaving, exactly the open subscriptions to the event. */
module RunOutbox {
  import opened Options
  import opened Json
  import opened RunEvents
  import opened RunDatabase
  import opened Kernel
  import opened RunAttempts
  import opened RunProtocol

  /** The delivery is for a subscription that is open in `db` and asked for events of its type. */
  ghost predicate Wanted(db: Database, d: Delivery) {
    && d.subscription < |db.subscriptions| && !db.subscriptions[d.subscription].revoked
    && d.kind in db.subscriptions[d.subscription].kinds
  }

  /** What a step adds to the outbox is wanted as the rows were before it. */
  ghost predicate AddsWanted(db: Database, after: Database) {
    db.deliveries <= after.deliveries
    && forall i | |db.deliveries| <= i < |after.deliveries| :: Wanted(db, after.deliveries[i])
  }

  lemma {:induction false} EnqueuedAreWanted(db: Database, n: nat, run: Uuid, t: Trace, terminal: Event)
    requires n <= |db.subscriptions|
    ensures AddsWanted(db, db.(deliveries := EnqueueFor(db.subscriptions, n, db.deliveries, run, t, terminal)))
  {
    if n > 0 { EnqueuedAreWanted(db, n - 1, run, t, terminal); }
  }

  lemma FinalizeAddsWanted(db: Database, run: Uuid, t: Trace)
    ensures AddsWanted(db, Settle(db, FinalizeRun(db, run, t)))
    ensures Settle(db, FinalizeRun(db, run, t)).subscriptions == db.subscriptions
  {
    if FinalizeRun(db, run, t).Commit? {
      var mid := FinalizeTrace(db, t).db;
      EnqueuedAreWanted(mid, |mid.subscriptions|, run, t, TerminalEvent(t.events).value);
    }
  }

  lemma StartFailureAddsWanted(cmd: Command, db: Database, now: int, code: string)
    ensures AddsWanted(db, Settle(db, StartFailure(cmd, db, now, code)))
    ensures Settle(db, StartFailure(cmd, db, now, code)).subscriptions == db.subscriptions
  {
    if StartFailure(cmd, db, now, code).Commit? {
      var one := AppendEvent(db, StartFailureStarted(cmd, now)).db;
      var two := AppendEvent(one, StartFailureEnd(cmd, now, code)).db;
      FinalizeAddsWanted(two, cmd.run, StartFailureTrace(cmd, now, code));
    }
  }

  lemma PerformAddsWanted(cmd: Command, prog: Program, db: Database, a: Attempt, computed: Option<Json>)
    ensures var after := Perform(cmd, prog, db, a, computed).db;
            && AddsWanted(db, after) && after.subscriptions == db.subscriptions
            && (!NextAction(cmd, prog, a).Save? ==> after.deliveries == db.deliveries)
  {
    if NextAction(cmd, prog, a).Save? { FinalizeAddsWanted(db, cmd.run, NextAction(cmd, prog, a).trace); }
  }

  /** Subscriptions are added and revoked, but what a subscription asks for stays. */
  ghost predicate KindsStay(db: Database, after: Database) {
    |db.subscriptions| <= |after.subscriptions|
    && forall s | 0 <= s < |db.subscriptions| :: after.subscriptions[s].kinds == db.subscriptions[s].kinds
  }

  lemma StepAddsWanted(cmd: Command, prog: Program, w: World, move: Move)
    ensures var after := Do(cmd, prog, w, move).db; AddsWanted(w.db, after) && KindsStay(w.db, after)
  {
    if move.Advance? && move.id in w.live {
      PerformAddsWanted(cmd, prog, w.db, w.live[move.id], move.computed);
    } else if move.FailStart? {
      StartFailureAddsWanted(cmd, w.db, move.now, move.code);
    }
  }

  /** Every delivery is of a type its subscription asked for. */
  ghost predicate AskedFor(db: Database) {
    forall i | 0 <= i < |db.deliveries| ::
      && db.deliveries[i].subscription < |db.subscriptions|
      && db.deliveries[i].kind in db.subscriptions[db.deliveries[i].subscription].kinds
  }

  lemma AskedForStays(db: Database, after: Database)
    requires AddsWanted(db, after) && KindsStay(db, after)
    requires AskedFor(db)
    ensures AskedFor(after)
  {
    forall i | 0 <= i < |after.deliveries|
      ensures after.deliveries[i].subscription < |after.subscriptions|
      ensures after.deliveries[i].kind in after.subscriptions[after.deliveries[i].subscription].kinds
    {
      if i < |db.deliveries| {
        assert after.deliveries[i] == db.deliveries[i];
      } else {
        assert Wanted(db, after.deliveries[i]);
      }
    }
  }

  /** In every reachable state each delivery is of a type its subscription asked for. */
  lemma {:induction false} DeliveriesWereAskedFor(cmd: Command, prog: Program, moves: seq<Move>)
    ensures AskedFor(Run(cmd, prog, INITIAL, moves).db)
    decreases |moves|
  {
    if moves != [] {
      var w := Run(cmd, prog, INITIAL, moves[..|moves| - 1]);
      DeliveriesWereAskedFor(cmd, prog, moves[..|moves| - 1]);
      StepAddsWanted(cmd, prog, w, moves[|moves| - 1]);
      AskedForStays(w.db, Do(cmd, prog, w, moves[|moves| - 1]).db);
    }
  }

  ghost predicate HasDelivery(db: Database, s: nat) { exists i | 0 <= i < |db.deliveries| :: db.deliveries[i].subscription == s }

  /** The subscription got its delivery in the step from `db` to `after`. */
  ghost predicate NewlyServed(db: Database, after: Database, s: nat) {
    exists i | |db.deliveries| <= i < |after.deliveries| :: after.deliveries[i].subscription == s
  }

  /** The step that stores the trace serves exactly the subscriptions that are open, asked for the event that ends the
      trace, and have no delivery yet. */
  lemma FinishingServesExactly(cmd: Command, prog: Program, moves: seq<Move>, move: Move, stored: Trace)
    requires Stores(cmd, prog, Run(cmd, prog, INITIAL, moves), move, stored)
    ensures var db := Run(cmd, prog, INITIAL, moves).db;
            var after := Run(cmd, prog, INITIAL, moves + [move]).db;
            && stored.events != [] && after.subscriptions == db.subscriptions
            && forall s: nat :: NewlyServed(db, after, s) <==>
                 && s < |db.subscriptions| && !db.subscriptions[s].revoked
                 && stored.events[|stored.events| - 1].kind in db.subscriptions[s].kinds && !HasDelivery(db, s)
  {
    var w := Run(cmd, prog, INITIAL, moves);
    assert (moves + [move])[..|moves|] == moves;
    FinishingNotifies(cmd, prog, moves, move, stored);
    ReachedIsKept(cmd, prog, moves + [move]);
    StepAddsWanted(cmd, prog, w, move);
    StoringKeepsSubscriptions(cmd, prog, w, move, stored);
    ServesExactly(cmd, w.db, Run(cmd, prog, INITIAL, moves + [move]).db, stored);
  }

  lemma StoringKeepsSubscriptions(cmd: Command, prog: Program, w: World, move: Move, stored: Trace)
    requires Stores(cmd, prog, w, move, stored)
    ensures Do(cmd, prog, w, move).db.subscriptions == w.db.subscriptions
  {
    if move.Advance? {
      PerformAddsWanted(cmd, prog, w.db, w.live[move.id], move.computed);
    } else {
      StartFailureAddsWanted(cmd, w.db, move.now, move.code);
    }
  }

  lemma ServesExactly(cmd: Command, db: Database, after: Database, stored: Trace)
    requires AddsWanted(db, after) && after.subscriptions == db.subscriptions && OutboxKept(cmd, after)
    requires after.trace == Some(stored) && Notified(after)
    ensures stored.events != []
    ensures forall s: nat :: NewlyServed(db, after, s) <==>
              && s < |db.subscriptions| && !db.subscriptions[s].revoked
              && stored.events[|stored.events| - 1].kind in db.subscriptions[s].kinds && !HasDelivery(db, s)
  {
    forall s: nat | NewlyServed(db, after, s)
      ensures s < |db.subscriptions| && !db.subscriptions[s].revoked && !HasDelivery(db, s)
      ensures stored.events[|stored.events| - 1].kind in db.subscriptions[s].kinds
    {
      var i :| |db.deliveries| <= i < |after.deliveries| && after.deliveries[i].subscription == s;
      assert Wanted(db, after.deliveries[i]) && DeliveryKept(cmd, after, after.deliveries[i]);
      forall j | 0 <= j < |db.deliveries| ensures db.deliveries[j].subscription != s {
        assert after.deliveries[j] == db.deliveries[j];
      }
    }
    assert forall j | 0 <= j < |db.deliveries| :: after.deliveries[j] == db.deliveries[j];
    forall s: nat | s < |db.subscriptions| && !db.subscriptions[s].revoked && !HasDelivery(db, s)
                    && stored.events[|stored.events| - 1].kind in db.subscriptions[s].kinds
      ensures NewlyServed(db, after, s)
    {
      var i :| 0 <= i < |after.deliveries| && after.deliveries[i].subscription == s;
      assert i >= |db.deliveries|;
    }
  }

  /** No other step adds a delivery. */
  lemma OnlyStoringDelivers(cmd: Command, prog: Program, moves: seq<Move>, move: Move)
    ensures var w := Run(cmd, prog, INITIAL, moves);
            Run(cmd, prog, INITIAL, moves + [move]).db.deliveries != w.db.deliveries ==>
              exists stored :: Stores(cmd, prog, w, move, stored)
  {
    var w := Run(cmd, prog, INITIAL, moves);
    assert (moves + [move])[..|moves|] == moves;
    if move.Advance? && move.id in w.live {
      PerformAddsWanted(cmd, prog, w.db, w.live[move.id], move.computed);
      var action := NextAction(cmd, prog, w.live[move.id]);
      if action.Save? && FinalizeRun(w.db, cmd.run, action.trace).Commit? { assert Stores(cmd, prog, w, move, action.trace); }
    } else if move.FailStart? && StartFailure(cmd, w.db, move.now, move.code).Commit? {
      assert Stores(cmd, prog, w, move, StartFailureTrace(cmd, move.now, move.code));
    }
  }
}
