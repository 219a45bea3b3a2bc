/** The retry budget over whole runs of the outbox: when a claim passes it, what becomes of every claim, and how
    the reports that took effect decide a delivery. */
module RetryBudget {
  import opened Dispatcher
  import opened Fencing

  // ----- one row in a poll -----

  lemma StepClaimsRow(w: World, j: nat, now: int, lease: nat, i: nat)
    requires IsDue(w.table.rows, {}, now, j) && i < |w.table.rows|
    ensures var later := ClaimStep(w, j, now, lease);
            var row := w.table.rows[i];
            var revoked := row.subscription in w.table.revoked;
            && |later.table.rows| == |w.table.rows| && later.table.revoked == w.table.revoked
            && later.table.rows[i] == (if i == j then ClaimRow(row, revoked, now, lease) else row)
            && Reclaims(later.tokens, i)
               == Reclaims(w.tokens, i) + (if i == j && !revoked && row.state.Delivering? then 1 else 0)
  {
    var row := w.table.rows[j];
    ClaimsOfExtended(w.tokens, Token(Claim(j, row.attempts + 1, now), row.state.Delivering?), i);
    assert w.tokens + [] == w.tokens;
  }

  /** Among the rows a poll claims one by one, each is claimed once, as it stood before the poll. */
  lemma {:induction false} StepsClaimRow(w: World, ids: seq<nat>, now: int, lease: nat, i: nat)
    requires DueOnce(w.table.rows, ids, now) && i < |w.table.rows|
    ensures var later := ClaimSteps(w, ids, now, lease);
            var row := w.table.rows[i];
            var revoked := row.subscription in w.table.revoked;
            && |later.table.rows| == |w.table.rows| && later.table.revoked == w.table.revoked
            && later.table.rows[i] == (if i in ids then ClaimRow(row, revoked, now, lease) else row)
            && Reclaims(later.tokens, i)
               == Reclaims(w.tokens, i) + (if i in ids && !revoked && row.state.Delivering? then 1 else 0)
    decreases |ids|
  {
    if ids != [] {
      var init, last := ids[..|ids| - 1], ids[|ids| - 1];
      assert forall k | 0 <= k < |init| :: init[k] == ids[k];
      assert ids == init + [last] && last !in init;
      assert IsDue(w.table.rows, {}, now, ids[|ids| - 1]);
      StepsClaimRow(w, init, now, lease, i);
      StepsClaimRow(w, init, now, lease, last);
      StepClaimsRow(ClaimSteps(w, init, now, lease), last, now, lease, i);
    }
  }

  lemma PollClaimsRow(w: World, now: int, limit: nat, locked: set<nat>, lease: nat, i: nat)
    requires i < |w.table.rows|
    ensures var ids := Select(w.table.rows, locked, now, limit);
            var later := ClaimSteps(w, ids, now, lease);
            var row := w.table.rows[i];
            var revoked := row.subscription in w.table.revoked;
            && |later.table.rows| == |w.table.rows| && later.table.revoked == w.table.revoked
            && (i in ids ==> IsDue(w.table.rows, locked, now, i))
            && later.table.rows[i] == (if i in ids then ClaimRow(row, revoked, now, lease) else row)
            && Reclaims(later.tokens, i)
               == Reclaims(w.tokens, i) + (if i in ids && !revoked && row.state.Delivering? then 1 else 0)
  {
    SelectionIsFirst(w.table.rows, locked, now, limit);
    var ids := Select(w.table.rows, locked, now, limit);
    assert forall k | 0 <= k < |ids| :: IsDue(w.table.rows, locked, now, ids[k]);
    StepsClaimRow(w, ids, now, lease, i);
  }

  // ----- passing the budget -----

  /** The move hands out row `i` again after its lease ran out. */
  predicate HandsOutAgain(w: World, move: Move, i: nat) {
    && move.Poll? && i < |w.table.rows| && w.table.rows[i].state.Delivering?
    && w.table.rows[i].subscription !in w.table.revoked
    && i in Select(w.table.rows, move.locked, move.now, move.limit)
  }

  /** A row's attempts pass the budget exactly when a row that is still leased for its last attempt is handed out again:
      a waiting row never passes it, and no other move does. */
  lemma BudgetIsPassedExactly(moves: seq<Move>, move: Move, lease: nat, maxAttempts: nat, i: nat)
    requires maxAttempts >= 1 && i < |Run(INITIAL, moves, lease, maxAttempts).table.rows|
    ensures var w := Run(INITIAL, moves, lease, maxAttempts);
            var later := Run(INITIAL, moves + [move], lease, maxAttempts);
            && i < |later.table.rows|
            && (later.table.rows[i].attempts > maxAttempts <==>
                  w.table.rows[i].attempts > maxAttempts
                  || (w.table.rows[i].attempts == maxAttempts && HandsOutAgain(w, move, i)))
  {
    var w := Run(INITIAL, moves, lease, maxAttempts);
    assert (moves + [move])[..|moves|] == moves;
    BudgetCountsReclaims(moves, lease, maxAttempts, i);
    if move.Poll? { PollClaimsRow(w, move.now, move.limit, move.locked, lease, i); }
  }

  /** The same of a single claim, read off the row before it: it is numbered beyond the budget exactly when
      the row was leased and had used the budget up. */
  lemma ClaimPassesTheBudget(moves: seq<Move>, lease: nat, maxAttempts: nat, now: int, i: nat)
    requires maxAttempts >= 1
    requires var w := Run(INITIAL, moves, lease, maxAttempts);
             IsDue(w.table.rows, {}, now, i) && w.table.rows[i].subscription !in w.table.revoked
    ensures var w := Run(INITIAL, moves, lease, maxAttempts);
            ClaimStep(w, i, now, lease).table.rows[i].attempts > maxAttempts <==>
            w.table.rows[i].state.Delivering? && w.table.rows[i].attempts >= maxAttempts
  {
    BudgetCountsReclaims(moves, lease, maxAttempts, i);
  }

  /** It does happen, with every lease and every budget, and without bound: dispatchers that keep dying
      drive a row to any number of attempts. */
  lemma ReclaimsPassTheBudget(lease: nat, maxAttempts: nat, n: nat)
    ensures exists moves :: var w := Run(INITIAL, moves, lease, maxAttempts); |w.table.rows| == 1 && w.table.rows[0].attempts == n
  {
    var moves := ReclaimedRun(lease, maxAttempts, n);
  }

  lemma {:induction false} ReclaimedRun(lease: nat, maxAttempts: nat, n: nat) returns (moves: seq<Move>)
    ensures var w := Run(INITIAL, moves, lease, maxAttempts);
            && |w.table.rows| == 1 && w.table.revoked == {} && w.table.rows[0].attempts == n
            && w.table.rows[0].state == if n == 0 then Pending else Delivering
  {
    if n == 0 {
      moves := [Enqueue(0, 0)];
      assert moves[..0] == [];
    } else {
      var before := ReclaimedRun(lease, maxAttempts, n - 1);
      var w := Run(INITIAL, before, lease, maxAttempts);
      var poll := Poll(w.table.rows[0].nextAt, 1, {});
      moves := before + [poll];
      assert moves[..|before|] == before;
      SelectOnly(w.table.rows, poll.now);
      PollClaimsRow(w, poll.now, 1, {}, lease, 0);
    }
  }

  lemma SelectOnly(rows: seq<Row>, now: int)
    requires |rows| == 1 && IsDue(rows, {}, now, 0)
    ensures Select(rows, {}, now, 1) == [0]
  {
    SelectionIsFirst(rows, {}, now, 1);
    var ids := Select(rows, {}, now, 1);
    if ids != [] { assert IsDue(rows, {}, now, ids[0]); }
  }

  // ----- the reports that take effect -----

  /** A send that was reported: the number of its claim, whether its origin was allowed, and the answer. */
  datatype Sent = Sent(attempt: nat, allowed: bool, response: Response)

  predicate Succeeds(s: Sent) { s.allowed && Successful(s.response) }

  predicate AsksRetry(s: Sent) { s.allowed && !Successful(s.response) && Retryable(s.response) }

  predicate Effective(w: World, move: Move, id: nat) {
    && move.Report? && move.token < |w.tokens| && id < |w.table.rows|
    && w.tokens[move.token].claim.id == id && Current(w.table.rows[id], w.tokens[move.token].claim.attempt)
  }

  /** The reports on row `id` after one more move. */
  function Reported(w: World, reports: seq<Sent>, move: Move, id: nat): seq<Sent> {
    if Effective(w, move, id) then reports + [Sent(w.tokens[move.token].claim.attempt, move.allowed, move.response)] else reports
  }

  /** The reports of a run that took effect on row `id`, in order. */
  function Reports(moves: seq<Move>, lease: nat, maxAttempts: nat, id: nat): seq<Sent> {
    if moves == [] then []
    else
      var init, move := moves[..|moves| - 1], moves[|moves| - 1];
      Reported(Run(INITIAL, init, lease, maxAttempts), Reports(init, lease, maxAttempts, id), move, id)
  }

  /** The last report left the row waiting. */
  predicate KeepsWaiting(reports: seq<Sent>, maxAttempts: nat) {
    reports == [] || (var last := reports[|reports| - 1]; AsksRetry(last) && last.attempt < maxAttempts)
  }

  /** Every report but the last asked for a retry with attempts left, and later ones are of later claims. */
  ghost predicate InTurn(reports: seq<Sent>, maxAttempts: nat) {
    && (forall i | 0 <= i < |reports| - 1 :: AsksRetry(reports[i]) && reports[i].attempt < maxAttempts)
    && (forall i | 0 <= i < |reports| :: i < reports[i].attempt)
    && (forall i | 0 < i < |reports| :: reports[i - 1].attempt < reports[i].attempt)
  }

  /** The row is what its reports made of it: each claim was reported, or taken back after its lease, or is still out. */
  ghost predicate Told(row: Row, reports: seq<Sent>, reclaims: nat, revoked: bool, maxAttempts: nat) {
    && InTurn(reports, maxAttempts)
    && (reports != [] ==> reports[|reports| - 1].attempt <= row.attempts - (if row.state.Delivering? then 1 else 0))
    && (row.state.Delivered? <==> reports != [] && Succeeds(reports[|reports| - 1]))
    && (row.state.Delivered? || row.state.Failed? <==> !KeepsWaiting(reports, maxAttempts))
    && (row.state.Cancelled? ==> revoked)
    && (var out := row.attempts - |reports| - reclaims;
        if row.state.Cancelled? then 0 <= out <= 1 else out == if row.state.Delivering? then 1 else 0)
  }

  lemma InTurnNext(reports: seq<Sent>, s: Sent, maxAttempts: nat)
    requires InTurn(reports, maxAttempts) && KeepsWaiting(reports, maxAttempts)
    requires reports != [] ==> reports[|reports| - 1].attempt < s.attempt
    requires |reports| < s.attempt
    ensures InTurn(reports + [s], maxAttempts)
  {}

  lemma ReportTells(row: Row, reports: seq<Sent>, reclaims: nat, revoked: bool, maxAttempts: nat,
    c: Claim, allowed: bool, response: Response, at: int)
    requires Told(row, reports, reclaims, revoked, maxAttempts) && Current(row, c.attempt) && c.attempt >= 1
    ensures Told(FinishRow(row, c.attempt, Judge(c, allowed, response, maxAttempts), at),
                 reports + [Sent(c.attempt, allowed, response)], reclaims, revoked, maxAttempts)
  {
    ReportRecords(row, c, allowed, response, at, maxAttempts);
    InTurnNext(reports, Sent(c.attempt, allowed, response), maxAttempts);
  }

  lemma PollTells(w: World, reports: seq<Sent>, now: int, limit: nat, locked: set<nat>, lease: nat, maxAttempts: nat, id: nat)
    requires id < |w.table.rows|
    requires var row := w.table.rows[id];
             Told(row, reports, Reclaims(w.tokens, id), row.subscription in w.table.revoked, maxAttempts)
    ensures var later := ClaimSteps(w, Select(w.table.rows, locked, now, limit), now, lease);
            && id < |later.table.rows| && var row := later.table.rows[id];
            Told(row, reports, Reclaims(later.tokens, id), row.subscription in later.table.revoked, maxAttempts)
  {
    PollClaimsRow(w, now, limit, locked, lease, id);
  }

  ghost predicate RowTold(w: World, reports: seq<Sent>, maxAttempts: nat, id: nat) {
    if id < |w.table.rows|
    then
      var row := w.table.rows[id];
      Told(row, reports, Reclaims(w.tokens, id), row.subscription in w.table.revoked, maxAttempts)
    else reports == []
  }

  lemma ReportMoveTells(w: World, reports: seq<Sent>, move: Move, lease: nat, maxAttempts: nat, id: nat)
    requires Kept(w, lease, maxAttempts) && RowTold(w, reports, maxAttempts, id) && move.Report?
    ensures RowTold(Do(w, move, lease, maxAttempts), Reported(w, reports, move, id), maxAttempts, id)
  {
    if move.token < |w.tokens| {
      var c := w.tokens[move.token].claim;
      TokenKept(w, lease, maxAttempts, move.token);
      if Effective(w, move, id) {
        var row := w.table.rows[id];
        ReportTells(row, reports, Reclaims(w.tokens, id), row.subscription in w.table.revoked, maxAttempts,
          c, move.allowed, move.response, move.at);
      }
    }
  }

  lemma StepTells(w: World, reports: seq<Sent>, move: Move, lease: nat, maxAttempts: nat, id: nat)
    requires Kept(w, lease, maxAttempts) && maxAttempts >= 1 && RowTold(w, reports, maxAttempts, id)
    ensures RowTold(Do(w, move, lease, maxAttempts), Reported(w, reports, move, id), maxAttempts, id)
  {
    if move.Enqueue? {
      NoClaimsYet(w.tokens, |w.table.rows|);
    } else if move.Poll? {
      if id < |w.table.rows| {
        PollTells(w, reports, move.now, move.limit, move.locked, lease, maxAttempts, id);
      } else {
        PollIsClaimDue(w, move.now, move.limit, move.locked, lease, maxAttempts);
      }
    } else if move.Report? {
      ReportMoveTells(w, reports, move, lease, maxAttempts, id);
    }
  }

  lemma {:induction false} RunIsTold(moves: seq<Move>, lease: nat, maxAttempts: nat, id: nat)
    requires maxAttempts >= 1
    ensures RowTold(Run(INITIAL, moves, lease, maxAttempts), Reports(moves, lease, maxAttempts, id), maxAttempts, id)
    decreases |moves|
  {
    if moves != [] {
      var init := moves[..|moves| - 1];
      RunIsTold(init, lease, maxAttempts, id);
      RunKeeps(INITIAL, init, lease, maxAttempts);
      StepTells(Run(INITIAL, init, lease, maxAttempts), Reports(init, lease, maxAttempts, id), moves[|moves| - 1],
        lease, maxAttempts, id);
    }
  }

  /** Every claim of a row is accounted for: it was reported with effect, or was taken over after its lease ran out, or is
      the one still out. */
  lemma ClaimsAreAccounted(moves: seq<Move>, lease: nat, maxAttempts: nat, id: nat)
    requires maxAttempts >= 1 && id < |Run(INITIAL, moves, lease, maxAttempts).table.rows|
    requires !Run(INITIAL, moves, lease, maxAttempts).table.rows[id].state.Cancelled?
    ensures var w := Run(INITIAL, moves, lease, maxAttempts);
            var row := w.table.rows[id];
            row.attempts == |Reports(moves, lease, maxAttempts, id)| + Reclaims(w.tokens, id)
                            + (if row.state.Delivering? then 1 else 0)
  {
    RunIsTold(moves, lease, maxAttempts, id);
  }

  /** Delivered on a success, given up on a refusal or when the budget was used up, open while a retry was asked for. */
  ghost predicate Decided(state: RowState, reports: seq<Sent>, maxAttempts: nat) {
    && (reports == [] ==> !state.Delivered? && !state.Failed?)
    && (reports != [] ==>
          var last := reports[|reports| - 1];
          && (state.Delivered? <==> Succeeds(last))
          && (state.Failed? <==> !Succeeds(last) && (!AsksRetry(last) || last.attempt >= maxAttempts)))
  }

  lemma ToldDecides(row: Row, reports: seq<Sent>, reclaims: nat, revoked: bool, maxAttempts: nat)
    requires Told(row, reports, reclaims, revoked, maxAttempts)
    ensures Decided(row.state, reports, maxAttempts) && InTurn(reports, maxAttempts)
  {}

  /** A delivery is delivered exactly when the last report that took effect is a success, given up exactly when that report
      is a refusal or its claim used the budget up, and every report before it asked for a retry with attempts left. */
  lemma ReportsDecide(moves: seq<Move>, lease: nat, maxAttempts: nat, id: nat)
    requires maxAttempts >= 1 && id < |Run(INITIAL, moves, lease, maxAttempts).table.rows|
    ensures var reports := Reports(moves, lease, maxAttempts, id);
            && Decided(Run(INITIAL, moves, lease, maxAttempts).table.rows[id].state, reports, maxAttempts)
            && InTurn(reports, maxAttempts)
  {
    RunIsTold(moves, lease, maxAttempts, id);
    var w := Run(INITIAL, moves, lease, maxAttempts);
    var row := w.table.rows[id];
    ToldDecides(row, Reports(moves, lease, maxAttempts, id), Reclaims(w.tokens, id),
      row.subscription in w.table.revoked, maxAttempts);
  }

  /** While no lease of it runs out, a delivery is settled within maxAttempts sends: once that many were reported, or once
      the claim with the last number was, it is final, at the latest with that attempt. */
  lemma SettledWithinBudget(moves: seq<Move>, lease: nat, maxAttempts: nat, id: nat)
    requires maxAttempts >= 1 && id < |Run(INITIAL, moves, lease, maxAttempts).table.rows|
    requires Reclaims(Run(INITIAL, moves, lease, maxAttempts).tokens, id) == 0
    ensures var w := Run(INITIAL, moves, lease, maxAttempts);
            var row := w.table.rows[id];
            var reports := Reports(moves, lease, maxAttempts, id);
            && |reports| <= row.attempts <= maxAttempts
            && (|reports| == maxAttempts ==> IsFinal(row.state))
            && (forall k | 0 <= k < |w.finished| && w.finished[k].claim.id == id && w.finished[k].claim.attempt == maxAttempts ::
                  row.attempts == maxAttempts && IsFinal(row.state))
  {
    RunIsTold(moves, lease, maxAttempts, id);
    BudgetCountsReclaims(moves, lease, maxAttempts, id);
    RunKeeps(INITIAL, moves, lease, maxAttempts);
    var w := Run(INITIAL, moves, lease, maxAttempts);
    forall k | 0 <= k < |w.finished| && w.finished[k].claim.id == id && w.finished[k].claim.attempt == maxAttempts
      ensures w.table.rows[id].attempts == maxAttempts && IsFinal(w.table.rows[id].state)
    {
      assert Over(w.table.rows, w.finished[k].claim);
    }
  }
}
