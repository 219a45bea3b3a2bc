/** Any number of dispatchers over one outbox: polls, late and repeated reports, crashes (a claim nobody reports),
    clocks that disagree, and revocations, in any order. */
module Fencing {
  import opened Options
  import opened Dispatcher

  /** A claim that was handed out; `reclaim` when its row was still leased to somebody else. */
  datatype Token = Token(claim: Claim, reclaim: bool)

  /** The table with every claim ever handed out and every report that took effect. */
  datatype World = World(table: Table, tokens: seq<Token>, finished: seq<Token>)

  datatype Move =
    | Enqueue(subscription: nat, at: int)
    | Poll(now: int, limit: nat, locked: set<nat>)
    | Report(token: nat, allowed: bool, response: Response, at: int)
    | Revoke(subscription: nat)

  const INITIAL := World(Table([], {}), [], [])

  function ClaimStep(w: World, i: nat, now: int, lease: nat): World {
    if !IsDue(w.table.rows, {}, now, i) then w
    else
      var row := w.table.rows[i];
      var revoked := row.subscription in w.table.revoked;
      var claimed := ClaimRow(row, revoked, now, lease);
      World(w.table.(rows := w.table.rows[i := claimed]),
            w.tokens + if revoked then [] else [Token(Claim(i, claimed.attempts, now), row.state.Delivering?)],
            w.finished)
  }

  function ClaimSteps(w: World, ids: seq<nat>, now: int, lease: nat): World {
    if ids == [] then w else ClaimStep(ClaimSteps(w, ids[..|ids| - 1], now, lease), ids[|ids| - 1], now, lease)
  }

  function Do(w: World, move: Move, lease: nat, maxAttempts: nat): World {
    match move
    case Enqueue(s, at) => w.(table := w.table.(rows := w.table.rows + [Row(s, Pending, 0, at, None, None, None)]))
    case Poll(now, limit, locked) => ClaimSteps(w, Select(w.table.rows, locked, now, limit), now, lease)
    case Report(k, allowed, response, at) =>
      if k >= |w.tokens| then w
      else
        var c := w.tokens[k].claim;
        var effective := c.id < |w.table.rows| && Current(w.table.rows[c.id], c.attempt);
        World(Finish(w.table, c.id, c.attempt, Judge(c, allowed, response, maxAttempts), at),
              w.tokens, w.finished + if effective then [w.tokens[k]] else [])
    case Revoke(s) => w.(table := w.table.(revoked := w.table.revoked + {s}))
  }

  function Run(w: World, moves: seq<Move>, lease: nat, maxAttempts: nat): World
    decreases |moves|
  {
    if moves == [] then w
    else Do(Run(w, moves[..|moves| - 1], lease, maxAttempts), moves[|moves| - 1], lease, maxAttempts)
  }

  function Claims(tokens: seq<Token>, id: nat): nat {
    if tokens == [] then 0
    else Claims(tokens[..|tokens| - 1], id) + if tokens[|tokens| - 1].claim.id == id then 1 else 0
  }

  function Reclaims(tokens: seq<Token>, id: nat): nat {
    if tokens == [] then 0
    else
      var last := tokens[|tokens| - 1];
      Reclaims(tokens[..|tokens| - 1], id) + if last.claim.id == id && last.reclaim then 1 else 0
  }

  /** Token k is the claim with number `attempt` of row `id`, and its lease ends at `nextAt`. */
  ghost predicate HoldsLease(tokens: seq<Token>, k: nat, id: nat, attempt: nat, nextAt: int, lease: nat) {
    k < |tokens| && tokens[k].claim.id == id && tokens[k].claim.attempt == attempt
    && nextAt == tokens[k].claim.now + lease * SECOND
  }

  // ----- what every move keeps -----

  /** The n-th claim of a row carries attempt number n. */
  ghost predicate Numbered(tokens: seq<Token>) {
    forall k | 0 <= k < |tokens| :: tokens[k].claim.attempt == Claims(tokens[..k + 1], tokens[k].claim.id)
  }

  ghost predicate Known(tokens: seq<Token>, rows: nat) {
    forall k | 0 <= k < |tokens| :: tokens[k].claim.id < rows
  }

  ghost predicate RowKept(tokens: seq<Token>, row: Row, id: nat, lease: nat, maxAttempts: nat) {
    && row.attempts == Claims(tokens, id)
    && row.attempts <= maxAttempts + Reclaims(tokens, id)
    && (row.state.Pending? ==> row.attempts < maxAttempts)
    && (row.state.Delivering? ==> exists k :: HoldsLease(tokens, k, id, row.attempts, row.nextAt, lease))
  }

  ghost predicate RowsKept(tokens: seq<Token>, rows: seq<Row>, lease: nat, maxAttempts: nat) {
    forall id | 0 <= id < |rows| :: RowKept(tokens, rows[id], id, lease, maxAttempts)
  }

  /** A claim that can no longer change its row. */
  ghost predicate Over(rows: seq<Row>, c: Claim) {
    c.id < |rows| && c.attempt <= rows[c.id].attempts && !Current(rows[c.id], c.attempt)
  }

  predicate SameAttempt(s: Token, t: Token) { s.claim.id == t.claim.id && s.claim.attempt == t.claim.attempt }

  /** Every report that took effect was the only one of its claim. */
  ghost predicate Settled(rows: seq<Row>, finished: seq<Token>) {
    && (forall k | 0 <= k < |finished| :: Over(rows, finished[k].claim))
    && (forall i, j | 0 <= i < j < |finished| :: !SameAttempt(finished[i], finished[j]))
  }

  ghost predicate Kept(w: World, lease: nat, maxAttempts: nat) {
    && Numbered(w.tokens) && Known(w.tokens, |w.table.rows|)
    && RowsKept(w.tokens, w.table.rows, lease, maxAttempts)
    && Settled(w.table.rows, w.finished)
  }

  /** A row's later states: its attempt number never falls, and a final row never changes again. */
  ghost predicate Follows(row: Row, later: Row) {
    && row.subscription == later.subscription && row.attempts <= later.attempts
    && (IsFinal(row.state) ==> later == row)
  }

  ghost predicate RowsFollow(rows: seq<Row>, later: seq<Row>) {
    |rows| <= |later| && forall id | 0 <= id < |rows| :: Follows(rows[id], later[id])
  }

  ghost predicate Continues(w: World, later: World) {
    w.tokens <= later.tokens && w.finished <= later.finished && RowsFollow(w.table.rows, later.table.rows)
  }

  lemma ClaimsOfExtended(tokens: seq<Token>, t: Token, id: nat)
    ensures Claims(tokens + [t], id) == Claims(tokens, id) + if t.claim.id == id then 1 else 0
    ensures Reclaims(tokens + [t], id) == Reclaims(tokens, id) + if t.claim.id == id && t.reclaim then 1 else 0
  {
    assert (tokens + [t])[..|tokens|] == tokens;
  }

  lemma {:induction false} ClaimsMonotone(tokens: seq<Token>, i: nat, j: nat, id: nat)
    requires i <= j <= |tokens|
    ensures Claims(tokens[..i], id) <= Claims(tokens[..j], id)
    decreases j
  {
    if i < j {
      assert tokens[..j][..j - 1] == tokens[..j - 1];
      ClaimsMonotone(tokens, i, j - 1, id);
    }
  }

  /** Between two claims of the same row the number of its claims has grown. */
  lemma ClaimsGrow(tokens: seq<Token>, i: nat, j: nat)
    requires i < j < |tokens| && tokens[i].claim.id == tokens[j].claim.id
    ensures Claims(tokens[..i + 1], tokens[j].claim.id) < Claims(tokens[..j + 1], tokens[j].claim.id)
  {
    ClaimsMonotone(tokens, i + 1, j, tokens[j].claim.id);
    assert tokens[..j + 1][..j] == tokens[..j];
  }

  lemma TokenKept(w: World, lease: nat, maxAttempts: nat, k: nat)
    requires Kept(w, lease, maxAttempts) && k < |w.tokens|
    ensures w.tokens[k].claim.id < |w.table.rows|
    ensures 1 <= w.tokens[k].claim.attempt <= w.table.rows[w.tokens[k].claim.id].attempts
  {
    var id := w.tokens[k].claim.id;
    assert RowKept(w.tokens, w.table.rows[id], id, lease, maxAttempts);
    ClaimsMonotone(w.tokens, k + 1, |w.tokens|, id);
    assert w.tokens[..|w.tokens|] == w.tokens;
    assert w.tokens[..k + 1][..k] == w.tokens[..k];
  }

  /** A change of one row that gives up its lease, or raises its number, leaves every settled claim over. */
  lemma SettledStays(rows: seq<Row>, finished: seq<Token>, id: nat, row: Row)
    requires Settled(rows, finished) && id < |rows|
    requires rows[id].attempts < row.attempts || (rows[id].attempts == row.attempts && !row.state.Delivering?)
    ensures Settled(rows[id := row], finished)
  {
    forall k | 0 <= k < |finished| ensures Over(rows[id := row], finished[k].claim) {
      assert Over(rows, finished[k].claim);
    }
  }

  /** Changing one row to a follower that is not leased keeps the rest. */
  lemma ChangedRowKeeps(w: World, id: nat, row: Row, lease: nat, maxAttempts: nat)
    requires Kept(w, lease, maxAttempts) && id < |w.table.rows|
    requires Follows(w.table.rows[id], row) && row.attempts == w.table.rows[id].attempts
    requires !row.state.Delivering? && (row.state.Pending? ==> row.attempts < maxAttempts)
    ensures var later := w.(table := w.table.(rows := w.table.rows[id := row]));
            Kept(later, lease, maxAttempts) && Continues(w, later)
  {
    var rows := w.table.rows[id := row];
    forall i | 0 <= i < |rows| ensures RowKept(w.tokens, rows[i], i, lease, maxAttempts) {
      assert RowKept(w.tokens, w.table.rows[i], i, lease, maxAttempts);
    }
    SettledStays(w.table.rows, w.finished, id, row);
  }

  lemma ClaimStepKeeps(w: World, i: nat, now: int, lease: nat, maxAttempts: nat)
    requires Kept(w, lease, maxAttempts) && maxAttempts >= 1
    ensures Kept(ClaimStep(w, i, now, lease), lease, maxAttempts) && Continues(w, ClaimStep(w, i, now, lease))
  {
    if IsDue(w.table.rows, {}, now, i) {
      if w.table.rows[i].subscription in w.table.revoked {
        ChangedRowKeeps(w, i, ClaimRow(w.table.rows[i], true, now, lease), lease, maxAttempts);
        assert w.tokens + [] == w.tokens;
      } else {
        HandOutKeeps(w, i, now, lease, maxAttempts);
      }
    }
  }

  lemma HandOutKeeps(w: World, i: nat, now: int, lease: nat, maxAttempts: nat)
    requires Kept(w, lease, maxAttempts) && maxAttempts >= 1
    requires IsDue(w.table.rows, {}, now, i) && w.table.rows[i].subscription !in w.table.revoked
    ensures Kept(ClaimStep(w, i, now, lease), lease, maxAttempts) && Continues(w, ClaimStep(w, i, now, lease))
  {
    var row := w.table.rows[i];
    var t := Token(Claim(i, row.attempts + 1, now), row.state.Delivering?);
    assert RowKept(w.tokens, row, i, lease, maxAttempts);
    NumberedNext(w.tokens, t);
    RowsKeptNext(w.tokens, w.table.rows, t, now, lease, maxAttempts);
    SettledStays(w.table.rows, w.finished, i, ClaimRow(row, false, now, lease));
    ClaimedFollows(w.table.rows, i, now, lease);
    assert ClaimStep(w, i, now, lease)
        == World(w.table.(rows := w.table.rows[i := ClaimRow(row, false, now, lease)]), w.tokens + [t], w.finished);
  }

  lemma ClaimedFollows(rows: seq<Row>, i: nat, now: int, lease: nat)
    requires i < |rows| && !IsFinal(rows[i].state)
    ensures RowsFollow(rows, rows[i := ClaimRow(rows[i], false, now, lease)])
  {}

  lemma NumberedNext(tokens: seq<Token>, t: Token)
    requires Numbered(tokens) && t.claim.attempt == Claims(tokens, t.claim.id) + 1
    ensures Numbered(tokens + [t])
  {
    var all := tokens + [t];
    forall k | 0 <= k < |all| ensures all[k].claim.attempt == Claims(all[..k + 1], all[k].claim.id) {
      if k < |tokens| {
        assert all[..k + 1] == tokens[..k + 1];
      } else {
        assert all[..k + 1] == all;
        ClaimsOfExtended(tokens, t, t.claim.id);
      }
    }
  }

  lemma RowsKeptNext(tokens: seq<Token>, rows: seq<Row>, t: Token, now: int, lease: nat, maxAttempts: nat)
    requires RowsKept(tokens, rows, lease, maxAttempts) && t.claim.id < |rows|
    requires var row := rows[t.claim.id];
             t == Token(Claim(t.claim.id, row.attempts + 1, now), row.state.Delivering?) && !IsFinal(row.state)
    ensures RowsKept(tokens + [t], rows[t.claim.id := ClaimRow(rows[t.claim.id], false, now, lease)], lease, maxAttempts)
  {
    var all, later := tokens + [t], rows[t.claim.id := ClaimRow(rows[t.claim.id], false, now, lease)];
    forall id | 0 <= id < |rows| ensures RowKept(all, later[id], id, lease, maxAttempts) {
      assert RowKept(tokens, rows[id], id, lease, maxAttempts);
      ClaimsOfExtended(tokens, t, id);
      if id == t.claim.id {
        assert HoldsLease(all, |tokens|, id, later[id].attempts, later[id].nextAt, lease);
      } else if rows[id].state.Delivering? {
        var k :| HoldsLease(tokens, k, id, rows[id].attempts, rows[id].nextAt, lease);
        assert HoldsLease(all, k, id, rows[id].attempts, rows[id].nextAt, lease);
      }
    }
  }

  lemma {:induction false} ClaimStepsKeep(w: World, ids: seq<nat>, now: int, lease: nat, maxAttempts: nat)
    requires Kept(w, lease, maxAttempts) && maxAttempts >= 1
    ensures Kept(ClaimSteps(w, ids, now, lease), lease, maxAttempts) && Continues(w, ClaimSteps(w, ids, now, lease))
    decreases |ids|
  {
    if ids != [] {
      var mid := ClaimSteps(w, ids[..|ids| - 1], now, lease);
      ClaimStepsKeep(w, ids[..|ids| - 1], now, lease, maxAttempts);
      ClaimStepKeeps(mid, ids[|ids| - 1], now, lease, maxAttempts);
      ContinuesTransitive(w, mid, ClaimSteps(w, ids, now, lease));
    }
  }

  lemma ContinuesTransitive(a: World, b: World, c: World)
    requires Continues(a, b) && Continues(b, c)
    ensures Continues(a, c)
  {
    forall id | 0 <= id < |a.table.rows| ensures Follows(a.table.rows[id], c.table.rows[id]) {
      assert Follows(a.table.rows[id], b.table.rows[id]) && Follows(b.table.rows[id], c.table.rows[id]);
    }
  }

  lemma JudgeNeverLeases(c: Claim, allowed: bool, response: Response, maxAttempts: nat)
    ensures !Judge(c, allowed, response, maxAttempts).state.Delivering?
    ensures Judge(c, allowed, response, maxAttempts).state.Pending? ==> c.attempt < maxAttempts
  {}

  lemma ReportKeeps(w: World, k: nat, allowed: bool, response: Response, at: int, lease: nat, maxAttempts: nat)
    requires Kept(w, lease, maxAttempts)
    ensures var later := Do(w, Report(k, allowed, response, at), lease, maxAttempts);
            Kept(later, lease, maxAttempts) && Continues(w, later)
  {
    if k < |w.tokens| {
      var c := w.tokens[k].claim;
      TokenKept(w, lease, maxAttempts, k);
      var row := w.table.rows[c.id];
      if Current(row, c.attempt) {
        JudgeNeverLeases(c, allowed, response, maxAttempts);
        var changed := FinishRow(row, c.attempt, Judge(c, allowed, response, maxAttempts), at);
        ChangedRowKeeps(w, c.id, changed, lease, maxAttempts);
        SettledNext(w.table.rows, w.finished, w.tokens[k], changed);
      } else {
        assert w.table.rows[c.id := row] == w.table.rows;
      }
    }
  }

  lemma SettledNext(rows: seq<Row>, finished: seq<Token>, t: Token, row: Row)
    requires Settled(rows, finished) && t.claim.id < |rows| && Current(rows[t.claim.id], t.claim.attempt)
    requires row.attempts == t.claim.attempt && !row.state.Delivering?
    ensures Settled(rows[t.claim.id := row], finished + [t])
  {
    SettledStays(rows, finished, t.claim.id, row);
    forall i | 0 <= i < |finished| ensures !SameAttempt(finished[i], t) {
      assert Over(rows, finished[i].claim);
    }
    assert Over(rows[t.claim.id := row], t.claim);
  }

  lemma EnqueueKeeps(w: World, s: nat, at: int, lease: nat, maxAttempts: nat)
    requires Kept(w, lease, maxAttempts) && maxAttempts >= 1
    ensures var later := Do(w, Enqueue(s, at), lease, maxAttempts); Kept(later, lease, maxAttempts) && Continues(w, later)
  {
    var later := Do(w, Enqueue(s, at), lease, maxAttempts);
    NoClaimsYet(w.tokens, |w.table.rows|);
    forall i | 0 <= i < |later.table.rows| ensures RowKept(w.tokens, later.table.rows[i], i, lease, maxAttempts) {
      if i < |w.table.rows| { assert RowKept(w.tokens, w.table.rows[i], i, lease, maxAttempts); }
    }
    forall k | 0 <= k < |w.finished| ensures Over(later.table.rows, w.finished[k].claim) {
      assert Over(w.table.rows, w.finished[k].claim);
    }
  }

  lemma {:induction false} NoClaimsYet(tokens: seq<Token>, id: nat)
    requires Known(tokens, id)
    ensures Claims(tokens, id) == 0 && Reclaims(tokens, id) == 0
  {
    if tokens != [] { NoClaimsYet(tokens[..|tokens| - 1], id); }
  }

  // ----- a poll is the store's claim operation -----

  function ClaimsOf(tokens: seq<Token>): (r: seq<Claim>)
    ensures |r| == |tokens| && forall k | 0 <= k < |r| :: r[k] == tokens[k].claim
  {
    if tokens == [] then [] else ClaimsOf(tokens[..|tokens| - 1]) + [tokens[|tokens| - 1].claim]
  }

  ghost predicate DueOnce(rows: seq<Row>, ids: seq<nat>, now: int) {
    && (forall k | 0 <= k < |ids| :: IsDue(rows, {}, now, ids[k]))
    && forall a, b | 0 <= a < b < |ids| :: ids[a] != ids[b]
  }

  /** Claiming due rows one by one leaves the others as they were, and is what the store does. */
  lemma {:induction false} StepsAreClaimAll(w: World, ids: seq<nat>, now: int, lease: nat)
    requires DueOnce(w.table.rows, ids, now)
    ensures var later := ClaimSteps(w, ids, now, lease);
            && later.table == ClaimAll(w.table, ids, now, lease).0
            && ClaimsOf(later.tokens) == ClaimsOf(w.tokens) + ClaimAll(w.table, ids, now, lease).1
            && later.finished == w.finished
            && forall i | 0 <= i < |w.table.rows| && i !in ids :: later.table.rows[i] == w.table.rows[i]
    decreases |ids|
  {
    if ids != [] {
      var init, last := ids[..|ids| - 1], ids[|ids| - 1];
      assert forall k | 0 <= k < |init| :: init[k] == ids[k];
      StepsAreClaimAll(w, init, now, lease);
      assert last !in init;
      assert IsDue(w.table.rows, {}, now, ids[|ids| - 1]);
      assert ids == init + [last];
      StepIsClaimOne(ClaimSteps(w, init, now, lease), last, now, lease, ClaimsOf(w.tokens),
        ClaimAll(w.table, init, now, lease).1);
    }
  }

  lemma StepIsClaimOne(w: World, i: nat, now: int, lease: nat, before: seq<Claim>, claims: seq<Claim>)
    requires IsDue(w.table.rows, {}, now, i) && ClaimsOf(w.tokens) == before + claims
    ensures var later := ClaimStep(w, i, now, lease);
            && later.table == ClaimOne(w.table, claims, i, now, lease).0
            && ClaimsOf(later.tokens) == before + ClaimOne(w.table, claims, i, now, lease).1
            && later.finished == w.finished
            && forall j | 0 <= j < |w.table.rows| && j != i :: later.table.rows[j] == w.table.rows[j]
  {}

  /** A poll claims what the store's claim operation claims, in the same order. */
  lemma PollIsClaimDue(w: World, now: int, limit: nat, locked: set<nat>, lease: nat, maxAttempts: nat)
    ensures var later := Do(w, Poll(now, limit, locked), lease, maxAttempts);
            var (t, claims) := ClaimDue(w.table, locked, now, limit, lease);
            later.table == t && ClaimsOf(later.tokens) == ClaimsOf(w.tokens) + claims && later.finished == w.finished
  {
    SelectionIsFirst(w.table.rows, locked, now, limit);
    var ids := Select(w.table.rows, locked, now, limit);
    assert forall k | 0 <= k < |ids| :: IsDue(w.table.rows, locked, now, ids[k]);
    StepsAreClaimAll(w, ids, now, lease);
  }

  lemma StepKeeps(w: World, move: Move, lease: nat, maxAttempts: nat)
    requires Kept(w, lease, maxAttempts) && maxAttempts >= 1
    ensures Kept(Do(w, move, lease, maxAttempts), lease, maxAttempts) && Continues(w, Do(w, move, lease, maxAttempts))
  {
    match move
    case Enqueue(s, at) => EnqueueKeeps(w, s, at, lease, maxAttempts);
    case Poll(now, limit, locked) => ClaimStepsKeep(w, Select(w.table.rows, locked, now, limit), now, lease, maxAttempts);
    case Report(k, allowed, response, at) => ReportKeeps(w, k, allowed, response, at, lease, maxAttempts);
    case Revoke(s) =>
  }

  lemma {:induction false} RunKeeps(w: World, moves: seq<Move>, lease: nat, maxAttempts: nat)
    requires Kept(w, lease, maxAttempts) && maxAttempts >= 1
    ensures Kept(Run(w, moves, lease, maxAttempts), lease, maxAttempts) && Continues(w, Run(w, moves, lease, maxAttempts))
    decreases |moves|
  {
    if moves != [] {
      var init := moves[..|moves| - 1];
      var mid := Run(w, init, lease, maxAttempts);
      RunKeeps(w, init, lease, maxAttempts);
      StepKeeps(mid, moves[|moves| - 1], lease, maxAttempts);
      ContinuesTransitive(w, mid, Run(w, moves, lease, maxAttempts));
    }
  }

  lemma {:induction false} RunConcat(w: World, x: seq<Move>, y: seq<Move>, lease: nat, maxAttempts: nat)
    ensures Run(w, x + y, lease, maxAttempts) == Run(Run(w, x, lease, maxAttempts), y, lease, maxAttempts)
    decreases |y|
  {
    if y == [] {
      assert x + y == x;
    } else {
      assert (x + y)[..|x + y| - 1] == x + y[..|y| - 1];
      RunConcat(w, x, y[..|y| - 1], lease, maxAttempts);
    }
  }

  // ----- fencing -----

  /** No attempt of a delivery is ever claimed twice; later claims of the same delivery carry higher numbers. */
  lemma AttemptsAreClaimedOnce(moves: seq<Move>, lease: nat, maxAttempts: nat, i: nat, j: nat)
    requires maxAttempts >= 1
    requires i < j < |Run(INITIAL, moves, lease, maxAttempts).tokens|
    ensures var w := Run(INITIAL, moves, lease, maxAttempts);
            w.tokens[i].claim.id == w.tokens[j].claim.id ==> w.tokens[i].claim.attempt < w.tokens[j].claim.attempt
  {
    RunKeeps(INITIAL, moves, lease, maxAttempts);
    var w := Run(INITIAL, moves, lease, maxAttempts);
    if w.tokens[i].claim.id == w.tokens[j].claim.id { ClaimsGrow(w.tokens, i, j); }
  }

  /** Token k is the last claim of row `id`. */
  ghost predicate LastClaim(tokens: seq<Token>, k: nat, id: nat) {
    k < |tokens| && tokens[k].claim.id == id && forall j | k < j < |tokens| :: tokens[j].claim.id != id
  }

  /** A token is current exactly when it is the last claim of its row and the row is still leased. */
  lemma CurrentIsLastClaim(w: World, lease: nat, maxAttempts: nat, k: nat)
    requires Kept(w, lease, maxAttempts) && k < |w.tokens|
    ensures var c := w.tokens[k].claim;
            && c.id < |w.table.rows|
            && (Current(w.table.rows[c.id], c.attempt) <==>
                  w.table.rows[c.id].state.Delivering? && LastClaim(w.tokens, k, c.id))
  {
    TokenKept(w, lease, maxAttempts, k);
    var c := w.tokens[k].claim;
    var row := w.table.rows[c.id];
    if Current(row, c.attempt) {
      CurrentIsLast(w, lease, maxAttempts, k);
    } else if row.state.Delivering? && LastClaim(w.tokens, k, c.id) {
      assert RowKept(w.tokens, row, c.id, lease, maxAttempts);
      var j: nat :| HoldsLease(w.tokens, j, c.id, row.attempts, row.nextAt, lease);
      if j < k { ClaimsGrow(w.tokens, j, k); }
    }
  }

  lemma CurrentIsLast(w: World, lease: nat, maxAttempts: nat, k: nat)
    requires Kept(w, lease, maxAttempts) && k < |w.tokens| && w.tokens[k].claim.id < |w.table.rows|
    requires Current(w.table.rows[w.tokens[k].claim.id], w.tokens[k].claim.attempt)
    ensures LastClaim(w.tokens, k, w.tokens[k].claim.id)
  {
    forall j | k < j < |w.tokens| ensures w.tokens[j].claim.id != w.tokens[k].claim.id {
      if w.tokens[j].claim.id == w.tokens[k].claim.id {
        ClaimsGrow(w.tokens, k, j);
        TokenKept(w, lease, maxAttempts, j);
      }
    }
  }

  /** A report takes effect exactly when its claim is the newest of a row that is still leased, and then it ends that lease
      and changes that row only; every other report changes nothing. */
  lemma StaleReportsChangeNothing(moves: seq<Move>, lease: nat, maxAttempts: nat, k: nat,
    allowed: bool, response: Response, at: int)
    requires maxAttempts >= 1 && k < |Run(INITIAL, moves, lease, maxAttempts).tokens|
    ensures var w := Run(INITIAL, moves, lease, maxAttempts);
            var later := Do(w, Report(k, allowed, response, at), lease, maxAttempts);
            var id := w.tokens[k].claim.id;
            && id < |w.table.rows| && |later.table.rows| == |w.table.rows|
            && (later != w <==> w.table.rows[id].state.Delivering? && LastClaim(w.tokens, k, id))
            && (later != w ==> !later.table.rows[id].state.Delivering? && later.finished == w.finished + [w.tokens[k]])
            && (forall i | 0 <= i < |w.table.rows| && i != id :: later.table.rows[i] == w.table.rows[i])
            && later.tokens == w.tokens && later.table.revoked == w.table.revoked
  {
    RunKeeps(INITIAL, moves, lease, maxAttempts);
    var w := Run(INITIAL, moves, lease, maxAttempts);
    CurrentIsLastClaim(w, lease, maxAttempts, k);
    ReportChanges(w, k, allowed, response, at, lease, maxAttempts);
  }

  lemma ReportChanges(w: World, k: nat, allowed: bool, response: Response, at: int, lease: nat, maxAttempts: nat)
    requires k < |w.tokens| && w.tokens[k].claim.id < |w.table.rows|
    ensures var c := w.tokens[k].claim;
            var later := Do(w, Report(k, allowed, response, at), lease, maxAttempts);
            && |later.table.rows| == |w.table.rows|
            && (later != w <==> Current(w.table.rows[c.id], c.attempt))
            && (later != w ==> !later.table.rows[c.id].state.Delivering? && later.finished == w.finished + [w.tokens[k]])
            && (forall i | 0 <= i < |w.table.rows| && i != c.id :: later.table.rows[i] == w.table.rows[i])
            && later.tokens == w.tokens && later.table.revoked == w.table.revoked
  {
    var c := w.tokens[k].claim;
    JudgeNeverLeases(c, allowed, response, maxAttempts);
    if !Current(w.table.rows[c.id], c.attempt) {
      assert w.table.rows[c.id := w.table.rows[c.id]] == w.table.rows;
      assert w.finished + [] == w.finished;
    }
  }

  /** Over a whole run at most one report of each claim takes effect. */
  lemma ClaimsFinishOnce(moves: seq<Move>, lease: nat, maxAttempts: nat, i: nat, j: nat)
    requires maxAttempts >= 1
    requires i < j < |Run(INITIAL, moves, lease, maxAttempts).finished|
    ensures var w := Run(INITIAL, moves, lease, maxAttempts);
            !SameAttempt(w.finished[i], w.finished[j])
  {
    RunKeeps(INITIAL, moves, lease, maxAttempts);
  }

  /** Attempt counts never fall, and a delivered, failed or cancelled row stays exactly as it is. */
  lemma FinalRowsStay(before: seq<Move>, later: seq<Move>, lease: nat, maxAttempts: nat, id: nat)
    requires maxAttempts >= 1 && id < |Run(INITIAL, before, lease, maxAttempts).table.rows|
    ensures var w := Run(INITIAL, before, lease, maxAttempts);
            var now := Run(INITIAL, before + later, lease, maxAttempts);
            && id < |now.table.rows|
            && w.table.rows[id].attempts <= now.table.rows[id].attempts
            && (IsFinal(w.table.rows[id].state) ==> now.table.rows[id] == w.table.rows[id])
  {
    RunKeeps(INITIAL, before, lease, maxAttempts);
    RunConcat(INITIAL, before, later, lease, maxAttempts);
    var w := Run(INITIAL, before, lease, maxAttempts);
    RunKeeps(w, later, lease, maxAttempts);
    assert Follows(w.table.rows[id], Run(w, later, lease, maxAttempts).table.rows[id]);
  }

  /** The subscription is revoked, and no claim from number n on is for one of its rows. */
  ghost predicate ShutOff(w: World, s: nat, n: nat) {
    && s in w.table.revoked && n <= |w.tokens|
    && forall k | n <= k < |w.tokens| ::
         w.tokens[k].claim.id < |w.table.rows| && w.table.rows[w.tokens[k].claim.id].subscription != s
  }

  lemma ShutOffStays(w: World, later: World, s: nat, n: nat)
    requires ShutOff(w, s, n) && Continues(w, later) && w.table.revoked <= later.table.revoked
    requires forall k | |w.tokens| <= k < |later.tokens| ::
               && later.tokens[k].claim.id < |w.table.rows|
               && w.table.rows[later.tokens[k].claim.id].subscription !in w.table.revoked
    ensures ShutOff(later, s, n)
  {
    forall k | n <= k < |later.tokens|
      ensures later.tokens[k].claim.id < |later.table.rows|
      ensures later.table.rows[later.tokens[k].claim.id].subscription != s
    {
      if k < |w.tokens| { assert later.tokens[k] == w.tokens[k]; }
      assert Follows(w.table.rows[later.tokens[k].claim.id], later.table.rows[later.tokens[k].claim.id]);
    }
  }

  lemma {:induction false} ClaimStepsShutOff(
    w: World, ids: seq<nat>, now: int, lease: nat, maxAttempts: nat, s: nat, n: nat)
    requires Kept(w, lease, maxAttempts) && maxAttempts >= 1 && ShutOff(w, s, n)
    ensures ShutOff(ClaimSteps(w, ids, now, lease), s, n)
    decreases |ids|
  {
    if ids != [] {
      var init, i := ids[..|ids| - 1], ids[|ids| - 1];
      var mid := ClaimSteps(w, init, now, lease);
      ClaimStepsKeep(w, init, now, lease, maxAttempts);
      ClaimStepsShutOff(w, init, now, lease, maxAttempts, s, n);
      ClaimStepKeeps(mid, i, now, lease, maxAttempts);
      ShutOffStays(mid, ClaimStep(mid, i, now, lease), s, n);
    }
  }

  lemma {:induction false} RunShutsOff(w: World, moves: seq<Move>, lease: nat, maxAttempts: nat, s: nat, n: nat)
    requires Kept(w, lease, maxAttempts) && maxAttempts >= 1 && ShutOff(w, s, n)
    ensures ShutOff(Run(w, moves, lease, maxAttempts), s, n)
    decreases |moves|
  {
    if moves != [] {
      var mid, move := Run(w, moves[..|moves| - 1], lease, maxAttempts), moves[|moves| - 1];
      RunKeeps(w, moves[..|moves| - 1], lease, maxAttempts);
      RunShutsOff(w, moves[..|moves| - 1], lease, maxAttempts, s, n);
      StepKeeps(mid, move, lease, maxAttempts);
      if move.Poll? {
        ClaimStepsShutOff(mid, Select(mid.table.rows, move.locked, move.now, move.limit), move.now, lease, maxAttempts, s, n);
      } else {
        ShutOffStays(mid, Do(mid, move, lease, maxAttempts), s, n);
      }
    }
  }

  /** Once a subscription is revoked nothing is handed out for it any more, whatever was enqueued or leased before. */
  lemma RevokedGetNoClaims(before: seq<Move>, s: nat, later: seq<Move>, lease: nat, maxAttempts: nat)
    requires maxAttempts >= 1
    ensures var n := |Run(INITIAL, before, lease, maxAttempts).tokens|;
            var w := Run(INITIAL, before + [Revoke(s)] + later, lease, maxAttempts);
            n <= |w.tokens| && forall k | n <= k < |w.tokens| ::
              w.tokens[k].claim.id < |w.table.rows| && w.table.rows[w.tokens[k].claim.id].subscription != s
  {
    var moves := before + [Revoke(s)];
    assert moves[..|before|] == before;
    RunKeeps(INITIAL, moves, lease, maxAttempts);
    RunConcat(INITIAL, moves, later, lease, maxAttempts);
    RunShutsOff(Run(INITIAL, moves, lease, maxAttempts), later, lease, maxAttempts, s,
      |Run(INITIAL, before, lease, maxAttempts).tokens|);
  }

  /** A leased row is handed to somebody else only once the newest claim's lease has run out. */
  lemma LeasesAreHonoured(moves: seq<Move>, lease: nat, maxAttempts: nat, now: int, locked: set<nat>, id: nat)
    requires maxAttempts >= 1
    requires var w := Run(INITIAL, moves, lease, maxAttempts);
             IsDue(w.table.rows, locked, now, id) && w.table.rows[id].state.Delivering?
    ensures var w := Run(INITIAL, moves, lease, maxAttempts);
            exists k: nat :: LastClaim(w.tokens, k, id) && now >= w.tokens[k].claim.now + lease * SECOND
  {
    RunKeeps(INITIAL, moves, lease, maxAttempts);
    var w := Run(INITIAL, moves, lease, maxAttempts);
    var row := w.table.rows[id];
    assert RowKept(w.tokens, row, id, lease, maxAttempts);
    var k: nat :| HoldsLease(w.tokens, k, id, row.attempts, row.nextAt, lease);
    CurrentIsLast(w, lease, maxAttempts, k);
  }

  // ----- the retry budget -----

  /** A waiting row has attempts left; beyond the budget a row only gets by reclaiming after expired leases. */
  lemma BudgetCountsReclaims(moves: seq<Move>, lease: nat, maxAttempts: nat, id: nat)
    requires maxAttempts >= 1 && id < |Run(INITIAL, moves, lease, maxAttempts).table.rows|
    ensures var w := Run(INITIAL, moves, lease, maxAttempts);
            var row := w.table.rows[id];
            && (row.state.Pending? ==> row.attempts < maxAttempts)
            && row.attempts == Claims(w.tokens, id)
            && row.attempts <= maxAttempts + Reclaims(w.tokens, id)
  {
    RunKeeps(INITIAL, moves, lease, maxAttempts);
    var w := Run(INITIAL, moves, lease, maxAttempts);
    assert RowKept(w.tokens, w.table.rows[id], id, lease, maxAttempts);
  }
}
