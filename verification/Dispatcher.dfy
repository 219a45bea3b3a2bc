/** The webhook dispatcher: leases, attempt numbers as fencing tokens, and the retry budget. */
module Dispatcher {
  import opened Options
  import opened Numbers
  import Sequences

  const SECOND := 1_000_000

  datatype RowState = Pending | Delivering | Delivered | Failed | Cancelled

  predicate IsFinal(s: RowState) { s.Delivered? || s.Failed? || s.Cancelled? }

  /** A delivery row; its place in the table is its id. Instants are in microseconds. */
  datatype Row = Row(
    subscription: nat, state: RowState, attempts: nat, nextAt: int,
    lastStatus: Option<int>, lastError: Option<string>, deliveredAt: Option<int>)

  /** What claiming a row hands out. */
  datatype Claim = Claim(id: nat, attempt: nat, now: int)

  // ----- claim_due -----

  predicate IsDue(rows: seq<Row>, locked: set<nat>, now: int, i: nat) {
    i < |rows| && i !in locked && (rows[i].state.Pending? || rows[i].state.Delivering?) && rows[i].nextAt <= now
  }

  function DueIds(rows: seq<Row>, locked: set<nat>, now: int, n: nat): seq<nat>
    requires n <= |rows|
  {
    if n == 0 then [] else DueIds(rows, locked, now, n - 1) + if IsDue(rows, locked, now, n - 1) then [n - 1] else []
  }

  /** The order of the query: by instant, then by id. */
  predicate Earlier(rows: seq<Row>, i: nat, j: nat)
    requires i < |rows| && j < |rows|
  {
    rows[i].nextAt < rows[j].nextAt || (rows[i].nextAt == rows[j].nextAt && i < j)
  }

  ghost predicate Ordered(rows: seq<Row>, ids: seq<nat>) {
    && (forall k | 0 <= k < |ids| :: ids[k] < |rows|)
    && forall a, b | 0 <= a < b < |ids| :: Earlier(rows, ids[a], ids[b])
  }

  function InsertDue(rows: seq<Row>, i: nat, sorted: seq<nat>): (r: seq<nat>)
    requires i < |rows| && i !in sorted && Ordered(rows, sorted)
    ensures forall k: nat :: k in r <==> k == i || k in sorted
    ensures Ordered(rows, r)
  {
    if sorted == [] || Earlier(rows, i, sorted[0]) then [i] + sorted
    else
      assert sorted == [sorted[0]] + sorted[1..];
      assert Earlier(rows, sorted[0], i);
      var rest := InsertDue(rows, i, sorted[1..]);
      assert forall k | 0 <= k < |rest| :: rest[k] in rest && (rest[k] == i || rest[k] in sorted[1..]);
      assert forall k | k in sorted[1..] :: Earlier(rows, sorted[0], k);
      [sorted[0]] + rest
  }

  function SortDue(rows: seq<Row>, ids: seq<nat>): (sorted: seq<nat>)
    requires forall k | k in ids :: k < |rows|
    requires forall a, b | 0 <= a < b < |ids| :: ids[a] != ids[b]
    ensures forall k: nat :: k in sorted <==> k in ids
    ensures Ordered(rows, sorted)
  {
    if ids == [] then []
    else
      var init, last := ids[..|ids| - 1], ids[|ids| - 1];
      assert ids == init + [last];
      assert forall k | k in init :: k in ids;
      assert last in ids;
      InsertDue(rows, last, SortDue(rows, init))
  }

  lemma {:induction false} DueIdsExact(rows: seq<Row>, locked: set<nat>, now: int, n: nat)
    requires n <= |rows|
    ensures forall i: nat :: i in DueIds(rows, locked, now, n) <==> i < n && IsDue(rows, locked, now, i)
    ensures forall a, b | 0 <= a < b < |DueIds(rows, locked, now, n)| ::
              DueIds(rows, locked, now, n)[a] != DueIds(rows, locked, now, n)[b]
  {
    if n > 0 { DueIdsExact(rows, locked, now, n - 1); }
  }

  /** The query: due rows not locked by another transaction, by instant and id, at most `limit`. */
  function Select(rows: seq<Row>, locked: set<nat>, now: int, limit: nat): seq<nat> {
    DueIdsExact(rows, locked, now, |rows|);
    var due := SortDue(rows, DueIds(rows, locked, now, |rows|));
    if |due| <= limit then due else due[..limit]
  }

  /** The query returns due rows in order, none twice, and leaves out a due unlocked row
      only when `limit` earlier ones are returned. */
  lemma SelectionIsFirst(rows: seq<Row>, locked: set<nat>, now: int, limit: nat)
    ensures var ids := Select(rows, locked, now, limit);
            && |ids| <= limit
            && (forall k | 0 <= k < |ids| :: IsDue(rows, locked, now, ids[k]))
            && (forall a, b | 0 <= a < b < |ids| :: ids[a] != ids[b] && Earlier(rows, ids[a], ids[b]))
            && (forall i: nat | IsDue(rows, locked, now, i) && i !in ids ::
                  |ids| == limit && forall k | 0 <= k < |ids| :: Earlier(rows, ids[k], i))
  {
    DueIdsExact(rows, locked, now, |rows|);
    var due := SortDue(rows, DueIds(rows, locked, now, |rows|));
    var ids := Select(rows, locked, now, limit);
    assert forall k | 0 <= k < |ids| :: ids[k] == due[k] && due[k] in due;
    forall i: nat | IsDue(rows, locked, now, i) && i !in ids
      ensures |ids| == limit && forall k | 0 <= k < |ids| :: Earlier(rows, ids[k], i)
    {
      assert i in due;
      var j :| 0 <= j < |due| && due[j] == i;
      assert j >= |ids|;
    }
  }

  /** What a claim makes of a row. */
  function ClaimRow(row: Row, revoked: bool, now: int, lease: nat): Row {
    if revoked then row.(state := Cancelled, lastError := Some("subscription_revoked"))
    else row.(state := Delivering, attempts := row.attempts + 1, nextAt := now + lease * SECOND)
  }

  // ----- finish -----

  /** What a dispatcher reports about an attempt. */
  datatype Verdict = Verdict(state: RowState, nextAt: Option<int>, status: Option<int>, error: Option<string>)

  function Truncated(error: Option<string>): Option<string> {
    if error.Some? && |error.value| > 255 then Some(error.value[..255]) else error
  }

  predicate Current(row: Row, attempt: nat) { row.state.Delivering? && row.attempts == attempt }

  function FinishRow(row: Row, attempt: nat, v: Verdict, at: int): Row {
    if !Current(row, attempt) then row
    else
      row.(state := v.state, lastStatus := v.status, lastError := Truncated(v.error),
           nextAt := if v.nextAt.Some? then v.nextAt.value else row.nextAt,
           deliveredAt := if v.state.Delivered? then Some(at) else row.deliveredAt)
  }

  /** What happened to a send: `Transport` for a failure below HTTP. */
  datatype Response = Transport | Http(status: int)

  predicate IsTransient(status: int) { status in {408, 409, 425, 429} || 500 <= status < 600 }

  function Delay(attempt: nat): nat { Power2(if attempt <= 6 then attempt else 6) }

  function TransientVerdict(attempt: nat, now: int, status: Option<int>, error: string, maxAttempts: nat): Verdict {
    if attempt >= maxAttempts then Verdict(Failed, None, status, Some(error))
    else Verdict(Pending, Some(now + Delay(attempt) * SECOND), status, Some(error))
  }

  /** _deliver: the verdict for a claim, given whether its origin is allowed and how the send went. */
  function Judge(c: Claim, allowed: bool, response: Response, maxAttempts: nat): Verdict {
    if !allowed then Verdict(Failed, None, None, Some("webhook_origin_not_allowed"))
    else
      match response
      case Transport => TransientVerdict(c.attempt, c.now, None, "transport_failure", maxAttempts)
      case Http(status) =>
        if 200 <= status < 300 then Verdict(Delivered, None, Some(status), None)
        else if IsTransient(status) then TransientVerdict(c.attempt, c.now, Some(status), "http_transient_failure", maxAttempts)
        else Verdict(Failed, None, Some(status), Some("http_permanent_failure"))
  }

  /** A retry waits at least 2 and at most 64 seconds, twice as long each time until then. */
  lemma RetryDelays(attempt: nat)
    requires attempt >= 1
    ensures 2 <= Delay(attempt) <= 64
    ensures Delay(1) == 2
    ensures attempt < 6 ==> Delay(attempt + 1) == 2 * Delay(attempt)
    ensures attempt >= 6 ==> Delay(attempt) == 64
  {
    Power2Grows(1, if attempt <= 6 then attempt else 6);
    Power2Grows(if attempt <= 6 then attempt else 6, 6);
    assert Power2(1) == 2;
    assert Power2(3) == 8;
    assert Power2(6) == 64;
  }

  /** What the send asks for: to be tried again. */
  predicate Retryable(response: Response) { response.Transport? || IsTransient(response.status) }

  predicate Successful(response: Response) { response.Http? && 200 <= response.status < 300 }

  /** What a report about the current attempt leaves in the row: delivered with the instant on success, waiting 2 to 64 seconds
      from the claim when it is retryable and attempts are left, failed otherwise; the last status and error tell of this send. */
  lemma ReportRecords(row: Row, c: Claim, allowed: bool, response: Response, at: int, maxAttempts: nat)
    requires Current(row, c.attempt) && c.attempt >= 1
    ensures var later := FinishRow(row, c.attempt, Judge(c, allowed, response, maxAttempts), at);
            && later.subscription == row.subscription && later.attempts == row.attempts
            && (later.state.Delivered? <==> allowed && Successful(response))
            && (later.state.Pending? <==> allowed && !Successful(response) && Retryable(response) && c.attempt < maxAttempts)
            && (!later.state.Delivered? && !later.state.Pending? ==> later.state.Failed?)
            && later.deliveredAt == (if later.state.Delivered? then Some(at) else row.deliveredAt)
            && (if later.state.Pending? then c.now + 2 * SECOND <= later.nextAt <= c.now + 64 * SECOND
                else later.nextAt == row.nextAt)
            && later.lastStatus == (if allowed && response.Http? then Some(response.status) else None)
            && (later.lastError.None? <==> later.state.Delivered?)
  {
    RetryDelays(c.attempt);
  }

  // ----- the table and its two operations -----

  datatype Table = Table(rows: seq<Row>, revoked: set<nat>)

  /** Claims the selected rows in order. */
  function ClaimAll(t: Table, ids: seq<nat>, now: int, lease: nat): (r: (Table, seq<Claim>))
    ensures |r.0.rows| == |t.rows| && r.0.revoked == t.revoked
  {
    if ids == [] then (t, [])
    else
      var before := ClaimAll(t, ids[..|ids| - 1], now, lease);
      ClaimOne(before.0, before.1, ids[|ids| - 1], now, lease)
  }

  function ClaimOne(t: Table, claims: seq<Claim>, i: nat, now: int, lease: nat): (r: (Table, seq<Claim>))
    ensures |r.0.rows| == |t.rows| && r.0.revoked == t.revoked
  {
    if i >= |t.rows| then (t, claims)
    else
      var revoked := t.rows[i].subscription in t.revoked;
      var row := ClaimRow(t.rows[i], revoked, now, lease);
      (t.(rows := t.rows[i := row]), claims + if revoked then [] else [Claim(i, row.attempts, now)])
  }

  function ClaimDue(t: Table, locked: set<nat>, now: int, limit: nat, lease: nat): (Table, seq<Claim>) {
    ClaimAll(t, Select(t.rows, locked, now, limit), now, lease)
  }

  function Finish(t: Table, id: nat, attempt: nat, v: Verdict, at: int): Table {
    if id < |t.rows| then t.(rows := t.rows[id := FinishRow(t.rows[id], attempt, v, at)]) else t
  }

  class DeliveryStore {
    var rows: seq<Row>
    var revoked: set<nat>
    const lease: nat

    constructor (rows: seq<Row>, revoked: set<nat>, lease: nat)
      ensures View() == Table(rows, revoked) && this.lease == lease
    {
      this.rows, this.revoked, this.lease := rows, revoked, lease;
    }

    function View(): Table
      reads this
    {
      Table(rows, revoked)
    }

    method ClaimDueRows(now: int, limit: nat, locked: set<nat>) returns (claimed: seq<Claim>)
      modifies this`rows
      ensures (View(), claimed) == ClaimDue(old(View()), locked, now, limit, lease)
    {
      var records := Select(rows, locked, now, limit);
      SelectionIsFirst(rows, locked, now, limit);
      claimed := [];
      for k := 0 to |records|
        invariant |rows| == |old(rows)|
        invariant View() == ClaimAll(old(View()), records[..k], now, lease).0
        invariant claimed == ClaimAll(old(View()), records[..k], now, lease).1
      {
        var i := records[k];
        assert IsDue(old(rows), locked, now, records[k]);
        assert records[..k + 1][..k] == records[..k];
        var row := rows[i];
        if row.subscription in revoked {
          row := row.(state := Cancelled, lastError := Some("subscription_revoked"));
        } else {
          row := row.(state := Delivering, attempts := row.attempts + 1, nextAt := now + lease * SECOND);
          claimed := claimed + [Claim(i, row.attempts, now)];
        }
        rows := rows[i := row];
      }
      assert records[..|records|] == records;
    }

    method FinishAttempt(id: nat, attempt: nat, v: Verdict, at: int)
      modifies this`rows
      ensures View() == Finish(old(View()), id, attempt, v, at)
    {
      if id >= |rows| {
        return;
      }
      var delivery := rows[id];
      if !(delivery.state.Delivering? && delivery.attempts == attempt) {
        assert rows[id := delivery] == rows;
        return;
      }
      var row := delivery.(state := v.state, lastStatus := v.status, lastError := Truncated(v.error));
      if v.nextAt.Some? { row := row.(nextAt := v.nextAt.value); }
      if v.state.Delivered? { row := row.(deliveredAt := Some(at)); }
      rows := rows[id := row];
    }
  }

  /** How the world answers a claim: is its origin allowed, how does the send go, when is it finished. */
  datatype Answer = Answer(allowed: bool, response: Response, at: int)

  function FinishAll(t: Table, claims: seq<Claim>, answers: Claim -> Answer, maxAttempts: nat): Table {
    if claims == [] then t
    else
      var c := claims[|claims| - 1];
      var a := answers(c);
      Finish(FinishAll(t, claims[..|claims| - 1], answers, maxAttempts), c.id, c.attempt,
             Judge(c, a.allowed, a.response, maxAttempts), a.at)
  }

  /** _deliver: one send and its report. */
  method Deliver(store: DeliveryStore, c: Claim, a: Answer, maxAttempts: nat)
    modifies store`rows
    ensures store.View() == Finish(old(store.View()), c.id, c.attempt, Judge(c, a.allowed, a.response, maxAttempts), a.at)
  {
    if !a.allowed {
      store.FinishAttempt(c.id, c.attempt, Verdict(Failed, None, None, Some("webhook_origin_not_allowed")), a.at);
      return;
    }
    match a.response
    case Transport =>
      store.FinishAttempt(c.id, c.attempt, TransientVerdict(c.attempt, c.now, None, "transport_failure", maxAttempts), a.at);
    case Http(status) =>
      if 200 <= status < 300 {
        store.FinishAttempt(c.id, c.attempt, Verdict(Delivered, None, Some(status), None), a.at);
      } else if IsTransient(status) {
        store.FinishAttempt(c.id, c.attempt,
          TransientVerdict(c.attempt, c.now, Some(status), "http_transient_failure", maxAttempts), a.at);
      } else {
        store.FinishAttempt(c.id, c.attempt, Verdict(Failed, None, Some(status), Some("http_permanent_failure")), a.at);
      }
  }

  /** One poll of one dispatcher. */
  method DispatchOnce(store: DeliveryStore, now: int, limit: nat, locked: set<nat>, answers: Claim -> Answer, maxAttempts: nat)
    returns (count: nat)
    modifies store`rows
    ensures var (t, claims) := ClaimDue(old(store.View()), locked, now, limit, store.lease);
            store.View() == FinishAll(t, claims, answers, maxAttempts) && count == |claims|
  {
    var deliveries := store.ClaimDueRows(now, limit, locked);
    ghost var t := store.View();
    for k := 0 to |deliveries|
      invariant store.View() == FinishAll(t, deliveries[..k], answers, maxAttempts)
    {
      Sequences.TakeNext(deliveries, k);
      Deliver(store, deliveries[k], answers(deliveries[k]), maxAttempts);
    }
    Sequences.Whole(deliveries);
    count := |deliveries|;
  }
}
