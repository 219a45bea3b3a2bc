/** What claims and reports make of delivery rows, in the numbers and texts of the outbox. */
module DeliveryOutcomes {
  import opened Options
  import opened Dispatcher
  import opened Numbers

  // ----- claims -----

  /** What a poll makes of a row it selects: cancelled when its subscription is
      revoked, otherwise leased under the next number. */
  ghost predicate Claimed(row: Row, revoked: bool, now: int, lease: nat, later: Row) {
    && later.subscription == row.subscription && later.lastStatus == row.lastStatus && later.deliveredAt == row.deliveredAt
    && if revoked
       then later.state == Cancelled && later.lastError == Some("subscription_revoked")
            && later.attempts == row.attempts && later.nextAt == row.nextAt
       else later.state == Delivering && later.lastError == row.lastError
            && later.attempts == row.attempts + 1 && later.nextAt == now + lease * 1_000_000
  }

  ghost predicate ClaimedRows(t: Table, ids: seq<nat>, now: int, lease: nat, later: Table) {
    && later.revoked == t.revoked && |later.rows| == |t.rows|
    && (forall i | 0 <= i < |t.rows| && i !in ids :: later.rows[i] == t.rows[i])
    && (forall i | i in ids :: i < |t.rows| && Claimed(t.rows[i], t.rows[i].subscription in t.revoked, now, lease, later.rows[i]))
  }

  /** The ids among these whose subscription is still open. */
  function OpenIds(t: Table, ids: seq<nat>): seq<nat>
    requires forall k | 0 <= k < |ids| :: ids[k] < |t.rows|
  {
    if ids == [] then []
    else
      var i := ids[|ids| - 1];
      OpenIds(t, ids[..|ids| - 1]) + if t.rows[i].subscription in t.revoked then [] else [i]
  }

  /** The claims handed out: one for each open row, in order, under its new number, at the poll's instant. */
  ghost predicate HandedOut(t: Table, ids: seq<nat>, now: int, claims: seq<Claim>)
    requires forall k | 0 <= k < |ids| :: ids[k] < |t.rows|
  {
    && |claims| == |OpenIds(t, ids)|
    && forall k | 0 <= k < |claims| ::
         OpenIds(t, ids)[k] < |t.rows| && claims[k] == Claim(OpenIds(t, ids)[k], t.rows[OpenIds(t, ids)[k]].attempts + 1, now)
  }

  lemma OpenIdsNext(t: Table, ids: seq<nat>, i: nat)
    requires (forall k | 0 <= k < |ids| :: ids[k] < |t.rows|) && i < |t.rows|
    ensures forall k | 0 <= k < |ids + [i]| :: (ids + [i])[k] < |t.rows|
    ensures OpenIds(t, ids + [i]) == OpenIds(t, ids) + if t.rows[i].subscription in t.revoked then [] else [i]
  {
    assert (ids + [i])[..|ids|] == ids;
  }

  lemma OneMoreClaimed(t: Table, ids: seq<nat>, i: nat, now: int, lease: nat, mid: Table)
    requires ClaimedRows(t, ids, now, lease, mid) && i < |t.rows| && i !in ids
    ensures ClaimedRows(t, ids + [i], now, lease, ClaimOne(mid, [], i, now, lease).0)
  {
    assert mid.rows[i] == t.rows[i];
  }

  lemma OneMoreHandedOut(t: Table, ids: seq<nat>, i: nat, now: int, lease: nat, mid: Table, claims: seq<Claim>)
    requires (forall k | 0 <= k < |ids| :: ids[k] < |t.rows|) && i < |t.rows| && HandedOut(t, ids, now, claims)
    requires |mid.rows| == |t.rows| && mid.rows[i] == t.rows[i] && mid.revoked == t.revoked
    ensures forall k | 0 <= k < |ids + [i]| :: (ids + [i])[k] < |t.rows|
    ensures HandedOut(t, ids + [i], now, ClaimOne(mid, claims, i, now, lease).1)
  {
    OpenIdsNext(t, ids, i);
  }

  lemma {:induction false} ClaimAllClaims(t: Table, ids: seq<nat>, now: int, lease: nat)
    requires forall k | 0 <= k < |ids| :: ids[k] < |t.rows|
    requires forall a, b | 0 <= a < b < |ids| :: ids[a] != ids[b]
    ensures ClaimedRows(t, ids, now, lease, ClaimAll(t, ids, now, lease).0)
    ensures HandedOut(t, ids, now, ClaimAll(t, ids, now, lease).1)
  {
    if ids != [] {
      var init, i := ids[..|ids| - 1], ids[|ids| - 1];
      assert ids == init + [i] && i !in init;
      ClaimAllClaims(t, init, now, lease);
      var (mid, claims) := ClaimAll(t, init, now, lease);
      OneMoreClaimed(t, init, i, now, lease, mid);
      OneMoreHandedOut(t, init, i, now, lease, mid, claims);
      assert ClaimOne(mid, claims, i, now, lease).0 == ClaimOne(mid, [], i, now, lease).0;
    }
  }

  /** A poll claims the rows it selects and no others. */
  lemma PollClaims(t: Table, locked: set<nat>, now: int, limit: nat, lease: nat)
    ensures var ids := Select(t.rows, locked, now, limit);
            var (later, claims) := ClaimDue(t, locked, now, limit, lease);
            && (forall k | 0 <= k < |ids| :: ids[k] < |t.rows|)
            && ClaimedRows(t, ids, now, lease, later) && HandedOut(t, ids, now, claims)
  {
    SelectionIsFirst(t.rows, locked, now, limit);
    var ids := Select(t.rows, locked, now, limit);
    assert forall k | 0 <= k < |ids| :: IsDue(t.rows, locked, now, ids[k]);
    ClaimAllClaims(t, ids, now, lease);
  }

  /** Which rows are due. */
  lemma DueExactly(rows: seq<Row>, locked: set<nat>, now: int, i: nat)
    ensures IsDue(rows, locked, now, i) <==>
            i < |rows| && i !in locked && rows[i].state in {Pending, Delivering} && now >= rows[i].nextAt
  {}

  // ----- reports -----

  /** What a report about the current attempt leaves, by the answer: delivered for 200 to 299; for 408, 409, 425, 429, 500 to 599
      and a failed transport another try after 2, 4, 8, 16, 32 or 64 seconds, or the end when the budget is used up; the end for
      every other answer and for a forbidden origin. The row keeps the status and the reason. */
  ghost predicate Reported(row: Row, c: Claim, allowed: bool, response: Response, at: int, maxAttempts: nat, later: Row) {
    && later.subscription == row.subscription && later.attempts == row.attempts
    && if !allowed then Ended(row, Failed, None, Some("webhook_origin_not_allowed"), later)
       else
         match response
         case Transport => Retried(row, c, None, "transport_failure", maxAttempts, later)
         case Http(status) =>
           if 200 <= status <= 299
           then later.state == Delivered && later.deliveredAt == Some(at) && later.nextAt == row.nextAt
                && later.lastStatus == Some(status) && later.lastError == None
           else if status == 408 || status == 409 || status == 425 || status == 429 || 500 <= status <= 599
           then Retried(row, c, Some(status), "http_transient_failure", maxAttempts, later)
           else Ended(row, Failed, Some(status), Some("http_permanent_failure"), later)
  }

  ghost predicate Ended(row: Row, state: RowState, status: Option<int>, error: Option<string>, later: Row) {
    && later.state == state && later.nextAt == row.nextAt && later.deliveredAt == row.deliveredAt
    && later.lastStatus == status && later.lastError == error
  }

  ghost predicate Retried(row: Row, c: Claim, status: Option<int>, error: string, maxAttempts: nat, later: Row) {
    if c.attempt >= maxAttempts then Ended(row, Failed, status, Some(error), later)
    else
      && later.state == Pending && later.deliveredAt == row.deliveredAt
      && later.lastStatus == status && later.lastError == Some(error)
      && later.nextAt == c.now + 1_000_000 * (if c.attempt >= 6 then 64 else [1, 2, 4, 8, 16, 32][c.attempt])
  }

  lemma Delays(attempt: nat)
    ensures Delay(attempt) == if attempt >= 6 then 64 else [1, 2, 4, 8, 16, 32][attempt]
  {
    assert Power2(3) == 8;
    assert Power2(6) == 64;
  }

  lemma ReportsByStatus(row: Row, c: Claim, allowed: bool, response: Response, at: int, maxAttempts: nat)
    requires Current(row, c.attempt)
    ensures Reported(row, c, allowed, response, at, maxAttempts,
                     FinishRow(row, c.attempt, Judge(c, allowed, response, maxAttempts), at))
  {
    Delays(c.attempt);
  }

  /** A longer reason is cut to its first 255 characters; everything else a report says is kept as it is. */
  lemma ReasonsAreCut(row: Row, v: Verdict, at: int)
    requires row.state.Delivering?
    ensures var later := FinishRow(row, row.attempts, v, at);
            && (v.error.None? ==> later.lastError.None?)
            && (v.error.Some? && |v.error.value| <= 255 ==> later.lastError == v.error)
            && (v.error.Some? && |v.error.value| > 255 ==>
                  later.lastError.Some? && |later.lastError.value| == 255 && later.lastError.value <= v.error.value)
            && later.state == v.state && later.lastStatus == v.status
  {}

  // ----- a whole poll of a dispatcher -----

  ghost predicate DistinctIds(t: Table, claims: seq<Claim>) {
    && (forall k | 0 <= k < |claims| :: claims[k].id < |t.rows|)
    && forall a, b | 0 <= a < b < |claims| :: claims[a].id != claims[b].id
  }

  ghost predicate FinishedRows(t: Table, claims: seq<Claim>, answers: Claim -> Answer, maxAttempts: nat, later: Table)
    requires DistinctIds(t, claims)
  {
    && later.revoked == t.revoked && |later.rows| == |t.rows|
    && (forall i | 0 <= i < |t.rows| && (forall k | 0 <= k < |claims| :: claims[k].id != i) :: later.rows[i] == t.rows[i])
    && forall k | 0 <= k < |claims| ::
         var c, a := claims[k], answers(claims[k]);
         later.rows[c.id] == FinishRow(t.rows[c.id], c.attempt, Judge(c, a.allowed, a.response, maxAttempts), a.at)
  }

  lemma {:induction false} FinishAllFinishes(t: Table, claims: seq<Claim>, answers: Claim -> Answer, maxAttempts: nat)
    requires DistinctIds(t, claims)
    ensures FinishedRows(t, claims, answers, maxAttempts, FinishAll(t, claims, answers, maxAttempts))
  {
    if claims != [] {
      var init, c := claims[..|claims| - 1], claims[|claims| - 1];
      assert claims == init + [c] && forall k | 0 <= k < |init| :: init[k] == claims[k];
      FinishAllFinishes(t, init, answers, maxAttempts);
    }
  }

  /** What a poll and its sends make of a row it selects: a revoked one is cancelled; an open one is leased and
      what is reported of its send is on record. */
  ghost predicate Dispatched(
    row: Row, i: nat, revoked: bool, now: int, lease: nat, answers: Claim -> Answer, maxAttempts: nat, later: Row)
  {
    if revoked then Claimed(row, true, now, lease, later)
    else
      var c := Claim(i, row.attempts + 1, now);
      exists leased :: Claimed(row, false, now, lease, leased)
        && Reported(leased, c, answers(c).allowed, answers(c).response, answers(c).at, maxAttempts, later)
  }

  lemma {:induction false} OpenIdsAre(t: Table, ids: seq<nat>)
    requires forall k | 0 <= k < |ids| :: ids[k] < |t.rows|
    ensures forall i :: i in OpenIds(t, ids) <==> i in ids && t.rows[i].subscription !in t.revoked
    ensures (forall a, b | 0 <= a < b < |ids| :: ids[a] != ids[b]) ==>
              forall a, b | 0 <= a < b < |OpenIds(t, ids)| :: OpenIds(t, ids)[a] != OpenIds(t, ids)[b]
  {
    if ids != [] {
      var init, i := ids[..|ids| - 1], ids[|ids| - 1];
      assert ids == init + [i];
      OpenIdsAre(t, init);
    }
  }

  /** One poll of a dispatcher, with any answers to its sends: the selected rows are dispatched, all others stay. */
  lemma PollDispatches(
    t: Table, locked: set<nat>, now: int, limit: nat, lease: nat, answers: Claim -> Answer, maxAttempts: nat)
    ensures var ids := Select(t.rows, locked, now, limit);
            var (mid, claims) := ClaimDue(t, locked, now, limit, lease);
            var later := FinishAll(mid, claims, answers, maxAttempts);
            && |later.rows| == |t.rows| && later.revoked == t.revoked
            && (forall i | 0 <= i < |t.rows| && i !in ids :: later.rows[i] == t.rows[i])
            && forall i | i in ids :: i < |t.rows| &&
                 Dispatched(t.rows[i], i, t.rows[i].subscription in t.revoked, now, lease, answers, maxAttempts, later.rows[i])
  {
    var ids := Select(t.rows, locked, now, limit);
    var (mid, claims) := ClaimDue(t, locked, now, limit, lease);
    SelectionIsFirst(t.rows, locked, now, limit);
    PollClaims(t, locked, now, limit, lease);
    OpenIdsAre(t, ids);
    FinishAllFinishes(mid, claims, answers, maxAttempts);
    var later := FinishAll(mid, claims, answers, maxAttempts);
    forall i | i in ids
      ensures Dispatched(t.rows[i], i, t.rows[i].subscription in t.revoked, now, lease, answers, maxAttempts, later.rows[i])
    {
      if t.rows[i].subscription !in t.revoked {
        OpenRowIsDispatched(t, ids, now, lease, answers, maxAttempts, mid, claims, later, i);
      }
    }
  }

  lemma OpenRowIsDispatched(
    t: Table, ids: seq<nat>, now: int, lease: nat, answers: Claim -> Answer, maxAttempts: nat,
    mid: Table, claims: seq<Claim>, later: Table, i: nat)
    requires i in ids && (forall k | 0 <= k < |ids| :: ids[k] < |t.rows|) && t.rows[i].subscription !in t.revoked
    requires ClaimedRows(t, ids, now, lease, mid) && HandedOut(t, ids, now, claims) && i in OpenIds(t, ids)
    requires DistinctIds(mid, claims) && FinishedRows(mid, claims, answers, maxAttempts, later)
    ensures Dispatched(t.rows[i], i, false, now, lease, answers, maxAttempts, later.rows[i])
  {
    var k :| 0 <= k < |claims| && OpenIds(t, ids)[k] == i;
    var c, a := claims[k], answers(claims[k]);
    assert Claimed(t.rows[i], false, now, lease, mid.rows[i]);
    ReportsByStatus(mid.rows[i], c, a.allowed, a.response, a.at, maxAttempts);
  }
}
