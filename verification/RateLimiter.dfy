/** The sliding-window limiter: one queue of accepted instants per client and path. */
module RateLimiter {

  /** A client host and a rate path. */
  datatype Key = Key(host: string, path: string)

  type Queues = map<Key, seq<real>>

  /** popleft while the oldest entry is at or before the cutoff. */
  function DropOld(queue: seq<real>, cutoff: real): seq<real> {
    if queue != [] && queue[0] <= cutoff then DropOld(queue[1..], cutoff) else queue
  }

  /** One request: the queue afterwards, and whether it was refused. */
  function Admit(queue: seq<real>, now: real, window: real, limit: nat): (seq<real>, bool) {
    var kept := DropOld(queue, now - window);
    if |kept| >= limit then (kept, true) else (kept + [now], false)
  }

  function QueueOf(attempts: Queues, key: Key): seq<real> { if key in attempts then attempts[key] else [] }

  class Limiter {
    var attempts: Queues
    const window: real
    const limit: nat

    constructor (window: real, limit: nat)
      ensures attempts == map[] && this.window == window && this.limit == limit
    {
      this.attempts, this.window, this.limit := map[], window, limit;
    }

    method RateLimited(key: Key, now: real) returns (limited: bool)
      modifies this`attempts
      ensures var (queue, refused) := Admit(QueueOf(old(attempts), key), now, window, limit);
              attempts == old(attempts)[key := queue] && limited == refused
    {
      var cutoff := now - window;
      var queue := QueueOf(attempts, key);
      while queue != [] && queue[0] <= cutoff
        invariant DropOld(queue, cutoff) == DropOld(QueueOf(old(attempts), key), cutoff)
        decreases |queue|
      {
        queue := queue[1..];
      }
      if |queue| >= limit {
        attempts := attempts[key := queue];
        return true;
      }
      queue := queue + [now];
      attempts := attempts[key := queue];
      limited := false;
    }
  }

  // ----- the reference: what the limiter promises about a key's requests -----

  function Recent(times: seq<real>, cutoff: real): seq<real> {
    if times == [] then []
    else
      var t := times[|times| - 1];
      Recent(times[..|times| - 1], cutoff) + if t > cutoff then [t] else []
  }

  /** The accepted requests: one is refused exactly when the window before it already holds `limit` accepted ones. */
  function Accepted(times: seq<real>, window: real, limit: nat): seq<real> {
    if times == [] then [] else Accept(Accepted(times[..|times| - 1], window, limit), times[|times| - 1], window, limit)
  }

  function Accept(before: seq<real>, t: real, window: real, limit: nat): seq<real> {
    if |Recent(before, t - window)| >= limit then before else before + [t]
  }

  ghost predicate Sorted(times: seq<real>) { forall i, j | 0 <= i < j < |times| :: times[i] <= times[j] }

  /** One key's queue after its requests, as the limiter computes it. */
  function Queue(times: seq<real>, window: real, limit: nat): seq<real> {
    if times == [] then []
    else Admit(Queue(times[..|times| - 1], window, limit), times[|times| - 1], window, limit).0
  }

  lemma RecentNext(times: seq<real>, t: real, cutoff: real)
    ensures Recent(times + [t], cutoff) == Recent(times, cutoff) + if t > cutoff then [t] else []
  {
    assert (times + [t])[..|times|] == times;
  }

  lemma AcceptedNext(times: seq<real>, t: real, window: real, limit: nat)
    ensures Accepted(times + [t], window, limit) == Accept(Accepted(times, window, limit), t, window, limit)
  {
    assert (times + [t])[..|times|] == times;
  }

  lemma QueueNext(times: seq<real>, t: real, window: real, limit: nat)
    ensures Queue(times + [t], window, limit) == Admit(Queue(times, window, limit), t, window, limit).0
  {
    assert (times + [t])[..|times|] == times;
  }

  ghost predicate UpTo(times: seq<real>, last: real) { forall i | 0 <= i < |times| :: times[i] <= last }

  lemma {:induction false} AcceptedUpTo(times: seq<real>, window: real, limit: nat, last: real)
    requires UpTo(times, last)
    ensures UpTo(Accepted(times, window, limit), last)
  {
    if times != [] { AcceptedUpTo(times[..|times| - 1], window, limit, last); }
  }

  lemma {:induction false} AcceptedIsSorted(times: seq<real>, window: real, limit: nat)
    requires Sorted(times)
    ensures Sorted(Accepted(times, window, limit))
  {
    if times != [] {
      var init := times[..|times| - 1];
      AcceptedIsSorted(init, window, limit);
      AcceptedUpTo(init, window, limit, times[|times| - 1]);
    }
  }

  lemma {:induction false} RecentUpTo(times: seq<real>, cutoff: real, last: real)
    requires UpTo(times, last)
    ensures UpTo(Recent(times, cutoff), last)
  {
    if times != [] { RecentUpTo(times[..|times| - 1], cutoff, last); }
  }

  lemma {:induction false} RecentIsSorted(times: seq<real>, cutoff: real)
    requires Sorted(times)
    ensures Sorted(Recent(times, cutoff))
  {
    if times != [] {
      var init := times[..|times| - 1];
      RecentIsSorted(init, cutoff);
      RecentUpTo(init, cutoff, times[|times| - 1]);
    }
  }

  /** On a sorted list the recent entries are the ones left after dropping from the front. */
  lemma {:induction false} DropIsRecent(times: seq<real>, cutoff: real)
    requires Sorted(times)
    ensures DropOld(times, cutoff) == Recent(times, cutoff)
    decreases |times|
  {
    if times == [] {
    } else if times[0] <= cutoff {
      DropIsRecent(times[1..], cutoff);
      RecentSkipsFirst(times, cutoff);
    } else {
      AllRecent(times, cutoff);
    }
  }

  lemma {:induction false} RecentSkipsFirst(times: seq<real>, cutoff: real)
    requires times != [] && times[0] <= cutoff
    ensures Recent(times, cutoff) == Recent(times[1..], cutoff)
  {
    if |times| == 1 {
      assert times[..0] == [] && times[1..] == [];
    } else {
      var init := times[..|times| - 1];
      RecentSkipsFirst(init, cutoff);
      assert times[1..][..|times| - 2] == init[1..];
    }
  }

  lemma {:induction false} AllRecent(times: seq<real>, cutoff: real)
    requires forall i | 0 <= i < |times| :: times[i] > cutoff
    ensures Recent(times, cutoff) == times
  {
    if times != [] {
      AllRecent(times[..|times| - 1], cutoff);
      assert times == times[..|times| - 1] + [times[|times| - 1]];
    }
  }

  /** Forgetting what is already too old changes nothing later. */
  lemma {:induction false} RecentOfRecent(times: seq<real>, earlier: real, later: real)
    requires earlier <= later
    ensures Recent(Recent(times, earlier), later) == Recent(times, later)
  {
    if times != [] {
      var init, t := times[..|times| - 1], times[|times| - 1];
      RecentOfRecent(init, earlier, later);
      RecentNext(Recent(init, earlier), t, later);
      if t <= earlier {
        assert Recent(init, earlier) + [] == Recent(init, earlier) && Recent(init, later) + [] == Recent(init, later);
      }
    }
  }

  /** What a queue of recent entries still holds at a later cutoff. */
  lemma DropLater(accepted: seq<real>, queue: seq<real>, earlier: real, cutoff: real)
    requires Sorted(queue) && queue == Recent(accepted, earlier) && earlier <= cutoff
    ensures DropOld(queue, cutoff) == Recent(accepted, cutoff)
  {
    DropIsRecent(queue, cutoff);
    RecentOfRecent(accepted, earlier, cutoff);
  }

  /** The limiter's view of a key at its next request: the accepted requests of the window that ends there. */
  lemma SeenAtNext(times: seq<real>, last: real, now: real, window: real, limit: nat)
    requires last <= now && HoldsRecent(times, last, window, limit)
    ensures DropOld(Queue(times, window, limit), now - window) == Recent(Accepted(times, window, limit), now - window)
  {
    if times != [] {
      DropLater(Accepted(times, window, limit), Queue(times, window, limit), last - window, now - window);
    }
  }

  /** The queue at the time of the latest request. */
  ghost predicate HoldsRecent(times: seq<real>, last: real, window: real, limit: nat) {
    && Sorted(Queue(times, window, limit))
    && (times != [] ==> Queue(times, window, limit) == Recent(Accepted(times, window, limit), last - window))
  }

  /** The queue is sorted and holds exactly the accepted requests of the last `window`, as of the latest request. */
  lemma {:induction false} QueueIsRecentAccepted(times: seq<real>, last: real, window: real, limit: nat)
    requires window > 0.0 && Sorted(times) && (times != [] ==> last == times[|times| - 1])
    ensures Sorted(Queue(times, window, limit))
    ensures times != [] ==> Queue(times, window, limit) == Recent(Accepted(times, window, limit), last - window)
  {
    if times != [] {
      var init := times[..|times| - 1];
      var before := if init == [] then last else init[|init| - 1];
      QueueIsRecentAccepted(init, before, window, limit);
      assert times == init + [last];
      SortedParts(init, last);
      QueueStep(init, before, last, window, limit);
    }
  }

  lemma QueueStep(init: seq<real>, before: real, t: real, window: real, limit: nat)
    requires window > 0.0 && Sorted(init + [t]) && before <= t && HoldsRecent(init, before, window, limit)
    ensures HoldsRecent(init + [t], t, window, limit)
  {
    var times := init + [t];
    assert Queue(times, window, limit) == Recent(Accepted(times, window, limit), t - window) by {
      SeenAtNext(init, before, t, window, limit);
      NextQueue(init, t, window, limit);
    }
    RecentAcceptedSorted(times, t - window, window, limit);
  }

  lemma SortedParts(init: seq<real>, t: real)
    requires Sorted(init + [t])
    ensures Sorted(init) && UpTo(init, t)
  {
    var times := init + [t];
    assert forall i | 0 <= i < |init| :: times[i] == init[i];
    assert times[|init|] == t;
  }

  lemma NextQueue(times: seq<real>, t: real, window: real, limit: nat)
    requires window > 0.0
    requires DropOld(Queue(times, window, limit), t - window) == Recent(Accepted(times, window, limit), t - window)
    ensures Queue(times + [t], window, limit) == Recent(Accepted(times + [t], window, limit), t - window)
  {
    QueueNext(times, t, window, limit);
    AcceptedNext(times, t, window, limit);
    AdmitIsAccept(Accepted(times, window, limit), Queue(times, window, limit), t, window, limit);
  }

  lemma RecentAcceptedSorted(times: seq<real>, cutoff: real, window: real, limit: nat)
    requires Sorted(times)
    ensures Sorted(Recent(Accepted(times, window, limit), cutoff))
  {
    AcceptedIsSorted(times, window, limit);
    RecentIsSorted(Accepted(times, window, limit), cutoff);
  }

  lemma AdmitIsAccept(before: seq<real>, queue: seq<real>, t: real, window: real, limit: nat)
    requires window > 0.0 && DropOld(queue, t - window) == Recent(before, t - window)
    ensures Admit(queue, t, window, limit).0 == Recent(Accept(before, t, window, limit), t - window)
  {
    RecentNext(before, t, t - window);
  }

  /** A request is refused exactly when `limit` accepted ones already lie in the window that ends with it; never more do. */
  lemma RefusedExactlyWhenFull(times: seq<real>, now: real, window: real, limit: nat)
    requires window > 0.0 && Sorted(times) && UpTo(times, now)
    ensures var inWindow := Recent(Accepted(times, window, limit), now - window);
            && |inWindow| <= limit
            && (Admit(Queue(times, window, limit), now, window, limit).1 <==> |inWindow| == limit)
            && (Admit(Queue(times, window, limit), now, window, limit).1 <==>
                  Accepted(times + [now], window, limit) == Accepted(times, window, limit))
  {
    var last := if times == [] then now else times[|times| - 1];
    QueueIsRecentAccepted(times, last, window, limit);
    SeenAtNext(times, last, now, window, limit);
    WindowIsBounded(times, window, limit, now);
    AcceptedNext(times, now, window, limit);
  }

  lemma {:induction false} WindowIsBounded(times: seq<real>, window: real, limit: nat, now: real)
    requires window > 0.0 && UpTo(times, now)
    ensures |Recent(Accepted(times, window, limit), now - window)| <= limit
  {
    if times != [] {
      var init := times[..|times| - 1];
      WindowIsBounded(init, window, limit, now);
      AcceptIsBounded(Accepted(init, window, limit), times[|times| - 1], window, limit, now);
    }
  }

  lemma AcceptIsBounded(before: seq<real>, t: real, window: real, limit: nat, now: real)
    requires t <= now && |Recent(before, now - window)| <= limit
    ensures |Recent(Accept(before, t, window, limit), now - window)| <= limit
  {
    var earlier, later := t - window, now - window;
    RecentNext(before, t, later);
    RecentShrinks(before, earlier, later);
  }

  lemma {:induction false} RecentShrinks(times: seq<real>, earlier: real, later: real)
    requires earlier <= later
    ensures |Recent(times, later)| <= |Recent(times, earlier)|
  {
    if times != [] { RecentShrinks(times[..|times| - 1], earlier, later); }
  }

  lemma {:induction false} RecentSuffix(times: seq<real>, cutoff: real, i: nat)
    requires Sorted(times) && i < |times| && times[i] > cutoff
    ensures |Recent(times, cutoff)| >= |times| - i
  {
    var init := times[..|times| - 1];
    if i < |init| { RecentSuffix(init, cutoff, i); }
  }

  /** The limit over all time: any accepted request and the limit-th accepted one before it are at least a window apart. */
  lemma {:induction false} AcceptedAreSpread(times: seq<real>, window: real, limit: nat, i: nat)
    requires window > 0.0 && Sorted(times) && i + limit < |Accepted(times, window, limit)|
    ensures Accepted(times, window, limit)[i + limit] - Accepted(times, window, limit)[i] >= window
  {
    var init, t := times[..|times| - 1], times[|times| - 1];
    var accepted := Accepted(init, window, limit);
    if i + limit < |accepted| {
      AcceptedAreSpread(init, window, limit, i);
    } else {
      AcceptedIsSorted(init, window, limit);
      if limit > 0 && accepted[i] > t - window { RecentSuffix(accepted, t - window, i); }
    }
  }

  /** No half-open window of that length, open at either end, holds more than `limit` accepted requests. */
  lemma NoWindowOverflows(times: seq<real>, window: real, limit: nat, i: nat, j: nat, x: real)
    requires window > 0.0 && Sorted(times) && i <= j < |Accepted(times, window, limit)|
    requires var a := Accepted(times, window, limit);
             (x < a[i] && a[j] <= x + window) || (x <= a[i] && a[j] < x + window)
    ensures j - i + 1 <= limit
  {
    var a := Accepted(times, window, limit);
    AcceptedIsSorted(times, window, limit);
    if i + limit <= j { AcceptedAreSpread(times, window, limit, i); }
  }

  /** The accepted requests from an instant on, that instant included. */
  function Since(times: seq<real>, from: real): seq<real> {
    if times == [] then []
    else
      var t := times[|times| - 1];
      Since(times[..|times| - 1], from) + if t >= from then [t] else []
  }

  lemma {:induction false} SinceReaches(times: seq<real>, from: real, i: nat)
    requires Sorted(times) && i < |times|
    ensures |Since(times, from)| >= |times| - i <==> times[i] >= from
    ensures |Since(times, from)| <= |times|
  {
    var init := times[..|times| - 1];
    if i < |init| {
      SinceReaches(init, from, i);
    } else {
      SinceIsPart(init, from);
      if init != [] && times[i] < from { NoneSince(init, from); }
    }
  }

  lemma {:induction false} SinceIsPart(times: seq<real>, from: real)
    ensures |Since(times, from)| <= |times|
  {
    if times != [] { SinceIsPart(times[..|times| - 1], from); }
  }

  lemma {:induction false} NoneSince(times: seq<real>, from: real)
    requires forall i | 0 <= i < |times| :: times[i] < from
    ensures Since(times, from) == []
  {
    if times != [] { NoneSince(times[..|times| - 1], from); }
  }

  /** The accepted requests of the window that ends with the request at `now` and is closed at both ends, after that request. */
  function InClosedWindow(times: seq<real>, now: real, window: real, limit: nat): seq<real> {
    Since(Accepted(times + [now], window, limit), now - window)
  }

  predicate HasRoom(accepted: seq<real>, t: real, window: real, limit: nat) { |Recent(accepted, t - window)| < limit }

  /** The limit-th last of the accepted requests is a whole window old at `now`, to the instant. */
  predicate WholeWindowOld(accepted: seq<real>, now: real, window: real, limit: nat) {
    0 < limit <= |accepted| && accepted[|accepted| - limit] == now - window
  }

  predicate Overfills(accepted: seq<real>, now: real, window: real, limit: nat) {
    |Since(accepted + [now], now - window)| > limit
  }

  /** Whether one more request on top of these overfills the closed window that ends with it. */
  lemma OneMoreSince(a: seq<real>, now: real, window: real, limit: nat)
    requires Sorted(a) && window > 0.0 && HasRoom(a, now, window, limit)
    ensures Overfills(a, now, window, limit) <==> WholeWindowOld(a, now, window, limit)
  {
    var from := now - window;
    assert (a + [now])[..|a|] == a;
    if |a| >= limit {
      var i := |a| - limit;
      SinceReaches(a, from, i);
      if a[i] > from { RecentSuffix(a, from, i); }
    } else {
      SinceIsPart(a, from);
    }
  }

  lemma AcceptedClosedWindow(times: seq<real>, now: real, window: real, limit: nat)
    requires HasRoom(Accepted(times, window, limit), now, window, limit)
    ensures |InClosedWindow(times, now, window, limit)| > limit <==> Overfills(Accepted(times, window, limit), now, window, limit)
  {
    AcceptedNext(times, now, window, limit);
  }

  /** An accepted request overfills the closed window that ends with it exactly when the limit-th last request accepted
      before it is a whole window old to the instant: entries leave the queue at the far end of the window. */
  lemma ClosedWindowsExactly(times: seq<real>, now: real, window: real, limit: nat)
    requires window > 0.0 && Sorted(times) && UpTo(times, now)
    requires !Admit(Queue(times, window, limit), now, window, limit).1
    ensures |InClosedWindow(times, now, window, limit)| > limit
            <==> WholeWindowOld(Accepted(times, window, limit), now, window, limit)
  {
    RefusedExactlyWhenFull(times, now, window, limit);
    AcceptedIsSorted(times, window, limit);
    AcceptedClosedWindow(times, now, window, limit);
    OneMoreSince(Accepted(times, window, limit), now, window, limit);
  }

  /** Never does a closed window hold more than twice the limit. */
  lemma ClosedWindowsAreBounded(times: seq<real>, now: real, window: real, limit: nat)
    requires window > 0.0 && Sorted(times) && UpTo(times, now)
    ensures |InClosedWindow(times, now, window, limit)| <= 2 * limit
  {
    var all := times + [now];
    var a := Accepted(all, window, limit);
    assert Sorted(all) && UpTo(all, now);
    AcceptedIsSorted(all, window, limit);
    AcceptedUpTo(all, window, limit, now);
    if |a| > 2 * limit {
      var i := |a| - 2 * limit - 1;
      AcceptedAreSpread(all, window, limit, i);
      AcceptedAreSpread(all, window, limit, i + limit);
      SinceReaches(a, now - window, i);
    } else {
      SinceIsPart(a, now - window);
    }
  }

  /** The first n of `limit` requests at one instant and `limit` more exactly a window later. */
  function Bursts(window: real, limit: nat, n: nat): seq<real> {
    if n == 0 then [] else Bursts(window, limit, n - 1) + [if n <= limit then 0.0 else window]
  }

  lemma {:induction false} BurstsAt(window: real, limit: nat, n: nat)
    ensures |Bursts(window, limit, n)| == n
    ensures forall i | 0 <= i < n :: Bursts(window, limit, n)[i] == if i < limit then 0.0 else window
  {
    if n > 0 { BurstsAt(window, limit, n - 1); }
  }

  lemma {:induction false} RecentOfBursts(window: real, limit: nat, n: nat, cutoff: real)
    requires window > 0.0
    ensures |Recent(Bursts(window, limit, n), 0.0)| == if n <= limit then 0 else n - limit
    ensures |Recent(Bursts(window, limit, n), cutoff)| <= n
  {
    if n > 0 {
      RecentOfBursts(window, limit, n - 1, cutoff);
      var t := if n <= limit then 0.0 else window;
      RecentNext(Bursts(window, limit, n - 1), t, 0.0);
      RecentNext(Bursts(window, limit, n - 1), t, cutoff);
    }
  }

  ghost predicate AllAccepted(times: seq<real>, window: real, limit: nat) { Accepted(times, window, limit) == times }

  lemma OneMoreAccepted(times: seq<real>, t: real, window: real, limit: nat)
    requires AllAccepted(times, window, limit) && HasRoom(times, t, window, limit)
    ensures AllAccepted(times + [t], window, limit)
  {
    AcceptedNext(times, t, window, limit);
  }

  lemma RoomInBursts(window: real, limit: nat, n: nat)
    requires window > 0.0
    ensures n < limit ==> HasRoom(Bursts(window, limit, n), 0.0, window, limit)
    ensures limit <= n < 2 * limit ==> HasRoom(Bursts(window, limit, n), window, window, limit)
  {
    assert window - window == 0.0;
    RecentOfBursts(window, limit, n, 0.0 - window);
  }

  lemma {:induction false} BurstsAreAccepted(window: real, limit: nat, n: nat)
    requires window > 0.0 && n <= 2 * limit
    ensures AllAccepted(Bursts(window, limit, n), window, limit)
  {
    if n > 0 {
      BurstsAreAccepted(window, limit, n - 1);
      RoomInBursts(window, limit, n - 1);
      OneMoreAccepted(Bursts(window, limit, n - 1), if n <= limit then 0.0 else window, window, limit);
    }
  }

  lemma {:induction false} AllSince(times: seq<real>, from: real)
    requires forall i | 0 <= i < |times| :: times[i] >= from
    ensures |Since(times, from)| == |times|
  {
    if times != [] { AllSince(times[..|times| - 1], from); }
  }

  /** And for every limit and window some closed window holds twice the limit: so many requests at one instant and
      as many a window later are all accepted. */
  lemma ClosedWindowMayHoldTwice(window: real, limit: nat)
    requires window > 0.0 && limit > 0
    ensures var times := Bursts(window, limit, 2 * limit - 1);
            && Sorted(times) && UpTo(times, window) && |InClosedWindow(times, window, window, limit)| == 2 * limit
  {
    BurstsAt(window, limit, 2 * limit - 1);
    BurstsAt(window, limit, 2 * limit);
    assert Bursts(window, limit, 2 * limit) == Bursts(window, limit, 2 * limit - 1) + [window];
    BurstsAreAccepted(window, limit, 2 * limit);
    assert window - window == 0.0;
    AllSince(Bursts(window, limit, 2 * limit), 0.0);
  }

  // ----- many keys -----

  datatype Request = Request(key: Key, at: real)

  function Run(requests: seq<Request>, window: real, limit: nat): Queues {
    if requests == [] then map[]
    else
      var before := Run(requests[..|requests| - 1], window, limit);
      var r := requests[|requests| - 1];
      before[r.key := Admit(QueueOf(before, r.key), r.at, window, limit).0]
  }

  function TimesOf(requests: seq<Request>, key: Key): seq<real> {
    if requests == [] then []
    else
      var r := requests[|requests| - 1];
      TimesOf(requests[..|requests| - 1], key) + if r.key == key then [r.at] else []
  }

  /** Keys do not disturb each other: each queue is what the key's own requests make of it. */
  lemma {:induction false} KeysAreIndependent(requests: seq<Request>, window: real, limit: nat, key: Key)
    ensures QueueOf(Run(requests, window, limit), key) == Queue(TimesOf(requests, key), window, limit)
  {
    if requests != [] {
      var init, r := requests[..|requests| - 1], requests[|requests| - 1];
      KeysAreIndependent(init, window, limit, key);
      var times := TimesOf(init, key);
      if r.key == key { QueueNext(times, r.at, window, limit); } else { assert times + [] == times; }
    }
  }
}
