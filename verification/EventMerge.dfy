/** The studio's merge of event batches: one entry per event id, by sequence and then by id. */
module EventMerge {
  import opened RunEvents

  /** How localeCompare orders two ids: at most, or not. */
  type IdOrder = (Uuid, Uuid) -> bool

  ghost predicate TotalOrder(leq: IdOrder) {
    && (forall a, b :: leq(a, b) || leq(b, a))
    && (forall a, b :: leq(a, b) && leq(b, a) ==> a == b)
    && (forall a, b, c :: leq(a, b) && leq(b, c) ==> leq(a, c))
  }

  function IndexOf(values: seq<Event>, id: Uuid): (k: nat)
    ensures k <= |values| && (k < |values| ==> values[k].id == id)
    ensures forall i | 0 <= i < k :: values[i].id != id
  {
    if values == [] || values[0].id == id then 0 else 1 + IndexOf(values[1..], id)
  }

  predicate Has(values: seq<Event>, id: Uuid) { exists k :: 0 <= k < |values| && values[k].id == id }

  /** Map.set: a known key keeps its place and takes the new value. */
  function Put(values: seq<Event>, e: Event): seq<Event> {
    var k := IndexOf(values, e.id);
    if k < |values| then values[k := e] else values + [e]
  }

  function FromExisting(existing: seq<Event>): seq<Event> {
    if existing == [] then [] else Put(FromExisting(existing[..|existing| - 1]), existing[|existing| - 1])
  }

  function AddMissing(values: seq<Event>, incoming: seq<Event>): seq<Event> {
    if incoming == [] then values
    else
      var before := AddMissing(values, incoming[..|incoming| - 1]);
      var e := incoming[|incoming| - 1];
      if Has(before, e.id) then before else before + [e]
  }

  predicate Precedes(a: Event, b: Event, leq: IdOrder) {
    a.sequence < b.sequence || (a.sequence == b.sequence && leq(a.id, b.id))
  }

  function Insert(e: Event, sorted: seq<Event>, leq: IdOrder): seq<Event> {
    if sorted == [] || Precedes(e, sorted[0], leq) then [e] + sorted
    else [sorted[0]] + Insert(e, sorted[1..], leq)
  }

  function Sort(values: seq<Event>, leq: IdOrder): seq<Event> {
    if values == [] then [] else Insert(values[0], Sort(values[1..], leq), leq)
  }

  function Merge(existing: seq<Event>, incoming: seq<Event>, leq: IdOrder): seq<Event> {
    Sort(AddMissing(FromExisting(existing), incoming), leq)
  }

  method MergeRunEvents(existing: seq<Event>, incoming: seq<Event>, leq: IdOrder) returns (merged: seq<Event>)
    ensures merged == Merge(existing, incoming, leq)
  {
    var byId := FromExisting(existing);
    for k := 0 to |incoming|
      invariant byId == AddMissing(FromExisting(existing), incoming[..k])
    {
      assert incoming[..k + 1][..k] == incoming[..k];
      if !Has(byId, incoming[k].id) {
        byId := Put(byId, incoming[k]);
      }
    }
    assert incoming[..|incoming|] == incoming;
    merged := Sort(byId, leq);
  }

  // ----- what a merge contains -----

  /** Events that come from one log: an id always stands for the same event. */
  ghost predicate OneLog(events: seq<Event>) {
    forall i, j | 0 <= i < |events| && 0 <= j < |events| && events[i].id == events[j].id :: events[i] == events[j]
  }

  ghost predicate SameElements(s: seq<Event>, t: seq<Event>) { forall e :: e in s <==> e in t }

  ghost predicate NoTwoIds(values: seq<Event>) {
    forall i, j | 0 <= i < j < |values| :: values[i].id != values[j].id
  }

  ghost predicate StrictlySorted(values: seq<Event>, leq: IdOrder) {
    NoTwoIds(values) && forall i, j | 0 <= i < j < |values| :: Precedes(values[i], values[j], leq)
  }

  lemma {:induction false} FromExistingKeeps(existing: seq<Event>)
    requires OneLog(existing)
    ensures NoTwoIds(FromExisting(existing)) && SameElements(FromExisting(existing), existing)
  {
    if existing != [] {
      var init, e := existing[..|existing| - 1], existing[|existing| - 1];
      assert forall k | 0 <= k < |init| :: init[k] == existing[k];
      FromExistingKeeps(init);
      var values := FromExisting(init);
      var k := IndexOf(values, e.id);
      assert existing == init + [e];
      if k < |values| {
        assert values[k] in init && e in existing;
        assert values[k := e] == values;
      }
    }
  }

  lemma {:induction false} AddMissingKeeps(values: seq<Event>, incoming: seq<Event>)
    requires NoTwoIds(values) && OneLog(values + incoming)
    ensures NoTwoIds(AddMissing(values, incoming)) && SameElements(AddMissing(values, incoming), values + incoming)
  {
    if incoming == [] {
      assert values + incoming == values;
    } else {
      var init, e := incoming[..|incoming| - 1], incoming[|incoming| - 1];
      var all := values + incoming;
      assert all == (values + init) + [e];
      assert forall k | 0 <= k < |values + init| :: (values + init)[k] == all[k];
      AddMissingKeeps(values, init);
      var before := AddMissing(values, init);
      if Has(before, e.id) {
        var k :| 0 <= k < |before| && before[k].id == e.id;
        assert before[k] in all && e in all;
      }
    }
  }

  lemma PrecedesTotal(a: Event, b: Event, leq: IdOrder)
    requires TotalOrder(leq)
    ensures Precedes(a, b, leq) || Precedes(b, a, leq)
  {
    assert leq(a.id, b.id) || leq(b.id, a.id);
  }

  lemma PrecedesTransitive(a: Event, b: Event, c: Event, leq: IdOrder)
    requires TotalOrder(leq) && Precedes(a, b, leq) && Precedes(b, c, leq)
    ensures Precedes(a, c, leq)
  {
    if a.sequence == b.sequence == c.sequence { assert leq(a.id, b.id) && leq(b.id, c.id); }
  }

  lemma PrecedesAntisymmetric(a: Event, b: Event, leq: IdOrder)
    requires TotalOrder(leq) && Precedes(a, b, leq) && Precedes(b, a, leq)
    ensures a.id == b.id
  {
    assert leq(a.id, b.id) && leq(b.id, a.id);
  }

  lemma {:induction false} InsertKeeps(e: Event, sorted: seq<Event>, leq: IdOrder)
    requires TotalOrder(leq) && StrictlySorted(sorted, leq) && !Has(sorted, e.id)
    ensures StrictlySorted(Insert(e, sorted, leq), leq) && SameElements(Insert(e, sorted, leq), [e] + sorted)
  {
    var r := Insert(e, sorted, leq);
    if sorted == [] {
    } else if Precedes(e, sorted[0], leq) {
      forall j | 0 < j < |r| ensures Precedes(r[0], r[j], leq) {
        if j > 1 { PrecedesTransitive(e, sorted[0], sorted[j - 1], leq); }
      }
    } else {
      var rest := sorted[1..];
      assert forall k | 0 <= k < |rest| :: rest[k] == sorted[k + 1];
      InsertKeeps(e, rest, leq);
      PrecedesTotal(e, sorted[0], leq);
      var more := Insert(e, rest, leq);
      forall j | 0 <= j < |more| ensures Precedes(sorted[0], more[j], leq) && sorted[0].id != more[j].id {
        assert more[j] in [e] + rest;
      }
      assert sorted == [sorted[0]] + rest;
    }
  }

  lemma {:induction false} SortKeeps(values: seq<Event>, leq: IdOrder)
    requires TotalOrder(leq) && NoTwoIds(values)
    ensures StrictlySorted(Sort(values, leq), leq) && SameElements(Sort(values, leq), values)
  {
    if values != [] {
      var rest := values[1..];
      assert forall k | 0 <= k < |rest| :: rest[k] == values[k + 1];
      SortKeeps(rest, leq);
      var sorted := Sort(rest, leq);
      forall k | 0 <= k < |sorted| ensures sorted[k].id != values[0].id { assert sorted[k] in rest; }
      InsertKeeps(values[0], sorted, leq);
      assert values == [values[0]] + rest;
    }
  }

  /** A merge of events of one log is sorted, free of duplicates, and contains exactly the events of both batches. */
  lemma MergeIsUnion(existing: seq<Event>, incoming: seq<Event>, leq: IdOrder)
    requires TotalOrder(leq) && OneLog(existing + incoming)
    ensures StrictlySorted(Merge(existing, incoming, leq), leq)
    ensures SameElements(Merge(existing, incoming, leq), existing + incoming)
  {
    var all := existing + incoming;
    assert forall k | 0 <= k < |existing| :: existing[k] == all[k];
    FromExistingKeeps(existing);
    var values := FromExisting(existing);
    OneLogOf(all, values + incoming);
    AddMissingKeeps(values, incoming);
    SortKeeps(AddMissing(values, incoming), leq);
  }

  lemma OneLogOf(all: seq<Event>, some: seq<Event>)
    requires OneLog(all) && forall e :: e in some ==> e in all
    ensures OneLog(some)
  {
    forall i, j | 0 <= i < |some| && 0 <= j < |some| && some[i].id == some[j].id ensures some[i] == some[j] {
      assert some[i] in all && some[j] in all;
    }
  }

  lemma BothFilled(s: seq<Event>, t: seq<Event>)
    requires SameElements(s, t) && t != []
    ensures s != []
  {
    assert t[0] in s;
  }

  /** Sorted lists without duplicates are determined by their elements. */
  lemma {:induction false} SortedIsUnique(s: seq<Event>, t: seq<Event>, leq: IdOrder)
    requires TotalOrder(leq) && StrictlySorted(s, leq) && StrictlySorted(t, leq) && SameElements(s, t)
    ensures s == t
  {
    if s == [] {
      if t != [] { BothFilled(s, t); }
    } else {
      assert s[0] in t;
      FirstIsSame(s, t, leq);
      assert s == [s[0]] + s[1..] && t == [t[0]] + t[1..];
      forall e ensures e in s[1..] <==> e in t[1..] {
        assert e in s[1..] ==> e in t && e.id != s[0].id;
        assert e in t[1..] ==> e in s && e.id != t[0].id;
      }
      SortedIsUnique(s[1..], t[1..], leq);
    }
  }

  lemma FirstIsSame(s: seq<Event>, t: seq<Event>, leq: IdOrder)
    requires TotalOrder(leq) && StrictlySorted(s, leq) && StrictlySorted(t, leq) && SameElements(s, t)
    requires s != [] && t != []
    ensures s[0] == t[0]
  {
    assert s[0] in t && t[0] in s;
    var i :| 0 <= i < |t| && t[i] == s[0];
    var j :| 0 <= j < |s| && s[j] == t[0];
    if i > 0 && j > 0 { PrecedesAntisymmetric(s[0], t[0], leq); }
  }

  /** Merging depends only on which events there are: not on their order, on overlaps, or on which batch came first. */
  lemma MergeDependsOnElements(
    e1: seq<Event>, i1: seq<Event>, e2: seq<Event>, i2: seq<Event>, leq: IdOrder)
    requires TotalOrder(leq) && OneLog(e1 + i1) && SameElements(e1 + i1, e2 + i2)
    ensures Merge(e1, i1, leq) == Merge(e2, i2, leq)
  {
    OneLogOf(e1 + i1, e2 + i2);
    MergeIsUnion(e1, i1, leq);
    MergeIsUnion(e2, i2, leq);
    assert forall e :: e in Merge(e1, i1, leq) <==> e in e1 + i1;
    SortedIsUnique(Merge(e1, i1, leq), Merge(e2, i2, leq), leq);
  }

  /** Batches of one log merge to the same list in either order and either grouping, and merging again changes nothing. */
  lemma MergeLaws(a: seq<Event>, b: seq<Event>, c: seq<Event>, leq: IdOrder)
    requires TotalOrder(leq) && OneLog(a + b + c)
    ensures Merge(a, b, leq) == Merge(b, a, leq)
    ensures Merge(Merge(a, b, leq), c, leq) == Merge(a, Merge(b, c, leq), leq)
    ensures Merge(Merge(a, b, leq), b, leq) == Merge(a, b, leq)
  {
    var all := a + b + c;
    OneLogOf(all, a + b);
    OneLogOf(all, b + c);
    MergeDependsOnElements(a, b, b, a, leq);
    MergeIsUnion(a, b, leq);
    MergeIsUnion(b, c, leq);
    OneLogOf(all, Merge(a, b, leq) + c);
    MergeDependsOnElements(Merge(a, b, leq), c, a, Merge(b, c, leq), leq);
    OneLogOf(all, Merge(a, b, leq) + b);
    MergeDependsOnElements(Merge(a, b, leq), b, a, b, leq);
  }

  // ----- merging pieces of a chained log -----

  lemma ChainedIsOneLog(run: Uuid, request: Uuid, log: seq<Event>, leq: IdOrder)
    requires Chained(run, request, log)
    ensures OneLog(log) && StrictlySorted(log, leq)
  {
    forall i, j | 0 <= i < j < |log| ensures log[i].id != log[j].id && Precedes(log[i], log[j], leq) {
      if log[i].id == log[j].id { ChainedIdsDiffer(run, request, log, i, j); }
      assert Linked(run, request, log, i) && Linked(run, request, log, j);
    }
  }

  /** A prefix of a log and any overlapping or adjoining later slice merge to the longer prefix. */
  lemma MergeExtendsPrefix(run: Uuid, request: Uuid, log: seq<Event>, m: nat, i: nat, n: nat, leq: IdOrder)
    requires TotalOrder(leq) && Chained(run, request, log)
    requires i <= m <= |log| && i <= n <= |log|
    ensures Merge(log[..m], log[i..n], leq) == log[..if m > n then m else n]
  {
    var top := if m > n then m else n;
    var part := log[..top];
    ChainedPrefix(run, request, log, part);
    ChainedIsOneLog(run, request, part, leq);
    assert forall k | 0 <= k < m :: log[..m][k] == part[k];
    assert forall k | 0 <= k < n - i :: log[i..n][k] == part[i + k];
    assert forall e :: e in log[..m] + log[i..n] ==> e in part;
    forall k | 0 <= k < top ensures part[k] in log[..m] + log[i..n] {
      if k < m { assert log[..m][k] == part[k]; } else { assert log[i..n][k - i] == part[k]; }
    }
    OneLogOf(part, log[..m] + log[i..n]);
    MergeIsUnion(log[..m], log[i..n], leq);
    SortedIsUnique(Merge(log[..m], log[i..n], leq), part, leq);
  }
}
