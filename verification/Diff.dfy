/** The structural difference of two documents, and why it is a patch (RFC 6902, sections 4.1 to 4.3). */
module Diff {
  import opened Options
  import opened Json
  import opened Text
  import opened Redaction
  import opened Pointers

  datatype Change = Add(after: Json) | Remove(before: Json) | Replace(before: Json, after: Json)

  /** One line of the diff a client sees. */
  datatype Operation = Operation(pointer: string, change: Change)

  // ----- sorted(keys) -----

  predicate Least(k: string, keys: set<string>) {
    k in keys && forall j | j in keys :: LexLeq(k, j)
  }

  lemma {:induction false} LeastExists(keys: set<string>)
    requires keys != {}
    ensures exists k :: Least(k, keys)
    decreases |keys|
  {
    var x :| x in keys;
    LexTotal(x, x);
    if keys != {x} {
      var rest := keys - {x};
      assert rest != {};
      LeastExists(rest);
      var y :| Least(y, rest);
      LexTotal(x, y);
      if LexLeq(x, y) {
        forall j | j in keys ensures LexLeq(x, j) {
          if j != x { LexTransitive(x, y, j); }
        }
        assert Least(x, keys);
      } else {
        assert Least(y, keys);
      }
    } else {
      assert Least(x, keys);
    }
  }

  lemma LeastUnique(k: string, j: string, keys: set<string>)
    requires Least(k, keys) && Least(j, keys)
    ensures k == j
  {
    LexAntisymmetric(k, j);
  }

  function LeastKey(keys: set<string>): (k: string)
    requires keys != {}
    ensures Least(k, keys)
  {
    LeastExists(keys);
    assert forall k, j | Least(k, keys) && Least(j, keys) :: k == j by {
      forall k, j | Least(k, keys) && Least(j, keys) ensures k == j { LeastUnique(k, j, keys); }
    }
    var k :| k in keys && Least(k, keys);
    k
  }

  predicate StrictlySorted(s: seq<string>) {
    forall i, j | 0 <= i < j < |s| :: LexLeq(s[i], s[j]) && s[i] != s[j]
  }

  function SortedKeys(keys: set<string>): (s: seq<string>)
    ensures forall k :: k in s <==> k in keys
    ensures StrictlySorted(s)
    decreases |keys|
  {
    if keys == {} then []
    else
      var k := LeastKey(keys);
      [k] + SortedKeys(keys - {k})
  }

  // ----- the diff as it is printed -----

  function DiffDocuments(before: Json, after: Json, pointer: string): seq<Operation>
    decreases before, 1, 0
  {
    if before.Obj? && after.Obj? then
      DiffKeys(before, after, SortedKeys(before.fields.Keys + after.fields.Keys), pointer)
    else if before == after then []
    else [Operation(pointer, Replace(Redact(before), Redact(after)))]
  }

  function DiffKey(before: Json, after: Json, key: string, pointer: string): seq<Operation>
    requires before.Obj? && after.Obj? && key in before.fields.Keys + after.fields.Keys
    decreases before, 0, 0
  {
    var child := pointer + "/" + EncodePart(key);
    if key !in before.fields then [Operation(child, Add(Redact(after.fields[key])))]
    else if key !in after.fields then [Operation(child, Remove(Redact(before.fields[key])))]
    else DiffDocuments(before.fields[key], after.fields[key], child)
  }

  function DiffKeys(before: Json, after: Json, keys: seq<string>, pointer: string): seq<Operation>
    requires before.Obj? && after.Obj? && forall k | k in keys :: k in before.fields.Keys + after.fields.Keys
    decreases before, 0, |keys|
  {
    if keys == [] then []
    else DiffKeys(before, after, keys[..|keys| - 1], pointer) + DiffKey(before, after, keys[|keys| - 1], pointer)
  }

  lemma DiffKeysNext(before: Json, after: Json, keys: seq<string>, i: nat, pointer: string)
    requires before.Obj? && after.Obj? && (forall k | k in keys :: k in before.fields.Keys + after.fields.Keys) && i < |keys|
    ensures keys[i] in before.fields.Keys + after.fields.Keys
    ensures DiffKeys(before, after, keys[..i + 1], pointer)
         == DiffKeys(before, after, keys[..i], pointer) + DiffKey(before, after, keys[i], pointer)
  {
    assert keys[i] in keys;
    assert keys[..i + 1][..i] == keys[..i];
  }

  /** The recursive routine with its loop over the keys. */
  method ComputeDiff(before: Json, after: Json, pointer: string) returns (operations: seq<Operation>)
    ensures operations == DiffDocuments(before, after, pointer)
    decreases before
  {
    if before.Obj? && after.Obj? {
      operations := [];
      var keys := SortedKeys(before.fields.Keys + after.fields.Keys);
      for i := 0 to |keys|
        invariant operations == DiffKeys(before, after, keys[..i], pointer)
      {
        var key := keys[i];
        DiffKeysNext(before, after, keys, i, pointer);
        var child := pointer + "/" + EncodePart(key);
        if key !in before.fields {
          operations := operations + [Operation(child, Add(Redact(after.fields[key])))];
        } else if key !in after.fields {
          operations := operations + [Operation(child, Remove(Redact(before.fields[key])))];
        } else {
          var nested := ComputeDiff(before.fields[key], after.fields[key], child);
          operations := operations + nested;
        }
      }
      assert keys[..|keys|] == keys;
    } else if before == after {
      operations := [];
    } else {
      operations := [Operation(pointer, Replace(Redact(before), Redact(after)))];
    }
  }

  // ----- the same diff with paths instead of pointer text -----

  datatype Edit = Edit(path: seq<string>, change: Change)

  ghost function Under(key: string, edits: seq<Edit>): (r: seq<Edit>)
    ensures |r| == |edits|
  {
    seq(|edits|, i requires 0 <= i < |edits| => Edit([key] + edits[i].path, edits[i].change))
  }

  ghost function Edits(before: Json, after: Json): seq<Edit>
    decreases before, 1, 0
  {
    if before.Obj? && after.Obj? then
      EditsOfKeys(before, after, SortedKeys(before.fields.Keys + after.fields.Keys))
    else if before == after then []
    else [Edit([], Replace(Redact(before), Redact(after)))]
  }

  ghost function EditsOfKey(before: Json, after: Json, key: string): seq<Edit>
    requires before.Obj? && after.Obj? && key in before.fields.Keys + after.fields.Keys
    decreases before, 0, 0
  {
    if key !in before.fields then [Edit([key], Add(Redact(after.fields[key])))]
    else if key !in after.fields then [Edit([key], Remove(Redact(before.fields[key])))]
    else Under(key, Edits(before.fields[key], after.fields[key]))
  }

  ghost function EditsOfKeys(before: Json, after: Json, keys: seq<string>): seq<Edit>
    requires before.Obj? && after.Obj? && forall k | k in keys :: k in before.fields.Keys + after.fields.Keys
    decreases before, 0, |keys|
  {
    if keys == [] then []
    else EditsOfKeys(before, after, keys[..|keys| - 1]) + EditsOfKey(before, after, keys[|keys| - 1])
  }

  ghost function Printed(path: seq<string>, edits: seq<Edit>): (ops: seq<Operation>)
    ensures |ops| == |edits|
  {
    seq(|edits|, i requires 0 <= i < |edits| => Operation(Encode(path + edits[i].path), edits[i].change))
  }

  lemma EncodeStep(path: seq<string>, key: string)
    ensures Encode(path + [key]) == Encode(path) + "/" + EncodePart(key)
  {
    assert (path + [key])[..|path|] == path;
  }

  lemma {:induction false} DiffPrintsEdits(before: Json, after: Json, path: seq<string>)
    ensures DiffDocuments(before, after, Encode(path)) == Printed(path, Edits(before, after))
    decreases before, 1, 0
  {
    if before.Obj? && after.Obj? {
      DiffKeysPrintsEdits(before, after, SortedKeys(before.fields.Keys + after.fields.Keys), path);
    } else {
      assert path + [] == path;
    }
  }

  lemma {:induction false} DiffKeysPrintsEdits(before: Json, after: Json, keys: seq<string>, path: seq<string>)
    requires before.Obj? && after.Obj? && forall k | k in keys :: k in before.fields.Keys + after.fields.Keys
    ensures DiffKeys(before, after, keys, Encode(path)) == Printed(path, EditsOfKeys(before, after, keys))
    decreases before, 0, |keys|
  {
    if keys != [] {
      var key := keys[|keys| - 1];
      DiffKeysPrintsEdits(before, after, keys[..|keys| - 1], path);
      EncodeStep(path, key);
      if key in before.fields && key in after.fields {
        DiffPrintsEdits(before.fields[key], after.fields[key], path + [key]);
        PrintedUnder(path, key, Edits(before.fields[key], after.fields[key]));
      }
      PrintedConcat(path, EditsOfKeys(before, after, keys[..|keys| - 1]), EditsOfKey(before, after, key));
    }
  }

  lemma PrintedUnder(path: seq<string>, key: string, nested: seq<Edit>)
    ensures Printed(path, Under(key, nested)) == Printed(path + [key], nested)
  {
    forall i | 0 <= i < |nested|
      ensures Printed(path, Under(key, nested))[i] == Printed(path + [key], nested)[i]
    {
      assert path + ([key] + nested[i].path) == path + [key] + nested[i].path;
    }
  }

  lemma PrintedConcat(path: seq<string>, x: seq<Edit>, y: seq<Edit>)
    ensures Printed(path, x + y) == Printed(path, x) + Printed(path, y)
  {}

  // ----- applying -----

  /** Sections 4.1 to 4.3 of RFC 6902 on object members: add sets, remove and replace need the member. */
  function ApplyEdit(v: Json, path: seq<string>, change: Change): Option<Json>
    decreases |path|
  {
    if path == [] then
      match change
      case Add(x) => Some(x)
      case Replace(_, x) => Some(x)
      case Remove(_) => None
    else if !v.Obj? then None
    else if |path| > 1 then
      if path[0] !in v.fields then None
      else
        match ApplyEdit(v.fields[path[0]], path[1..], change)
        case None => None
        case Some(c) => Some(Obj(v.fields[path[0] := c]))
    else
      match change
      case Add(x) => Some(Obj(v.fields[path[0] := x]))
      case Replace(_, x) => if path[0] in v.fields then Some(Obj(v.fields[path[0] := x])) else None
      case Remove(_) => if path[0] in v.fields then Some(Obj(v.fields - {path[0]})) else None
  }

  function Apply(v: Json, op: Operation): Option<Json> {
    match Decode(op.pointer)
    case None => None
    case Some(path) => ApplyEdit(v, path, op.change)
  }

  function ApplyAll(v: Json, ops: seq<Operation>): Option<Json>
    decreases |ops|
  {
    if ops == [] then Some(v)
    else
      match Apply(v, ops[0])
      case None => None
      case Some(r) => ApplyAll(r, ops[1..])
  }

  ghost function ApplyEdits(v: Json, edits: seq<Edit>): Option<Json>
    decreases |edits|
  {
    if edits == [] then Some(v)
    else
      match ApplyEdit(v, edits[0].path, edits[0].change)
      case None => None
      case Some(r) => ApplyEdits(r, edits[1..])
  }

  lemma {:induction false} ApplyConcat(v: Json, x: seq<Edit>, y: seq<Edit>)
    ensures ApplyEdits(v, x + y) == (if ApplyEdits(v, x).Some? then ApplyEdits(ApplyEdits(v, x).value, y) else None)
    decreases |x|
  {
    if x == [] {
      assert x + y == y;
    } else {
      assert (x + y)[0] == x[0] && (x + y)[1..] == x[1..] + y;
      var r := ApplyEdit(v, x[0].path, x[0].change);
      if r.Some? { ApplyConcat(r.value, x[1..], y); }
    }
  }

  lemma PrintedFirst(edits: seq<Edit>)
    requires edits != []
    ensures Printed([], edits)[0].change == edits[0].change && Decode(Printed([], edits)[0].pointer) == Some(edits[0].path)
    ensures Printed([], edits)[1..] == Printed([], edits[1..])
  {
    PointerRoundTrip([] + edits[0].path);
    assert [] + edits[0].path == edits[0].path;
  }

  lemma {:induction false} ApplyPrinted(v: Json, edits: seq<Edit>)
    ensures ApplyAll(v, Printed([], edits)) == ApplyEdits(v, edits)
    decreases |edits|
  {
    if edits != [] {
      PrintedFirst(edits);
      var r := ApplyEdit(v, edits[0].path, edits[0].change);
      if r.Some? { ApplyPrinted(r.value, edits[1..]); }
    }
  }

  lemma {:induction false} ApplyUnder(v: Json, key: string, edits: seq<Edit>)
    requires v.Obj? && key in v.fields && ApplyEdits(v.fields[key], edits).Some?
    ensures ApplyEdits(v, Under(key, edits)) == Some(Obj(v.fields[key := ApplyEdits(v.fields[key], edits).value]))
    decreases |edits|
  {
    if edits == [] {
      assert v.fields[key := v.fields[key]] == v.fields;
    } else {
      var c := ApplyEdit(v.fields[key], edits[0].path, edits[0].change).value;
      var r := Obj(v.fields[key := c]);
      assert ([key] + edits[0].path)[1..] == edits[0].path;
      assert ApplyEdit(v, [key] + edits[0].path, edits[0].change) == Some(r);
      assert Under(key, edits)[1..] == Under(key, edits[1..]);
      ApplyUnder(r, key, edits[1..]);
      var last := ApplyEdits(c, edits[1..]).value;
      assert r.fields[key := last] == v.fields[key := last];
    }
  }

  /** What the diff lets a reader rebuild: the new document, with written parts redacted. */
  function Shown(before: Json, after: Json): Json
    decreases before, 1
  {
    if before.Obj? && after.Obj? then Obj(map k | k in after.fields :: ShownMember(before, after, k))
    else if before == after then before
    else Redact(after)
  }

  function ShownMember(before: Json, after: Json, key: string): Json
    requires before.Obj? && after.Obj? && key in after.fields
    decreases before, 0
  {
    if key in before.fields then Shown(before.fields[key], after.fields[key]) else Redact(after.fields[key])
  }

  /** The members of `now` for the processed keys are those of the rebuilt document, the others are untouched. */
  ghost predicate Halfway(before: Json, after: Json, done: seq<string>, now: Json)
    requires before.Obj? && after.Obj?
  {
    && now.Obj?
    && forall k :: MemberDone(before, after, k in done, now, k)
  }

  ghost predicate MemberDone(before: Json, after: Json, done: bool, now: Json, k: string)
    requires before.Obj? && after.Obj? && now.Obj?
  {
    if done then (k in now.fields <==> k in after.fields) && (k in now.fields ==> now.fields[k] == ShownMember(before, after, k))
    else (k in now.fields <==> k in before.fields) && (k in now.fields ==> now.fields[k] == before.fields[k])
  }

  lemma AllDone(before: Json, after: Json, keys: seq<string>, now: Json)
    requires before.Obj? && after.Obj? && Halfway(before, after, keys, now)
    requires forall k :: k in keys <==> k in before.fields.Keys + after.fields.Keys
    ensures now == Shown(before, after)
  {
    var shown := Shown(before, after);
    forall k ensures k in now.fields <==> k in shown.fields
             ensures k in now.fields ==> now.fields[k] == shown.fields[k]
    {
      assert MemberDone(before, after, k in keys, now, k);
    }
    assert now.fields == shown.fields;
  }

  lemma {:induction false} EditsRebuild(before: Json, after: Json)
    ensures ApplyEdits(before, Edits(before, after)) == Some(Shown(before, after))
    decreases before, 1, 0
  {
    if before.Obj? && after.Obj? {
      var keys := SortedKeys(before.fields.Keys + after.fields.Keys);
      EditsOfKeysRebuild(before, after, keys);
      AllDone(before, after, keys, ApplyEdits(before, EditsOfKeys(before, after, keys)).value);
    } else if before != after {
      var edits := Edits(before, after);
      assert ApplyEdits(Redact(after), edits[1..]) == Some(Redact(after));
    }
  }

  lemma KeyRebuilds(before: Json, after: Json, done: seq<string>, mid: Json, key: string)
    requires before.Obj? && after.Obj? && key in before.fields.Keys + after.fields.Keys
    requires key !in done && Halfway(before, after, done, mid)
    requires key in before.fields && key in after.fields ==>
      ApplyEdits(before.fields[key], Edits(before.fields[key], after.fields[key]))
      == Some(Shown(before.fields[key], after.fields[key]))
    ensures var r := ApplyEdits(mid, EditsOfKey(before, after, key));
            r.Some? && Halfway(before, after, done + [key], r.value)
  {
    assert MemberDone(before, after, key in done, mid, key);
    var edits := EditsOfKey(before, after, key);
    var r;
    if key in before.fields && key in after.fields {
      ApplyUnder(mid, key, Edits(before.fields[key], after.fields[key]));
      r := Obj(mid.fields[key := ShownMember(before, after, key)]);
    } else {
      r := ApplyEdit(mid, [key], edits[0].change).value;
      assert ApplyEdits(r, edits[1..]) == Some(r);
    }
    assert ApplyEdits(mid, edits) == Some(r);
    forall k ensures MemberDone(before, after, k in done + [key], r, k) {
      assert MemberDone(before, after, k in done, mid, k);
    }
  }

  lemma {:induction false} EditsOfKeysRebuild(before: Json, after: Json, keys: seq<string>)
    requires before.Obj? && after.Obj? && StrictlySorted(keys)
    requires forall k | k in keys :: k in before.fields.Keys + after.fields.Keys
    ensures var r := ApplyEdits(before, EditsOfKeys(before, after, keys));
            r.Some? && Halfway(before, after, keys, r.value)
    decreases before, 0, |keys|
  {
    if keys != [] {
      var init, key := keys[..|keys| - 1], keys[|keys| - 1];
      assert keys == init + [key] && key !in init;
      EditsOfKeysRebuild(before, after, init);
      var mid := ApplyEdits(before, EditsOfKeys(before, after, init)).value;
      if key in before.fields && key in after.fields {
        EditsRebuild(before.fields[key], after.fields[key]);
      }
      KeyRebuilds(before, after, init, mid, key);
      ApplyConcat(before, EditsOfKeys(before, after, init), EditsOfKey(before, after, key));
    }
  }

  /** Applying the printed diff to the old document rebuilds the new one up to redaction, for any two documents. */
  lemma DiffRebuilds(before: Json, after: Json)
    ensures ApplyAll(before, DiffDocuments(before, after, "")) == Some(Shown(before, after))
  {
    DiffPrintsEdits(before, after, []);
    ApplyPrinted(before, Edits(before, after));
    EditsRebuild(before, after);
  }

  lemma {:induction false} ShownMasked(before: Json, after: Json)
    requires Masked(after)
    ensures Shown(before, after) == after
    decreases before
  {
    if before.Obj? && after.Obj? {
      var r := Shown(before, after);
      forall k | k in after.fields ensures r.fields[k] == after.fields[k] {
        RedactIdentity(after.fields[k]);
        if k in before.fields && !IsSecretKey(k) {
          ShownMasked(before.fields[k], after.fields[k]);
        }
        assert r.fields[k] == ShownMember(before, after, k);
      }
      assert r.fields == after.fields;
    } else {
      RedactIdentity(after);
    }
  }

  /** The diff of two validated documents is a patch: it turns the old one into the new one exactly. */
  lemma DiffIsAPatch(before: Json, after: Json)
    requires FindForbiddenSecretKeys(after) == {}
    ensures ApplyAll(before, DiffDocuments(before, after, "")) == Some(after)
  {
    DiffRebuilds(before, after);
    CleanIsMasked(after);
    ShownMasked(before, after);
  }

  // ----- empty exactly for equal documents -----

  lemma {:induction false} EditsEmpty(before: Json, after: Json)
    ensures Edits(before, after) == [] <==> before == after
    decreases before, 1, 0
  {
    if before.Obj? && after.Obj? {
      var keys := SortedKeys(before.fields.Keys + after.fields.Keys);
      EditsOfKeysEmpty(before, after, keys);
      if forall k | k in keys :: k in before.fields && k in after.fields && before.fields[k] == after.fields[k] {
        forall k ensures k in before.fields <==> k in after.fields {
          assert k in keys <==> k in before.fields.Keys + after.fields.Keys;
        }
        assert before.fields == after.fields;
      }
    }
  }

  lemma {:induction false} EditsOfKeysEmpty(before: Json, after: Json, keys: seq<string>)
    requires before.Obj? && after.Obj? && forall k | k in keys :: k in before.fields.Keys + after.fields.Keys
    ensures EditsOfKeys(before, after, keys) == [] <==>
            forall k | k in keys :: k in before.fields && k in after.fields && before.fields[k] == after.fields[k]
    decreases before, 0, |keys|
  {
    if keys != [] {
      var init, key := keys[..|keys| - 1], keys[|keys| - 1];
      assert keys == init + [key];
      EditsOfKeysEmpty(before, after, init);
      if key in before.fields && key in after.fields {
        EditsEmpty(before.fields[key], after.fields[key]);
      }
    }
  }

  lemma DiffEmptyIffEqual(before: Json, after: Json)
    ensures DiffDocuments(before, after, "") == [] <==> before == after
  {
    DiffPrintsEdits(before, after, []);
    EditsEmpty(before, after);
    assert |DiffDocuments(before, after, "")| == |Edits(before, after)|;
  }

  // ----- order and independence of the operations -----

  /** Where the paths part, p takes the smaller key. */
  predicate Precedes(p: seq<string>, q: seq<string>)
    decreases |p|
  {
    && p != [] && q != []
    && if p[0] == q[0] then Precedes(p[1..], q[1..]) else LexLeq(p[0], q[0])
  }

  lemma {:induction false} PrecedesDiverges(p: seq<string>, q: seq<string>)
    requires Precedes(p, q)
    ensures Diverge(p, q)
    decreases |p|
  {
    if p[0] == q[0] {
      PrecedesDiverges(p[1..], q[1..]);
      assert p == [p[0]] + p[1..] && q == [q[0]] + q[1..];
    }
  }

  ghost predicate InOrder(edits: seq<Edit>) {
    forall i, j | 0 <= i < j < |edits| :: Precedes(edits[i].path, edits[j].path)
  }

  lemma {:induction false} EditsInOrder(before: Json, after: Json)
    ensures InOrder(Edits(before, after))
    decreases before, 1, 0
  {
    if before.Obj? && after.Obj? {
      EditsOfKeysInOrder(before, after, SortedKeys(before.fields.Keys + after.fields.Keys));
    }
  }

  /** Every path begins with one of the keys. */
  ghost predicate Beneath(edits: seq<Edit>, keys: seq<string>) {
    forall i | 0 <= i < |edits| :: edits[i].path != [] && edits[i].path[0] in keys
  }

  lemma {:induction false} EditsOfKeyInOrder(before: Json, after: Json, key: string)
    requires before.Obj? && after.Obj? && key in before.fields.Keys + after.fields.Keys
    ensures InOrder(EditsOfKey(before, after, key)) && Beneath(EditsOfKey(before, after, key), [key])
    decreases before, 0, 0
  {
    if key in before.fields && key in after.fields {
      var nested, y := Edits(before.fields[key], after.fields[key]), EditsOfKey(before, after, key);
      EditsInOrder(before.fields[key], after.fields[key]);
      forall i, j | 0 <= i < j < |y| ensures Precedes(y[i].path, y[j].path) {
        assert y[i].path[1..] == nested[i].path && y[j].path[1..] == nested[j].path;
      }
    }
  }

  lemma LaterKeyFollows(x: seq<Edit>, y: seq<Edit>, keys: seq<string>, key: string)
    requires InOrder(x) && Beneath(x, keys) && InOrder(y) && Beneath(y, [key]) && StrictlySorted(keys + [key])
    ensures InOrder(x + y) && Beneath(x + y, keys + [key])
  {
    forall i, j | 0 <= i < |x| && 0 <= j < |y| ensures Precedes(x[i].path, y[j].path) {
      var n :| 0 <= n < |keys| && keys[n] == x[i].path[0];
      assert (keys + [key])[n] == keys[n] && (keys + [key])[|keys|] == key;
    }
  }

  lemma {:induction false} EditsOfKeysInOrder(before: Json, after: Json, keys: seq<string>)
    requires before.Obj? && after.Obj? && StrictlySorted(keys)
    requires forall k | k in keys :: k in before.fields.Keys + after.fields.Keys
    ensures InOrder(EditsOfKeys(before, after, keys)) && Beneath(EditsOfKeys(before, after, keys), keys)
    decreases before, 0, |keys|
  {
    if keys != [] {
      var init, key := keys[..|keys| - 1], keys[|keys| - 1];
      assert keys == init + [key];
      EditsOfKeysInOrder(before, after, init);
      EditsOfKeyInOrder(before, after, key);
      LaterKeyFollows(EditsOfKeys(before, after, init), EditsOfKey(before, after, key), init, key);
    }
  }

  /** Operations come in key order, and no operation's place lies inside another's. */
  lemma OperationsAreIndependent(before: Json, after: Json, i: nat, j: nat)
    requires i < j < |DiffDocuments(before, after, "")|
    ensures var ops := DiffDocuments(before, after, "");
            var p, q := Decode(ops[i].pointer), Decode(ops[j].pointer);
            p.Some? && q.Some? && Precedes(p.value, q.value) && Diverge(p.value, q.value)
  {
    DiffPrintsEdits(before, after, []);
    EditsInOrder(before, after);
    var edits := Edits(before, after);
    PointerRoundTrip([] + edits[i].path);
    PointerRoundTrip([] + edits[j].path);
    assert [] + edits[i].path == edits[i].path && [] + edits[j].path == edits[j].path;
    PrecedesDiverges(edits[i].path, edits[j].path);
  }

  // ----- what an operation says about the two documents -----

  ghost function Keys(path: seq<string>): (steps: seq<Step>)
    ensures |steps| == |path|
  {
    seq(|path|, i requires 0 <= i < |path| => Key(path[i]))
  }

  /** The operation reports, redacted, what is at its place before and after, and the two differ. */
  ghost predicate Reports(before: Json, after: Json, path: seq<string>, change: Change) {
    var was := Read(before, Keys(path));
    var now := Read(after, Keys(path));
    match change
    case Add(x) => was.None? && now.Some? && x == Redact(now.value)
    case Remove(x) => was.Some? && now.None? && x == Redact(was.value)
    case Replace(x, y) =>
      && was.Some? && now.Some? && was != now && !(was.value.Obj? && now.value.Obj?)
      && x == Redact(was.value) && y == Redact(now.value)
  }

  lemma {:induction false} EditsReport(before: Json, after: Json)
    ensures forall e | e in Edits(before, after) :: Reports(before, after, e.path, e.change)
    decreases before, 1, 0
  {
    if before.Obj? && after.Obj? {
      EditsOfKeysReport(before, after, SortedKeys(before.fields.Keys + after.fields.Keys));
    }
  }

  lemma {:induction false} EditsOfKeysReport(before: Json, after: Json, keys: seq<string>)
    requires before.Obj? && after.Obj? && forall k | k in keys :: k in before.fields.Keys + after.fields.Keys
    ensures forall e | e in EditsOfKeys(before, after, keys) :: Reports(before, after, e.path, e.change)
    decreases before, 0, |keys| + 1
  {
    if keys != [] {
      EditsOfKeysReport(before, after, keys[..|keys| - 1]);
      EditsOfKeyReport(before, after, keys[|keys| - 1]);
    }
  }

  lemma ReadMember(v: Json, key: string)
    requires v.Obj?
    ensures Read(v, Keys([key])) == if key in v.fields then Some(v.fields[key]) else None
  {
    assert Keys([key]) == [Key(key)] && Keys([key])[1..] == [];
    if key in v.fields { assert Read(v.fields[key], []) == Some(v.fields[key]); }
  }

  /** What an operation below a member reports, it reports of the whole document. */
  lemma MemberReports(before: Json, after: Json, key: string, path: seq<string>, change: Change)
    requires before.Obj? && after.Obj? && key in before.fields && key in after.fields
    requires Reports(before.fields[key], after.fields[key], path, change)
    ensures Reports(before, after, [key] + path, change)
  {
    assert Keys([key] + path) == [Key(key)] + Keys(path);
    assert Keys([key] + path)[1..] == Keys(path);
    assert Child(before, Key(key)) == before.fields[key] && Child(after, Key(key)) == after.fields[key];
  }

  lemma {:induction false} MemberEditsReport(before: Json, after: Json, key: string)
    requires before.Obj? && after.Obj? && key in before.fields && key in after.fields
    ensures forall e | e in EditsOfKey(before, after, key) :: Reports(before, after, e.path, e.change)
    decreases before, 0, 0
  {
    EditsReport(before.fields[key], after.fields[key]);
    var nested := Edits(before.fields[key], after.fields[key]);
    forall e | e in EditsOfKey(before, after, key) ensures Reports(before, after, e.path, e.change) {
      var i :| 0 <= i < |nested| && e == Edit([key] + nested[i].path, nested[i].change);
      assert nested[i] in nested;
      MemberReports(before, after, key, nested[i].path, nested[i].change);
    }
  }

  lemma {:induction false} EditsOfKeyReport(before: Json, after: Json, key: string)
    requires before.Obj? && after.Obj? && key in before.fields.Keys + after.fields.Keys
    ensures forall e | e in EditsOfKey(before, after, key) :: Reports(before, after, e.path, e.change)
    decreases before, 0, 1
  {
    if key in before.fields && key in after.fields {
      MemberEditsReport(before, after, key);
    } else {
      ReadMember(before, key);
      ReadMember(after, key);
      assert EditsOfKey(before, after, key)[0].path == [key];
    }
  }

  lemma OperationsReport(before: Json, after: Json, i: nat)
    requires i < |DiffDocuments(before, after, "")|
    ensures var op := DiffDocuments(before, after, "")[i];
            Decode(op.pointer).Some? && Reports(before, after, Decode(op.pointer).value, op.change)
  {
    DiffPrintsEdits(before, after, []);
    EditsReport(before, after);
    var e := Edits(before, after)[i];
    assert e in Edits(before, after) && [] + e.path == e.path;
    PointerRoundTrip([] + e.path);
  }
}
