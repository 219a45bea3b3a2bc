/** What holds of an agent's versions, pointer, draft and ledger after any sequence of operations by any number of callers. */
module Ledger {
  import opened Options
  import opened Json
  import opened Publishing

  datatype Move =
    | Import(id: nat, spec: Json, digest: string, note: Json)
    | Activation(id: nat, expected: Option<nat>)
    | DraftCreation(id: nat, layout: Json)
    | DraftUpdate(revision: nat, spec: Json, digest: string, layout: Json)
    | Publishing(id: nat, revision: nat, expected: Option<nat>, check: Check, keyTaken: bool)
    | RollingBack(target: nat, from: nat)

  function Do(a: Agent, move: Move): (Agent, Outcome) {
    match move
    case Import(id, spec, digest, note) => Store(a, id, spec, digest, Imported(note))
    case Activation(id, expected) => Activate(a, id, expected)
    case DraftCreation(id, layout) => CreateDraft(a, id, layout)
    case DraftUpdate(expected, spec, digest, layout) => UpdateDraft(a, expected, spec, digest, layout)
    case Publishing(id, revision, expected, check, keyTaken) => PublishDraft(a, id, revision, expected, check, keyTaken)
    case RollingBack(target, expected) => RollBack(a, target, expected)
  }

  function Run(a: Agent, moves: seq<Move>): Agent
    decreases |moves|
  {
    if moves == [] then a else Do(Run(a, moves[..|moves| - 1]), moves[|moves| - 1]).0
  }

  lemma RunGoesOn(a: Agent, moves: seq<Move>, move: Move)
    ensures Run(a, moves + [move]) == Do(Run(a, moves), move).0
  {
    assert (moves + [move])[..|moves|] == moves;
  }

  // ----- what every operation keeps -----

  /** Numbers are 1..n in order; no two versions share a digest or an id. */
  ghost predicate VersionsKept(versions: seq<Version>) {
    && (forall k | 0 <= k < |versions| :: versions[k].number == k + 1)
    && (forall i, j | 0 <= i < j < |versions| ::
          versions[i].digest != versions[j].digest && versions[i].id != versions[j].id)
  }

  ghost predicate Has(versions: seq<Version>, id: nat, digest: string) {
    exists v :: v in versions && v.id == id && v.digest == digest
  }

  ghost predicate HasId(versions: seq<Version>, id: nat) { exists v :: v in versions && v.id == id }

  ghost predicate HasDigest(versions: seq<Version>, digest: string) { exists v :: v in versions && v.digest == digest }

  /** Each event starts from what its predecessor selected. */
  ghost predicate Chained(ledger: seq<PublicationEvent>) {
    forall k | 0 < k < |ledger| :: ledger[k].previous == Some(ledger[k - 1].selected)
  }

  /** Only a first publication may select what was already selected. */
  ghost predicate Moving(ledger: seq<PublicationEvent>) {
    forall k | 0 <= k < |ledger| && ledger[k].previous == Some(ledger[k].selected) ::
      ledger[k].kind.Publish? && !HasPublished(ledger[..k])
  }

  ghost predicate LedgerKept(a: Agent) {
    && Chained(a.ledger) && Moving(a.ledger)
    && (a.ledger != [] ==> a.active == Some(a.ledger[|a.ledger| - 1].selected))
    && (forall k | 0 <= k < |a.ledger| :: Has(a.versions, a.ledger[k].selected, a.ledger[k].digest))
  }

  ghost predicate Kept(a: Agent) {
    && VersionsKept(a.versions) && LedgerKept(a)
    && (a.active.Some? ==> HasId(a.versions, a.active.value))
    && (a.draft.Some? ==> HasId(a.versions, a.draft.value.base) && a.draft.value.revision >= 1)
  }

  /** Versions and ledger only grow; once anything was published the pointer moves with the ledger only;
      a draft stays the same draft, and stays unchanged until its revision rises. */
  ghost predicate Continues(a: Agent, b: Agent) {
    && a.versions <= b.versions && a.ledger <= b.ledger
    && (a.ledger != [] && b.ledger == a.ledger ==> b.active == a.active)
    && (a.draft.Some? ==>
          && b.draft.Some? && b.draft.value.id == a.draft.value.id && b.draft.value.base == a.draft.value.base
          && a.draft.value.revision <= b.draft.value.revision
          && (a.draft.value.revision == b.draft.value.revision ==> a.draft == b.draft))
  }

  lemma StoreFrame(a: Agent, id: nat, spec: Json, digest: string, provenance: Provenance)
    ensures var (b, outcome) := Store(a, id, spec, digest, provenance);
            && b.active == a.active && b.ledger == a.ledger && b.draft == a.draft && a.versions <= b.versions
            && (outcome.Refused? ==> b == a)
            && (!outcome.Refused? ==> outcome.Stored? && outcome.version in b.versions && outcome.version.digest == digest)
  {}

  lemma StoreKeeps(a: Agent, id: nat, spec: Json, digest: string, provenance: Provenance)
    requires Kept(a)
    ensures Kept(Store(a, id, spec, digest, provenance).0) && Continues(a, Store(a, id, spec, digest, provenance).0)
  {
    var (b, outcome) := Store(a, id, spec, digest, provenance);
    if outcome.Stored? && outcome.created {
      NumbersReach(a.versions);
      MoreVersionsKeep(a, outcome.version);
    }
  }

  lemma MoreVersionsKeep(a: Agent, v: Version)
    requires Kept(a) && v.number == |a.versions| + 1
    requires forall w | w in a.versions :: w.digest != v.digest && w.id != v.id
    ensures Kept(a.(versions := a.versions + [v]))
  {
    var b := a.(versions := a.versions + [v]);
    assert forall k | 0 <= k < |a.versions| :: a.versions[k] in a.versions;
    forall k | 0 <= k < |b.ledger| ensures Has(b.versions, b.ledger[k].selected, b.ledger[k].digest) {
      var w :| w in a.versions && w.id == b.ledger[k].selected && w.digest == b.ledger[k].digest;
      assert w in b.versions;
    }
    StillThere(a.versions, v);
  }

  lemma StillThere(versions: seq<Version>, v: Version)
    ensures forall id | HasId(versions, id) :: HasId(versions + [v], id)
  {
    forall id | HasId(versions, id) ensures HasId(versions + [v], id) {
      var w :| w in versions && w.id == id;
      assert w in versions + [v];
    }
  }

  lemma NumbersReach(versions: seq<Version>)
    requires VersionsKept(versions)
    ensures MaxNumber(versions) == |versions|
  {
    if versions != [] {
      assert versions[|versions| - 1] in versions;
    }
  }

  lemma SelectKeeps(a: Agent, v: Version, kind: EventKind, reused: bool)
    requires Kept(a) && v in a.versions
    requires a.active == Some(v.id) ==> kind.Publish? && !HasPublished(a.ledger)
    ensures Kept(Select(a, v, kind, reused).0) && Continues(a, Select(a, v, kind, reused).0)
  {
    var b := Select(a, v, kind, reused).0;
    var n := |a.ledger|;
    assert forall k | 0 <= k < n :: b.ledger[k] == a.ledger[k];
    forall k | 0 <= k < |b.ledger| && b.ledger[k].previous == Some(b.ledger[k].selected)
      ensures b.ledger[k].kind.Publish? && !HasPublished(b.ledger[..k])
    {
      if k < n { assert b.ledger[..k] == a.ledger[..k]; } else { assert b.ledger[..k] == a.ledger; }
    }
    assert Has(b.versions, v.id, v.digest);
  }

  /** A publication is refused and changes nothing, or it stores the draft's version and then selects it,
      unless it is active already and some publication is on record. */
  lemma PublishShape(a: Agent, id: nat, revision: nat, expected: Option<nat>, check: Check, keyTaken: bool)
    ensures var (b, outcome) := PublishDraft(a, id, revision, expected, check, keyTaken);
            if outcome.Refused? then b == a
            else
              && a.draft.Some? && a.draft.value.revision == revision && a.active == expected && !keyTaken
              && check(a.draft.value.spec, a.draft.value.digest)
              && var d := a.draft.value;
              var (stored, o) := Store(a, id, d.spec, d.digest, Publication(d.id, d.revision));
              && o.Stored?
              && (b, outcome) == if a.active == Some(o.version.id) && HasPublished(a.ledger)
                                 then (stored, Selected(o.version, a.active, None, true))
                                 else Select(stored, o.version, Publish, !o.created)
  {
    if a.draft.Some? {
      var d := a.draft.value;
      StoreFrame(a, id, d.spec, d.digest, Publication(d.id, d.revision));
    }
  }

  lemma PublishKeeps(a: Agent, id: nat, revision: nat, expected: Option<nat>, check: Check, keyTaken: bool)
    requires Kept(a)
    ensures Kept(PublishDraft(a, id, revision, expected, check, keyTaken).0)
    ensures Continues(a, PublishDraft(a, id, revision, expected, check, keyTaken).0)
  {
    PublishShape(a, id, revision, expected, check, keyTaken);
    if !PublishDraft(a, id, revision, expected, check, keyTaken).1.Refused? {
      var d := a.draft.value;
      var (stored, o) := Store(a, id, d.spec, d.digest, Publication(d.id, d.revision));
      StoreKeeps(a, id, d.spec, d.digest, Publication(d.id, d.revision));
      StoreFrame(a, id, d.spec, d.digest, Publication(d.id, d.revision));
      if a.active != Some(o.version.id) || !HasPublished(a.ledger) {
        SelectKeeps(stored, o.version, Publish, !o.created);
        ContinuesTransitive(a, stored, Select(stored, o.version, Publish, !o.created).0);
      }
    }
  }

  lemma ContinuesTransitive(a: Agent, b: Agent, c: Agent)
    requires Continues(a, b) && Continues(b, c)
    ensures Continues(a, c)
  {}

  lemma ActivateKeeps(a: Agent, id: nat, expected: Option<nat>)
    requires Kept(a)
    ensures Kept(Activate(a, id, expected).0) && Continues(a, Activate(a, id, expected).0)
  {
    if Find(a.versions, WithId(id)).Some? { assert HasId(a.versions, id); }
  }

  lemma DraftMovesKeep(a: Agent, id: nat, revision: nat, spec: Json, digest: string, layout: Json)
    requires Kept(a)
    ensures Kept(CreateDraft(a, id, layout).0) && Continues(a, CreateDraft(a, id, layout).0)
    ensures Kept(UpdateDraft(a, revision, spec, digest, layout).0)
    ensures Continues(a, UpdateDraft(a, revision, spec, digest, layout).0)
  {}

  lemma RollBackKeeps(a: Agent, target: nat, from: nat)
    requires Kept(a)
    ensures Kept(RollBack(a, target, from).0) && Continues(a, RollBack(a, target, from).0)
  {
    var v := Find(a.versions, WithId(target));
    if v.Some? && a.active == Some(from) && a.active != Some(target) { SelectKeeps(a, v.value, Rollback, true); }
  }

  lemma StepKeeps(a: Agent, move: Move)
    requires Kept(a)
    ensures Kept(Do(a, move).0) && Continues(a, Do(a, move).0)
  {
    match move
    case Import(id, spec, digest, note) => StoreKeeps(a, id, spec, digest, Imported(note));
    case Activation(id, expected) => ActivateKeeps(a, id, expected);
    case DraftCreation(id, layout) => DraftMovesKeep(a, id, 0, Null, "", layout);
    case DraftUpdate(revision, spec, digest, layout) => DraftMovesKeep(a, 0, revision, spec, digest, layout);
    case Publishing(id, revision, expected, check, keyTaken) => PublishKeeps(a, id, revision, expected, check, keyTaken);
    case RollingBack(target, from) => RollBackKeeps(a, target, from);
  }

  lemma {:induction false} RunKeeps(a: Agent, moves: seq<Move>)
    requires Kept(a)
    ensures Kept(Run(a, moves)) && Continues(a, Run(a, moves))
    decreases |moves|
  {
    if moves != [] {
      var init := moves[..|moves| - 1];
      RunKeeps(a, init);
      StepKeeps(Run(a, init), moves[|moves| - 1]);
      ContinuesTransitive(a, Run(a, init), Run(a, moves));
    }
  }

  lemma {:induction false} RunConcat(a: Agent, x: seq<Move>, y: seq<Move>)
    ensures Run(a, x + y) == Run(Run(a, x), y)
    decreases |y|
  {
    if y == [] {
      assert x + y == x;
    } else {
      assert (x + y)[..|x + y| - 1] == x + y[..|y| - 1];
      RunConcat(a, x, y[..|y| - 1]);
    }
  }

  // ----- over every run -----

  /** The pointer a ledger describes, starting from `start`; None where an event does not continue its predecessor. */
  function Replay(start: Option<nat>, ledger: seq<PublicationEvent>): Option<Option<nat>> {
    if ledger == [] then Some(start)
    else
      match Replay(start, ledger[..|ledger| - 1])
      case None => None
      case Some(pointer) =>
        if pointer == ledger[|ledger| - 1].previous then Some(Some(ledger[|ledger| - 1].selected)) else None
  }

  /** A ledger replays exactly when its events continue one another from the start, and then to its last selection. */
  lemma {:induction false} ReplaySays(start: Option<nat>, ledger: seq<PublicationEvent>)
    ensures Replay(start, ledger) == if ledger == [] then Some(start)
                                     else if ledger[0].previous == start && Chained(ledger)
                                     then Some(Some(ledger[|ledger| - 1].selected)) else None
  {
    if ledger != [] {
      var init, n := ledger[..|ledger| - 1], |ledger| - 1;
      ReplaySays(start, init);
      if n > 0 && Chained(init) && ledger[n].previous == Some(ledger[n - 1].selected) { assert Chained(ledger); }
      if n > 0 && Chained(ledger) { assert Chained(init); }
    }
  }

  /** Replaying a non-empty ledger, event by event from where the first one started, rebuilds the active pointer. */
  lemma ReplayRebuildsPointer(moves: seq<Move>)
    ensures var a := Run(EMPTY, moves);
            a.ledger != [] ==> Replay(a.ledger[0].previous, a.ledger) == Some(a.active)
  {
    RunKeeps(EMPTY, moves);
    if Run(EMPTY, moves).ledger != [] { ReplaySays(Run(EMPTY, moves).ledger[0].previous, Run(EMPTY, moves).ledger); }
  }

  /** From any moment on, the new ledger events lead from the old pointer to the new one,
      except that legacy activation moves it while the ledger is empty. */
  lemma LaterEventsLeadOn(before: seq<Move>, later: seq<Move>)
    ensures var a := Run(EMPTY, before);
            var b := Run(EMPTY, before + later);
            && a.ledger <= b.ledger
            && (a.ledger != [] ==> Replay(a.active, b.ledger[|a.ledger|..]) == Some(b.active))
  {
    var a := Run(EMPTY, before);
    var b := Run(a, later);
    RunKeeps(EMPTY, before);
    RunConcat(EMPTY, before, later);
    RunKeeps(a, later);
    LeadsOn(a, b);
  }

  lemma LeadsOn(a: Agent, b: Agent)
    requires LedgerKept(a) && LedgerKept(b) && Continues(a, b)
    ensures a.ledger != [] ==> Replay(a.active, b.ledger[|a.ledger|..]) == Some(b.active)
  {
    if a.ledger != [] {
      if b.ledger == a.ledger {
        assert b.ledger[|a.ledger|..] == [];
      } else {
        RestReplays(a.ledger, b.ledger);
      }
    }
  }

  /** The part of a chained ledger after a beginning leads on from where the beginning left off. */
  lemma RestReplays(part: seq<PublicationEvent>, ledger: seq<PublicationEvent>)
    requires Chained(ledger) && part != [] && part < ledger
    ensures Replay(Some(part[|part| - 1].selected), ledger[|part|..]) == Some(Some(ledger[|ledger| - 1].selected))
  {
    var rest := ledger[|part|..];
    assert ledger[|part|].previous == Some(ledger[|part| - 1].selected);
    forall k | 0 < k < |rest| ensures rest[k].previous == Some(rest[k - 1].selected) {
      assert ledger[|part| + k].previous == Some(ledger[|part| + k - 1].selected);
    }
    ReplaySays(rest[0].previous, rest);
  }

  /** Every event moves the pointer, except that the very first publication may select what legacy activation
      had selected already; so there is at most one such event. */
  lemma EventsMoveThePointer(moves: seq<Move>)
    ensures var ledger := Run(EMPTY, moves).ledger;
            && (forall k | 0 <= k < |ledger| && ledger[k].previous == Some(ledger[k].selected) ::
                  ledger[k].kind.Publish? && forall j | 0 <= j < k :: ledger[j].kind.Rollback?)
            && (forall i, j | 0 <= i < j < |ledger| ::
                  ledger[i].previous != Some(ledger[i].selected) || ledger[j].previous != Some(ledger[j].selected))
  {
    RunKeeps(EMPTY, moves);
    var ledger := Run(EMPTY, moves).ledger;
    forall k, j | 0 <= j < k < |ledger| && ledger[k].previous == Some(ledger[k].selected) ensures ledger[j].kind.Rollback? {
      assert ledger[..k][j] in ledger[..k];
    }
  }

  /** Version numbers are exactly 1..n, digests and ids are pairwise distinct, and each ledger event
      records the digest of the version it selected. */
  lemma VersionStoreIsSound(moves: seq<Move>)
    ensures var a := Run(EMPTY, moves);
            && (forall k | 0 <= k < |a.versions| :: a.versions[k].number == k + 1)
            && (forall i, j | 0 <= i < j < |a.versions| ::
                  a.versions[i].digest != a.versions[j].digest && a.versions[i].id != a.versions[j].id)
            && (forall k, v | 0 <= k < |a.ledger| && v in a.versions && v.id == a.ledger[k].selected ::
                  v.digest == a.ledger[k].digest)
            && (forall k | 0 <= k < |a.ledger| :: HasId(a.versions, a.ledger[k].selected))
            && (a.active.Some? ==> HasId(a.versions, a.active.value))
  {
    RunKeeps(EMPTY, moves);
    var a := Run(EMPTY, moves);
    forall k, v | 0 <= k < |a.ledger| && v in a.versions && v.id == a.ledger[k].selected
      ensures v.digest == a.ledger[k].digest
    {
      var w :| w in a.versions && w.id == a.ledger[k].selected && w.digest == a.ledger[k].digest;
    }
    forall k | 0 <= k < |a.ledger| ensures HasId(a.versions, a.ledger[k].selected) {
      assert Has(a.versions, a.ledger[k].selected, a.ledger[k].digest);
    }
  }

  /** Nothing stored is ever changed or removed: versions and ledger events stay in place. */
  lemma HistoryIsAppendOnly(before: seq<Move>, later: seq<Move>)
    ensures var a := Run(EMPTY, before);
            var b := Run(EMPTY, before + later);
            && a.versions <= b.versions && a.ledger <= b.ledger
            && (a.ledger != [] && b.ledger == a.ledger ==> b.active == a.active)
  {
    RunKeeps(EMPTY, before);
    RunConcat(EMPTY, before, later);
    RunKeeps(Run(EMPTY, before), later);
  }

  // What a single publication, rollback or activation does to any state.

  /** An accepted publication of an already active version is recorded exactly when no publication was recorded before;
      every other accepted publication is recorded, and the event says what was active before and is active now. */
  lemma PublicationIsRecorded(
    a: Agent, id: nat, revision: nat, expected: Option<nat>, check: Check, keyTaken: bool)
    ensures var (b, outcome) := Do(a, Publishing(id, revision, expected, check, keyTaken));
            && (outcome.Refused? ==> b == a)
            && (!outcome.Refused? ==>
                  && outcome.Selected? && outcome.previous == a.active == expected
                  && b.active == Some(outcome.version.id) && outcome.version in b.versions
                  && b.draft == a.draft && a.draft.Some? && a.draft.value.revision == revision
                  && outcome.version.digest == a.draft.value.digest
                  && (outcome.event.None? <==> a.active == b.active && HasPublished(a.ledger))
                  && b.ledger == a.ledger + if outcome.event.None? then []
                       else [PublicationEvent(Publish, a.active, outcome.version.id, outcome.version.digest)])
  {
    PublishShape(a, id, revision, expected, check, keyTaken);
    if a.draft.Some? {
      var d := a.draft.value;
      StoreFrame(a, id, d.spec, d.digest, Publication(d.id, d.revision));
    }
  }

  /** A rollback is accepted exactly against the expected active version and to a stored one; then the pointer is on the target,
      and the ledger says from where to where unless nothing moved. */
  lemma RollbackIsRecorded(a: Agent, target: nat, from: nat)
    ensures var (b, outcome) := Do(a, RollingBack(target, from));
            && (outcome.Refused? <==> a.active != Some(from) || !HasId(a.versions, target))
            && (outcome.Refused? ==> b == a)
            && (!outcome.Refused? ==>
                  && outcome.Selected? && b == a.(active := Some(target), ledger := b.ledger)
                  && outcome.version in a.versions && outcome.version.id == target
                  && b.ledger == a.ledger + if target == from then []
                       else [PublicationEvent(Rollback, Some(from), target, outcome.version.digest)])
  {
    var v := Find(a.versions, WithId(target));
    if v.Some? { assert HasId(a.versions, target); }
    assert a.ledger + [] == a.ledger;
  }

  /** Legacy activation is accepted exactly before the first ledger event, to a stored version, against the expected pointer;
      it changes the pointer only. */
  lemma ActivationIsGuarded(a: Agent, id: nat, expected: Option<nat>)
    ensures var (b, outcome) := Do(a, Activation(id, expected));
            && (outcome == Activated(id) <==> HasId(a.versions, id) && a.ledger == [] && a.active == expected)
            && b == if outcome == Activated(id) then a.(active := Some(id)) else a
  {
    if Find(a.versions, WithId(id)).Some? { assert HasId(a.versions, id); }
  }

  /** Importing a spec hands back the one version with its digest, which is new,
      and numbered next, exactly when there was none. */
  lemma ImportDeduplicates(moves: seq<Move>, id: nat, spec: Json, digest: string, note: Json)
    ensures var a := Run(EMPTY, moves);
            var (b, outcome) := Do(a, Import(id, spec, digest, note));
            && (outcome.Refused? ==> b == a)
            && (!outcome.Refused? ==>
                  && outcome.Stored? && outcome.version in b.versions && outcome.version.digest == digest
                  && (outcome.created <==> !HasDigest(a.versions, digest))
                  && b == (if outcome.created then a.(versions := a.versions + [outcome.version]) else a)
                  && (outcome.created ==> outcome.version == Version(id, |a.versions| + 1, digest, spec, Imported(note))))
  {
    RunKeeps(EMPTY, moves);
    var a := Run(EMPTY, moves);
    NumbersReach(a.versions);
    FindsDigest(a.versions, digest);
    StoreFrame(a, id, spec, digest, Imported(note));
    StoreCreates(a, id, spec, digest, Imported(note));
  }

  lemma StoreCreates(a: Agent, id: nat, spec: Json, digest: string, provenance: Provenance)
    ensures var (b, outcome) := Store(a, id, spec, digest, provenance);
            outcome.Stored? ==>
              && (outcome.created <==> Find(a.versions, WithDigest(digest)).None?)
              && b == (if outcome.created then a.(versions := a.versions + [outcome.version]) else a)
              && (outcome.created ==> outcome.version == Version(id, MaxNumber(a.versions) + 1, digest, spec, provenance))
  {}

  lemma FindsDigest(versions: seq<Version>, digest: string)
    ensures Find(versions, WithDigest(digest)).Some? <==> HasDigest(versions, digest)
  {
    var r := Find(versions, WithDigest(digest));
    if r.Some? {
      assert Matches(r.value, WithDigest(digest));
    } else {
      forall v | v in versions ensures v.digest != digest { assert !Matches(v, WithDigest(digest)); }
    }
  }

  /** A new draft starts at revision 1 as a copy of the active version; an existing draft is handed back unchanged. */
  lemma DraftCopiesActive(moves: seq<Move>, id: nat, layout: Json)
    ensures var a := Run(EMPTY, moves);
            var (b, outcome) := Do(a, DraftCreation(id, layout));
            if a.draft.Some? then b == a && outcome == Drafted(a.draft.value, false)
            else if a.active.None? then b == a && outcome == Refused(NotActive)
            else
              exists v :: v in a.versions && v.id == a.active.value
                && b == a.(draft := Some(Draft(id, 1, v.digest, v.spec, v.id, layout)))
                && outcome == Drafted(b.draft.value, true)
  {
    RunKeeps(EMPTY, moves);
    var a := Run(EMPTY, moves);
    if a.draft.None? && a.active.Some? {
      assert HasId(a.versions, a.active.value);
      var v := Find(a.versions, WithId(a.active.value)).value;
      assert v in a.versions;
    }
  }

  /** After a recorded publication or rollback, rolling back to what was active before restores the pointer,
      and records the way back unless nothing had moved. */
  lemma RollbackUndoes(moves: seq<Move>, move: Move)
    requires var a := Run(EMPTY, moves);
             var outcome := Do(a, move).1;
             outcome.Selected? && outcome.previous.Some?
    ensures var a := Run(EMPTY, moves);
            var (b, outcome) := Do(a, move);
            var (c, undone) := RollBack(b, outcome.previous.value, outcome.version.id);
            && undone.Selected? && c.active == a.active && c.versions == b.versions && c.draft == b.draft
            && (undone.event.None? <==> b.active == a.active)
            && b.ledger <= c.ledger
  {
    RunKeeps(EMPTY, moves);
    var a := Run(EMPTY, moves);
    StepKeeps(a, move);
    var (b, outcome) := Do(a, move);
    SelectedSays(a, move);
    assert HasId(a.versions, a.active.value);
    var v :| v in a.versions && v.id == a.active.value;
    assert v in b.versions;
  }

  lemma SelectedSays(a: Agent, move: Move)
    requires Do(a, move).1.Selected?
    ensures Do(a, move).1.previous == a.active && Do(a, move).0.active == Some(Do(a, move).1.version.id)
  {}

  // ----- digests stand for specs -----

  /** What the services do: they store the digest `h` of the very spec they store, and publish only drafts that carry it. */
  ghost predicate Honest(move: Move, h: Json -> string) {
    match move
    case Import(_, spec, digest, _) => digest == h(spec)
    case DraftUpdate(_, spec, digest, _) => digest == h(spec)
    case Publishing(_, _, _, check, _) => forall spec, digest :: check(spec, digest) ==> digest == h(spec)
    case _ => true
  }

  ghost predicate Digested(a: Agent, h: Json -> string) {
    && (forall v | v in a.versions :: v.digest == h(v.spec))
    && (a.draft.Some? ==> a.draft.value.digest == h(a.draft.value.spec))
  }

  lemma StepDigests(a: Agent, move: Move, h: Json -> string)
    requires Digested(a, h) && Honest(move, h)
    ensures Digested(Do(a, move).0, h)
  {
    if move.Publishing? { PublishShape(a, move.id, move.revision, move.expected, move.check, move.keyTaken); }
  }

  lemma {:induction false} RunDigests(moves: seq<Move>, h: Json -> string)
    requires forall k | 0 <= k < |moves| :: Honest(moves[k], h)
    ensures Digested(Run(EMPTY, moves), h)
  {
    if moves != [] {
      var init := moves[..|moves| - 1];
      RunDigests(init, h);
      assert Honest(moves[|moves| - 1], h);
      StepDigests(Run(EMPTY, init), moves[|moves| - 1], h);
    }
  }

  /** The spec of the active version. */
  ghost predicate ActiveSpecIs(a: Agent, spec: Json) {
    a.active.Some? && HasId(a.versions, a.active.value) && forall v | v in a.versions && v.id == a.active.value :: v.spec == spec
  }

  /** With an injective digest, a successful publication leaves the pointer on a version whose spec is the draft's. */
  lemma PublishedSpecIsTheDrafts(
    moves: seq<Move>, h: Json -> string, id: nat, revision: nat, expected: Option<nat>, check: Check, keyTaken: bool)
    requires forall x, y :: h(x) == h(y) ==> x == y
    requires forall k | 0 <= k < |moves| :: Honest(moves[k], h)
    requires Honest(Publishing(id, revision, expected, check, keyTaken), h)
    requires Do(Run(EMPTY, moves), Publishing(id, revision, expected, check, keyTaken)).1.Selected?
    ensures var a := Run(EMPTY, moves);
            a.draft.Some? && ActiveSpecIs(Do(a, Publishing(id, revision, expected, check, keyTaken)).0, a.draft.value.spec)
  {
    var a := Run(EMPTY, moves);
    var b := Do(a, Publishing(id, revision, expected, check, keyTaken)).0;
    PublicationIsRecorded(a, id, revision, expected, check, keyTaken);
    RunDigests(moves, h);
    StepDigests(a, Publishing(id, revision, expected, check, keyTaken), h);
    RunKeeps(EMPTY, moves);
    StepKeeps(a, Publishing(id, revision, expected, check, keyTaken));
    SameIdSameVersion(b.versions);
    var w := Do(a, Publishing(id, revision, expected, check, keyTaken)).1.version;
    assert w in b.versions && w.digest == a.draft.value.digest;
    forall v | v in b.versions && v.id == b.active.value ensures v.spec == a.draft.value.spec {
      assert v == w;
    }
  }

  lemma SameIdSameVersion(versions: seq<Version>)
    requires VersionsKept(versions)
    ensures forall v, w | v in versions && w in versions && v.id == w.id :: v == w
  {}
}
