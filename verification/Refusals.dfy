/** When the operations on versions and drafts are accepted, and which error each refusal gives: the first check that fails. */
module Refusals {
  import opened Options
  import opened Json
  import opened Publishing
  import opened Ledger

  /** A new version may be stored: the spec names its schema and nobody has the id. */
  ghost predicate Storable(a: Agent, id: nat, spec: Json) {
    spec.Obj? && "schema_version" in spec.fields && !HasId(a.versions, id)
  }

  lemma FindsId(versions: seq<Version>, id: nat)
    ensures Find(versions, WithId(id)).Some? <==> HasId(versions, id)
  {
    var r := Find(versions, WithId(id));
    if r.None? {
      forall v | v in versions ensures v.id != id { assert !Matches(v, WithId(id)); }
    }
  }

  /** An import is refused exactly when no version has the digest and the spec has no schema version or the id is taken. */
  lemma ImportIsRefused(a: Agent, id: nat, spec: Json, digest: string, note: Json)
    ensures var (b, outcome) := Do(a, Import(id, spec, digest, note));
            && (outcome.Refused? <==> !HasDigest(a.versions, digest) && !Storable(a, id, spec))
            && (outcome.Refused? ==>
                  b == a && outcome.error ==
                            if spec.Obj? && "schema_version" in spec.fields then IdTaken else SpecKeyMissing)
            && (!outcome.Refused? ==> outcome.Stored?)
  {
    FindsDigest(a.versions, digest);
    FindsId(a.versions, id);
  }

  /** What a publication needs of the draft and the pointer, check by check. */
  ghost predicate Refuses(
    a: Agent, id: nat, revision: nat, expected: Option<nat>, check: Check, keyTaken: bool, error: Error)
  {
    if a.draft.None? then error == DraftNotFound
    else
      var d := a.draft.value;
      if d.revision != revision then error == RevisionConflict
      else if !check(d.spec, d.digest) then error == DraftInvalid
      else if keyTaken then error == PublicKeyTaken
      else if a.active != expected then error == ActiveVersionChanged
      else
        && !HasDigest(a.versions, d.digest) && !Storable(a, id, d.spec)
        && error == if d.spec.Obj? && "schema_version" in d.spec.fields then IdTaken else SpecKeyMissing
  }

  /** A publication is accepted exactly when there is a draft of that revision, the check passes, the key is free, the expected
      version is active, and the draft's digest is stored already or can be; every refusal gives the first reason and
      changes nothing. */
  lemma PublicationIsRefused(
    a: Agent, id: nat, revision: nat, expected: Option<nat>, check: Check, keyTaken: bool)
    ensures var (b, outcome) := Do(a, Publishing(id, revision, expected, check, keyTaken));
            && (outcome.Refused? <==>
                  || a.draft.None? || a.draft.value.revision != revision
                  || !check(a.draft.value.spec, a.draft.value.digest) || keyTaken || a.active != expected
                  || (!HasDigest(a.versions, a.draft.value.digest) && !Storable(a, id, a.draft.value.spec)))
            && (outcome.Refused? ==> b == a && Refuses(a, id, revision, expected, check, keyTaken, outcome.error))
            && (!outcome.Refused? ==> outcome.Selected?)
  {
    if a.draft.Some? {
      var d := a.draft.value;
      FindsDigest(a.versions, d.digest);
      FindsId(a.versions, id);
      StoreFrame(a, id, d.spec, d.digest, Publication(d.id, d.revision));
    }
  }

  lemma PublishedIsAt(ledger: seq<PublicationEvent>)
    ensures HasPublished(ledger) <==> exists k :: 0 <= k < |ledger| && ledger[k].kind == Publish
  {
    if HasPublished(ledger) {
      var e :| e in ledger && e.kind.Publish?;
      var k :| 0 <= k < |ledger| && ledger[k] == e;
    } else {
      forall k | 0 <= k < |ledger| ensures ledger[k].kind != Publish { assert ledger[k] in ledger; }
    }
  }

  /** What an accepted publication leaves: the version that had the draft's digest, or a new one made of the draft, and an event
      unless that version was active already and some publication is on record; the rest as PublicationIsRecorded says. */
  lemma PublicationStores(
    moves: seq<Move>, id: nat, revision: nat, expected: Option<nat>, check: Check, keyTaken: bool)
    requires !Do(Run(EMPTY, moves), Publishing(id, revision, expected, check, keyTaken)).1.Refused?
    ensures var a := Run(EMPTY, moves);
            var (b, outcome) := Do(a, Publishing(id, revision, expected, check, keyTaken));
            && a.draft.Some? && outcome.Selected?
            && (outcome.event.None? <==>
                  a.active == Some(outcome.version.id) && exists k :: 0 <= k < |a.ledger| && a.ledger[k].kind == Publish)
            && (outcome.reused <==> HasDigest(a.versions, a.draft.value.digest))
            && b.versions == (if outcome.reused then a.versions else a.versions + [outcome.version])
            && (!outcome.reused ==>
                  var d := a.draft.value;
                  outcome.version == Version(id, |a.versions| + 1, d.digest, d.spec, Publication(d.id, d.revision)))
  {
    var a := Run(EMPTY, moves);
    RunKeeps(EMPTY, moves);
    NumbersReach(a.versions);
    PublishShape(a, id, revision, expected, check, keyTaken);
    FindsDigest(a.versions, a.draft.value.digest);
    PublishedIsAt(a.ledger);
    var d := a.draft.value;
    StoreCreates(a, id, d.spec, d.digest, Publication(d.id, d.revision));
    StoreFrame(a, id, d.spec, d.digest, Publication(d.id, d.revision));
  }

  /** Legacy activation: unknown version, then a ledger, then another active version. */
  lemma ActivationIsRefused(a: Agent, id: nat, expected: Option<nat>)
    ensures var outcome := Do(a, Activation(id, expected)).1;
            outcome == if !HasId(a.versions, id) then Refused(VersionNotFound)
                       else if a.ledger != [] then Refused(ActivationForbidden)
                       else if a.active != expected then Refused(ActiveVersionChanged)
                       else Activated(id)
  {
    FindsId(a.versions, id);
  }

  /** A rollback: another active version, then an unknown target. */
  lemma RollbackIsRefused(a: Agent, target: nat, from: nat)
    ensures var outcome := Do(a, RollingBack(target, from)).1;
            && (outcome.Refused? <==> a.active != Some(from) || !HasId(a.versions, target))
            && (outcome.Refused? ==> outcome.error == if a.active != Some(from) then ActiveVersionChanged else VersionNotFound)
            && (outcome.Selected? ==> outcome.reused && outcome.previous == Some(from))
  {
    FindsId(a.versions, target);
  }

  /** An update: no draft, then another revision; otherwise the draft has the new contents under the next revision. */
  lemma UpdateIsRefused(a: Agent, revision: nat, spec: Json, digest: string, layout: Json)
    ensures var (b, outcome) := Do(a, DraftUpdate(revision, spec, digest, layout));
            if a.draft.None? then b == a && outcome == Refused(DraftNotFound)
            else if a.draft.value.revision != revision then b == a && outcome == Refused(RevisionConflict)
            else
              var before := a.draft.value;
              var d := Draft(before.id, revision + 1, digest, spec, before.base, layout);
              b == Agent(a.versions, a.active, Some(d), a.ledger) && outcome == Drafted(d, false)
  {}
}
