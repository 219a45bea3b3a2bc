/** One agent's version store, active pointer, draft and publication ledger.
    Each operation is one transaction under the agent's locks; an agent that does not exist has an empty store. */
module Publishing {
  import opened Options
  import opened Json

  datatype Provenance = Imported(note: Json) | Publication(draft: nat, revision: nat)

  datatype Version = Version(id: nat, number: nat, digest: string, spec: Json, provenance: Provenance)

  datatype Draft = Draft(id: nat, revision: nat, digest: string, spec: Json, base: nat, layout: Json)

  datatype EventKind = Publish | Rollback

  datatype PublicationEvent = PublicationEvent(kind: EventKind, previous: Option<nat>, selected: nat, digest: string)

  datatype Agent = Agent(versions: seq<Version>, active: Option<nat>, draft: Option<Draft>, ledger: seq<PublicationEvent>)

  const EMPTY := Agent([], None, None, [])

  datatype Error =
    | VersionNotFound | ActivationForbidden | ActiveVersionChanged | NotActive
    | DraftNotFound | RevisionConflict | DraftInvalid | PublicKeyTaken
    | SpecKeyMissing | IdTaken

  datatype Outcome =
    | Refused(error: Error)
    | Stored(version: Version, created: bool)
    | Activated(id: nat)
    | Drafted(draft: Draft, created: bool)
    | Selected(version: Version, previous: Option<nat>, event: Option<PublicationEvent>, reused: bool)

  /** The predicate a publisher passes in to judge the stored draft: its spec and its digest. */
  type Check = (Json, string) -> bool

  /** The two ways the repositories look a version up. */
  datatype Wanted = WithId(id: nat) | WithDigest(digest: string)

  predicate Matches(v: Version, w: Wanted) {
    match w
    case WithId(id) => v.id == id
    case WithDigest(digest) => v.digest == digest
  }

  function Find(versions: seq<Version>, w: Wanted): (r: Option<Version>)
    ensures r.Some? ==> r.value in versions && Matches(r.value, w)
    ensures r.None? ==> forall v | v in versions :: !Matches(v, w)
  {
    if versions == [] then None else if Matches(versions[0], w) then Some(versions[0]) else Find(versions[1..], w)
  }

  function MaxNumber(versions: seq<Version>): (m: nat)
    ensures forall v | v in versions :: v.number <= m
    ensures m == 0 || exists v :: v in versions && v.number == m
  {
    if versions == [] then 0
    else
      var rest := MaxNumber(versions[1..]);
      assert versions[0] in versions && forall v | v in versions :: v == versions[0] || v in versions[1..];
      if versions[0].number > rest then versions[0].number else rest
  }

  function Store(a: Agent, id: nat, spec: Json, digest: string, provenance: Provenance): (Agent, Outcome) {
    match Find(a.versions, WithDigest(digest))
    case Some(v) => (a, Stored(v, false))
    case None =>
      if !(spec.Obj? && "schema_version" in spec.fields) then (a, Refused(SpecKeyMissing))
      else if Find(a.versions, WithId(id)).Some? then (a, Refused(IdTaken))
      else
        var v := Version(id, MaxNumber(a.versions) + 1, digest, spec, provenance);
        (a.(versions := a.versions + [v]), Stored(v, true))
  }

  function Activate(a: Agent, id: nat, expected: Option<nat>): (Agent, Outcome) {
    if Find(a.versions, WithId(id)).None? then (a, Refused(VersionNotFound))
    else if a.ledger != [] then (a, Refused(ActivationForbidden))
    else if a.active != expected then (a, Refused(ActiveVersionChanged))
    else (a.(active := Some(id)), Activated(id))
  }

  function CreateDraft(a: Agent, id: nat, layout: Json): (Agent, Outcome) {
    if a.draft.Some? then (a, Drafted(a.draft.value, false))
    else if a.active.None? || Find(a.versions, WithId(a.active.value)).None? then (a, Refused(NotActive))
    else
      var v := Find(a.versions, WithId(a.active.value)).value;
      var d := Draft(id, 1, v.digest, v.spec, v.id, layout);
      (a.(draft := Some(d)), Drafted(d, true))
  }

  function UpdateDraft(a: Agent, expected: nat, spec: Json, digest: string, layout: Json): (Agent, Outcome) {
    if a.draft.None? then (a, Refused(DraftNotFound))
    else if a.draft.value.revision != expected then (a, Refused(RevisionConflict))
    else
      var d := a.draft.value.(revision := expected + 1, spec := spec, digest := digest, layout := layout);
      (a.(draft := Some(d)), Drafted(d, false))
  }

  predicate HasPublished(ledger: seq<PublicationEvent>) { exists e :: e in ledger && e.kind.Publish? }

  function Select(a: Agent, v: Version, kind: EventKind, reused: bool): (Agent, Outcome) {
    var event := PublicationEvent(kind, a.active, v.id, v.digest);
    (a.(active := Some(v.id), ledger := a.ledger + [event]), Selected(v, a.active, Some(event), reused))
  }

  function PublishDraft(
    a: Agent, id: nat, expectedRevision: nat, expectedActive: Option<nat>, check: Check, keyTaken: bool): (Agent, Outcome)
  {
    if a.draft.None? then (a, Refused(DraftNotFound))
    else
      var d := a.draft.value;
      if d.revision != expectedRevision then (a, Refused(RevisionConflict))
      else if !check(d.spec, d.digest) then (a, Refused(DraftInvalid))
      else if keyTaken then (a, Refused(PublicKeyTaken))
      else if a.active != expectedActive then (a, Refused(ActiveVersionChanged))
      else
        var (stored, outcome) := Store(a, id, d.spec, d.digest, Publication(d.id, d.revision));
        if outcome.Stored? then
          var v := outcome.version;
          if a.active == Some(v.id) && HasPublished(a.ledger) then (stored, Selected(v, a.active, None, true))
          else Select(stored, v, Publish, !outcome.created)
        else (a, outcome)
  }

  function RollBack(a: Agent, target: nat, expectedActive: nat): (Agent, Outcome) {
    if a.active != Some(expectedActive) then (a, Refused(ActiveVersionChanged))
    else
      match Find(a.versions, WithId(target))
      case None => (a, Refused(VersionNotFound))
      case Some(v) => if a.active == Some(v.id) then (a, Selected(v, a.active, None, true)) else Select(a, v, Rollback, true)
  }

  /** The two repositories over one agent's rows. */
  class PublishingStore {
    var versions: seq<Version>
    var active: Option<nat>
    var draft: Option<Draft>
    var ledger: seq<PublicationEvent>

    constructor ()
      ensures View() == EMPTY
    {
      versions, active, draft, ledger := [], None, None, [];
    }

    function View(): Agent
      reads this
    {
      Agent(versions, active, draft, ledger)
    }

    method ImportVersion(id: nat, spec: Json, digest: string, provenance: Provenance) returns (outcome: Outcome)
      modifies this`versions
      ensures (View(), outcome) == Store(old(View()), id, spec, digest, provenance)
    {
      var existing := Find(versions, WithDigest(digest));
      if existing.Some? {
        return Stored(existing.value, false);
      }
      var next := MaxNumber(versions) + 1;
      if !(spec.Obj? && "schema_version" in spec.fields) {
        return Refused(SpecKeyMissing);
      }
      if Find(versions, WithId(id)).Some? {
        return Refused(IdTaken);
      }
      var version := Version(id, next, digest, spec, provenance);
      versions := versions + [version];
      outcome := Stored(version, true);
    }

    method ActivateVersion(id: nat, expected: Option<nat>) returns (outcome: Outcome)
      modifies this`active
      ensures (View(), outcome) == Activate(old(View()), id, expected)
    {
      var version := Find(versions, WithId(id));
      if version.None? {
        return Refused(VersionNotFound);
      }
      if |ledger| > 0 {
        return Refused(ActivationForbidden);
      }
      if active != expected {
        return Refused(ActiveVersionChanged);
      }
      active := Some(id);
      outcome := Activated(id);
    }

    method CreateFromActive(id: nat, layout: Json) returns (outcome: Outcome)
      modifies this`draft
      ensures (View(), outcome) == CreateDraft(old(View()), id, layout)
    {
      if draft.Some? {
        return Drafted(draft.value, false);
      }
      var version := if active.Some? then Find(versions, WithId(active.value)) else None;
      if version.None? {
        return Refused(NotActive);
      }
      var record := Draft(id, 1, version.value.digest, version.value.spec, version.value.id, layout);
      draft := Some(record);
      outcome := Drafted(record, true);
    }

    method Update(expected: nat, spec: Json, digest: string, layout: Json) returns (outcome: Outcome)
      modifies this`draft
      ensures (View(), outcome) == UpdateDraft(old(View()), expected, spec, digest, layout)
    {
      if draft.None? {
        return Refused(DraftNotFound);
      }
      var record := draft.value;
      if record.revision != expected {
        return Refused(RevisionConflict);
      }
      record := record.(spec := spec);
      record := record.(digest := digest);
      record := record.(layout := layout);
      record := record.(revision := record.revision + 1);
      draft := Some(record);
      outcome := Drafted(record, false);
    }

    method PublishCurrentDraft(id: nat, expectedRevision: nat, expectedActive: Option<nat>, check: Check, keyTaken: bool)
      returns (outcome: Outcome)
      modifies this`versions, this`active, this`ledger
      ensures (View(), outcome) == PublishDraft(old(View()), id, expectedRevision, expectedActive, check, keyTaken)
    {
      if draft.None? {
        return Refused(DraftNotFound);
      }
      var record := draft.value;
      if record.revision != expectedRevision {
        return Refused(RevisionConflict);
      }
      if !check(record.spec, record.digest) {
        return Refused(DraftInvalid);
      }
      if keyTaken {
        return Refused(PublicKeyTaken);
      }
      if active != expectedActive {
        return Refused(ActiveVersionChanged);
      }
      var previous := active;
      outcome := ImportVersion(id, record.spec, record.digest, Publication(record.id, record.revision));
      if outcome.Refused? {
        return;
      }
      var version, reused := outcome.version, !outcome.created;
      if previous == Some(version.id) {
        if HasPublished(ledger) {
          return Selected(version, previous, None, true);
        }
      } else {
        active := Some(version.id);
      }
      var event := PublicationEvent(Publish, previous, version.id, version.digest);
      ledger := ledger + [event];
      outcome := Selected(version, previous, Some(event), reused);
    }

    method RollBackTo(target: nat, expectedActive: nat) returns (outcome: Outcome)
      modifies this`active, this`ledger
      ensures (View(), outcome) == RollBack(old(View()), target, expectedActive)
    {
      var previous := active;
      if previous != Some(expectedActive) {
        return Refused(ActiveVersionChanged);
      }
      var version := Find(versions, WithId(target));
      if version.None? {
        return Refused(VersionNotFound);
      }
      if previous == Some(version.value.id) {
        return Selected(version.value, previous, None, true);
      }
      active := Some(version.value.id);
      var event := PublicationEvent(Rollback, previous, version.value.id, version.value.digest);
      ledger := ledger + [event];
      outcome := Selected(version.value, previous, Some(event), true);
    }
  }
}
