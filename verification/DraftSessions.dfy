/** Any number of editors of one draft, each with any number of saves under way, against the revision-checked server draft. */
module DraftSessions {
  import opened Options
  import opened Json
  import opened Pointers
  import opened DraftEditor
  import Publishing

  datatype Reply = Waiting | Accepted(draft: Publishing.Draft) | Conflict

  /** A save under way: what was submitted, against which server draft, and how many edits its editor had seen by then. */
  datatype Save = Save(spec: Ref, layout: Ref, base: Publishing.Draft, replace: bool, edits: nat, reply: Reply)

  datatype Session = Session(editor: Editor, edits: nat, saves: seq<Save>)

  /** An accepted update: the server draft it was made against, and the one it left. */
  datatype Update = Update(base: Publishing.Draft, result: Publishing.Draft)

  /** `unused` is a tag no object of any page carries yet. */
  datatype World = World(server: Publishing.Draft, updates: seq<Update>, sessions: seq<Session>, unused: nat)

  datatype Move =
    | Open(selected: Option<string>, run: Option<string>)
    | Act(s: nat, action: Action)
    | Submit(s: nat, candidate: Option<Json>)
    | Handle(s: nat, k: nat)
    | Answer(s: nat, k: nat)
    | Fail(s: nat, k: nat, code: string, issues: seq<Issue>)

  function Start(draft: Publishing.Draft): World { World(draft, [], [], 0) }

  function AsAgent(draft: Publishing.Draft): Publishing.Agent { Publishing.EMPTY.(draft := Some(draft)) }

  function Put(w: World, s: nat, session: Session): World
    requires s < |w.sessions|
  {
    w.(sessions := w.sessions[s := session], unused := w.unused + 2)
  }

  /** The page dispatches an action; one that throws leaves the page as it was. */
  function Dispatch(w: World, s: nat, action: Action, index: IndexReader): World
    requires s < |w.sessions|
  {
    Rendered(w, s, Reduce(w.sessions[s].editor, action, w.unused, index), ChangesContent(action))
  }

  function Rendered(w: World, s: nat, result: Option<Editor>, edit: bool): World
    requires s < |w.sessions|
  {
    if result.None? then w else Put(w, s, WithEditor(w.sessions[s], result.value, edit))
  }

  function WithEditor(session: Session, editor: Editor, edit: bool): Session {
    session.(editor := editor, edits := session.edits + if edit then 1 else 0)
  }

  /** The page sends a save: its own documents, or a candidate spec that will replace them. */
  function Submitted(w: World, s: nat, candidate: Option<Json>): World
    requires s < |w.sessions|
  {
    var session := w.sessions[s];
    var e := session.editor;
    var spec := if candidate.Some? then Ref(w.unused, candidate.value) else e.spec;
    Put(w, s, session.(editor := e.(status := Saving, error := None),
                       saves := session.saves + [Save(spec, e.layout, e.server, candidate.Some?, session.edits, Waiting)]))
  }

  /** The server handles a save. */
  function Handled(w: World, s: nat, k: nat, h: Json -> string): World
    requires s < |w.sessions| && k < |w.sessions[s].saves|
  {
    var session := w.sessions[s];
    var save := session.saves[k];
    var (agent, outcome) :=
      Publishing.UpdateDraft(AsAgent(w.server), save.base.revision, save.spec.value, h(save.spec.value), save.layout.value);
    if outcome.Drafted? && agent.draft.Some? then
      var later := Put(w, s, session.(saves := session.saves[k := save.(reply := Accepted(outcome.draft))]));
      later.(server := agent.draft.value, updates := w.updates + [Update(save.base, outcome.draft)])
    else Put(w, s, session.(saves := session.saves[k := save.(reply := Conflict)]))
  }

  /** The action an answer makes the page dispatch. */
  function AnswerAction(save: Save): Option<Action> {
    match save.reply
    case Waiting => None
    case Accepted(draft) => Some(SaveSucceeded(draft, save.replace, save.spec, save.layout))
    case Conflict => Some(SaveFailed([], CONFLICT))
  }

  function Do(w: World, move: Move, h: Json -> string, index: IndexReader): World {
    match move
    case Open(selected, run) =>
      w.(sessions := w.sessions + [Session(Initial(w.server, selected, run, w.unused), 0, [])], unused := w.unused + 2)
    case Act(s, action) =>
      if s < |w.sessions| && !action.SaveStarted? && !action.SaveSucceeded? && !action.SaveFailed?
      then Dispatch(w, s, action, index) else w
    case Submit(s, candidate) => if s < |w.sessions| then Submitted(w, s, candidate) else w
    case Handle(s, k) =>
      if s < |w.sessions| && k < |w.sessions[s].saves| && w.sessions[s].saves[k].reply.Waiting? then Handled(w, s, k, h) else w
    case Answer(s, k) =>
      if s < |w.sessions| && k < |w.sessions[s].saves| && AnswerAction(w.sessions[s].saves[k]).Some?
      then Dispatch(w, s, AnswerAction(w.sessions[s].saves[k]).value, index) else w
    case Fail(s, k, code, issues) => if s < |w.sessions| then Dispatch(w, s, SaveFailed(issues, code), index) else w
  }

  function Run(w: World, moves: seq<Move>, h: Json -> string, index: IndexReader): World
    decreases |moves|
  {
    if moves == [] then w else Do(Run(w, moves[..|moves| - 1], h, index), moves[|moves| - 1], h, index)
  }

  lemma RunGoesOn(w: World, moves: seq<Move>, move: Move, h: Json -> string, index: IndexReader)
    ensures Run(w, moves + [move], h, index) == Do(Run(w, moves, h, index), move, h, index)
  {
    assert (moves + [move])[..|moves|] == moves;
  }

  // ----- what every move keeps -----

  /** The server draft after the first n updates. */
  function After(first: Publishing.Draft, updates: seq<Update>, n: nat): Publishing.Draft
    requires n <= |updates|
  {
    if n == 0 then first else updates[n - 1].result
  }

  /** Some moment's server draft. */
  ghost predicate WasServer(first: Publishing.Draft, updates: seq<Update>, d: Publishing.Draft) {
    exists n: nat :: n <= |updates| && d == After(first, updates, n)
  }

  /** Each update was made against the draft right before it, and raised its revision by one. */
  ghost predicate UpdatesChain(first: Publishing.Draft, updates: seq<Update>) {
    forall n: nat | n < |updates| :: Follows(updates[n], After(first, updates, n))
  }

  ghost predicate Follows(u: Update, before: Publishing.Draft) {
    && u.base == before && u.result.revision == before.revision + 1
    && u.result.id == before.id && u.result.base == before.base
  }

  /** Later edits carry newer tags than anything submitted before them. */
  ghost predicate SaveKept(session: Session, save: Save, first: Publishing.Draft, updates: seq<Update>, unused: nat) {
    && WasServer(first, updates, save.base)
    && save.edits <= session.edits
    && save.layout.tag <= session.editor.layout.tag && save.layout.tag < unused && save.spec.tag < unused
    && (!save.replace ==> save.spec.tag <= session.editor.spec.tag)
    && (!save.replace && save.edits < session.edits ==>
          save.spec.tag < session.editor.spec.tag || save.layout.tag < session.editor.layout.tag)
    && (save.reply.Accepted? ==>
          && WasServer(first, updates, save.reply.draft)
          && save.reply.draft.spec == save.spec.value && save.reply.draft.layout == save.layout.value)
  }

  ghost predicate SessionKept(session: Session, first: Publishing.Draft, updates: seq<Update>, unused: nat) {
    && CleanShowsServer(session.editor) && WasServer(first, updates, session.editor.server)
    && session.editor.spec.tag < unused && session.editor.layout.tag < unused
    && forall k | 0 <= k < |session.saves| :: SaveKept(session, session.saves[k], first, updates, unused)
  }

  ghost predicate Kept(w: World, first: Publishing.Draft) {
    && w.server == After(first, w.updates, |w.updates|)
    && UpdatesChain(first, w.updates)
    && forall s | 0 <= s < |w.sessions| :: SessionKept(w.sessions[s], first, w.updates, w.unused)
  }

  /** Two server drafts of the same revision are the same draft. */
  lemma {:induction false} RevisionsTell(first: Publishing.Draft, updates: seq<Update>, n: nat)
    requires UpdatesChain(first, updates) && n <= |updates|
    ensures After(first, updates, n).revision == first.revision + n
  {
    if n > 0 {
      RevisionsTell(first, updates, n - 1);
      assert Follows(updates[n - 1], After(first, updates, n - 1));
    }
  }

  lemma MoreUpdates(first: Publishing.Draft, updates: seq<Update>, u: Update, d: Publishing.Draft)
    requires WasServer(first, updates, d)
    ensures WasServer(first, updates + [u], d)
  {
    var n: nat :| n <= |updates| && d == After(first, updates, n);
    assert d == After(first, updates + [u], n);
  }

  lemma SessionStays(session: Session, first: Publishing.Draft, updates: seq<Update>, u: Update, unused: nat, later: nat)
    requires SessionKept(session, first, updates, unused) && unused <= later
    ensures SessionKept(session, first, updates, later)
    ensures SessionKept(session, first, updates + [u], later)
  {
    MoreUpdates(first, updates, u, session.editor.server);
    forall k | 0 <= k < |session.saves|
      ensures SaveKept(session, session.saves[k], first, updates + [u], later)
      ensures SaveKept(session, session.saves[k], first, updates, later)
    {
      var save := session.saves[k];
      assert SaveKept(session, save, first, updates, unused);
      MoreUpdates(first, updates, u, save.base);
      if save.reply.Accepted? { MoreUpdates(first, updates, u, save.reply.draft); }
    }
  }

  /** Exchanging one page for a sound one keeps the others sound. */
  lemma PutKeeps(w: World, s: nat, session: Session, first: Publishing.Draft)
    requires Kept(w, first) && s < |w.sessions| && SessionKept(session, first, w.updates, w.unused + 2)
    ensures Kept(Put(w, s, session), first)
  {
    forall i | 0 <= i < |w.sessions| && i != s ensures SessionKept(w.sessions[i], first, w.updates, w.unused + 2) {
      SessionStays(w.sessions[i], first, w.updates, Update(first, first), w.unused, w.unused + 2);
    }
  }

  lemma DispatchKeeps(w: World, s: nat, action: Action, index: IndexReader, first: Publishing.Draft)
    requires Kept(w, first) && s < |w.sessions|
    requires action.SaveSucceeded? ==> WasServer(first, w.updates, action.draft)
    ensures Kept(Dispatch(w, s, action, index), first)
  {
    var session := w.sessions[s];
    var r := Reduce(session.editor, action, w.unused, index);
    assert SessionKept(session, first, w.updates, w.unused);
    if r.Some? {
      var later := WithEditor(session, r.value, ChangesContent(action));
      ActionKeepsSession(session, later, action, first, w.updates, w.unused, index);
    }
    RenderedKeeps(w, s, r, ChangesContent(action), first);
  }

  lemma RenderedKeeps(w: World, s: nat, r: Option<Editor>, edit: bool, first: Publishing.Draft)
    requires Kept(w, first) && s < |w.sessions|
    requires r.Some? ==> SessionKept(WithEditor(w.sessions[s], r.value, edit), first, w.updates, w.unused + 2)
    ensures Kept(Rendered(w, s, r, edit), first)
  {
    if r.Some? { PutKeeps(w, s, WithEditor(w.sessions[s], r.value, edit), first); }
  }

  lemma ActionKeepsSession(
    session: Session, later: Session, action: Action, first: Publishing.Draft,
    updates: seq<Update>, unused: nat, index: IndexReader)
    requires SessionKept(session, first, updates, unused) && later.saves == session.saves
    requires action.SaveSucceeded? ==> WasServer(first, updates, action.draft)
    requires Reduce(session.editor, action, unused, index) == Some(later.editor)
    requires later.edits == session.edits + if ChangesContent(action) then 1 else 0
    ensures SessionKept(later, first, updates, unused + 2)
  {
    ReduceKeepsClean(session.editor, action, unused, index);
    forall k | 0 <= k < |later.saves| ensures SaveKept(later, later.saves[k], first, updates, unused + 2) {
      assert SaveKept(session, session.saves[k], first, updates, unused);
      ActionKeepsSave(session, later, session.saves[k], action, first, updates, unused, index);
    }
  }

  /** Tags only grow, and an edit makes one of them new. */
  lemma ActionKeepsSave(
    session: Session, later: Session, save: Save, action: Action, first: Publishing.Draft, updates: seq<Update>, unused: nat,
    index: IndexReader)
    requires SaveKept(session, save, first, updates, unused)
    requires session.editor.spec.tag < unused && session.editor.layout.tag < unused
    requires Reduce(session.editor, action, unused, index) == Some(later.editor)
    requires later.edits == session.edits + if ChangesContent(action) then 1 else 0
    ensures SaveKept(later, save, first, updates, unused + 2)
  {}

  lemma SubmitKeeps(w: World, s: nat, candidate: Option<Json>, first: Publishing.Draft)
    requires Kept(w, first) && s < |w.sessions|
    ensures Kept(Submitted(w, s, candidate), first)
  {
    var session := w.sessions[s];
    var later := Submitted(w, s, candidate).sessions[s];
    assert SessionKept(session, first, w.updates, w.unused);
    SessionStays(session, first, w.updates, Update(first, first), w.unused, w.unused + 2);
    forall k | 0 <= k < |later.saves| ensures SaveKept(later, later.saves[k], first, w.updates, w.unused + 2) {
      if k < |session.saves| { assert SaveKept(session, session.saves[k], first, w.updates, w.unused + 2); }
    }
    PutKeeps(w, s, later, first);
  }

  lemma HandleKeeps(w: World, s: nat, k: nat, h: Json -> string, first: Publishing.Draft)
    requires Kept(w, first) && s < |w.sessions| && k < |w.sessions[s].saves|
    ensures Kept(Handled(w, s, k, h), first)
  {
    var session := w.sessions[s];
    var save := session.saves[k];
    assert SessionKept(session, first, w.updates, w.unused);
    assert SaveKept(session, save, first, w.updates, w.unused);
    if save.base.revision == w.server.revision {
      AcceptKeeps(w, s, k, h, first);
    } else {
      var later := session.(saves := session.saves[k := save.(reply := Conflict)]);
      SessionStays(session, first, w.updates, Update(first, first), w.unused, w.unused + 2);
      forall i | 0 <= i < |later.saves| ensures SaveKept(later, later.saves[i], first, w.updates, w.unused + 2) {
        assert SaveKept(session, session.saves[i], first, w.updates, w.unused + 2);
      }
      PutKeeps(w, s, later, first);
    }
  }

  /** A save made against the current revision was made against the current draft. */
  lemma BaseIsServer(w: World, first: Publishing.Draft, base: Publishing.Draft)
    requires Kept(w, first) && WasServer(first, w.updates, base) && base.revision == w.server.revision
    ensures base == w.server
  {
    var n: nat :| n <= |w.updates| && base == After(first, w.updates, n);
    RevisionsTell(first, w.updates, n);
    RevisionsTell(first, w.updates, |w.updates|);
  }

  /** The session whose save was accepted. */
  lemma AcceptedSession(session: Session, k: nat, first: Publishing.Draft, updates: seq<Update>, u: Update, unused: nat)
    requires k < |session.saves| && SessionKept(session, first, updates, unused)
    requires u.result.spec == session.saves[k].spec.value && u.result.layout == session.saves[k].layout.value
    ensures SessionKept(session.(saves := session.saves[k := session.saves[k].(reply := Accepted(u.result))]),
                        first, updates + [u], unused + 2)
  {
    var later := session.(saves := session.saves[k := session.saves[k].(reply := Accepted(u.result))]);
    assert u.result == After(first, updates + [u], |updates| + 1);
    SessionStays(session, first, updates, u, unused, unused + 2);
    forall i | 0 <= i < |later.saves| ensures SaveKept(later, later.saves[i], first, updates + [u], unused + 2) {
      assert SaveKept(session, session.saves[i], first, updates + [u], unused + 2);
    }
  }

  lemma OtherSessions(w: World, s: nat, u: Update, first: Publishing.Draft)
    requires Kept(w, first)
    ensures forall i | 0 <= i < |w.sessions| && i != s :: SessionKept(w.sessions[i], first, w.updates + [u], w.unused + 2)
  {
    forall i | 0 <= i < |w.sessions| && i != s ensures SessionKept(w.sessions[i], first, w.updates + [u], w.unused + 2) {
      SessionStays(w.sessions[i], first, w.updates, u, w.unused, w.unused + 2);
    }
  }

  lemma AcceptKeeps(w: World, s: nat, k: nat, h: Json -> string, first: Publishing.Draft)
    requires Kept(w, first) && s < |w.sessions| && k < |w.sessions[s].saves|
    requires SessionKept(w.sessions[s], first, w.updates, w.unused)
    requires SaveKept(w.sessions[s], w.sessions[s].saves[k], first, w.updates, w.unused)
    requires w.sessions[s].saves[k].base.revision == w.server.revision
    ensures Kept(Handled(w, s, k, h), first)
  {
    var save := w.sessions[s].saves[k];
    BaseIsServer(w, first, save.base);
    var u := Update(save.base, Handled(w, s, k, h).server);
    ChainNext(first, w.updates, u);
    AcceptedSession(w.sessions[s], k, first, w.updates, u, w.unused);
    OtherSessions(w, s, u, first);
  }

  lemma ChainNext(first: Publishing.Draft, updates: seq<Update>, u: Update)
    requires UpdatesChain(first, updates) && Follows(u, After(first, updates, |updates|))
    ensures UpdatesChain(first, updates + [u])
  {
    var all := updates + [u];
    forall n: nat | n < |all| ensures Follows(all[n], After(first, all, n)) {
      assert After(first, all, n) == After(first, updates, n);
      if n < |updates| { assert Follows(updates[n], After(first, updates, n)); }
    }
  }

  lemma AnswerKeeps(w: World, s: nat, k: nat, index: IndexReader, first: Publishing.Draft)
    requires Kept(w, first) && s < |w.sessions| && k < |w.sessions[s].saves|
    requires AnswerAction(w.sessions[s].saves[k]).Some?
    ensures Kept(Dispatch(w, s, AnswerAction(w.sessions[s].saves[k]).value, index), first)
  {
    assert SessionKept(w.sessions[s], first, w.updates, w.unused);
    assert SaveKept(w.sessions[s], w.sessions[s].saves[k], first, w.updates, w.unused);
    DispatchKeeps(w, s, AnswerAction(w.sessions[s].saves[k]).value, index, first);
  }

  /** The moves of a save that is under way. */
  lemma SaveStepKeeps(w: World, move: Move, h: Json -> string, index: IndexReader, first: Publishing.Draft)
    requires Kept(w, first) && (move.Handle? || move.Answer?)
    ensures Kept(Do(w, move, h, index), first)
  {
    if move.s < |w.sessions| && move.k < |w.sessions[move.s].saves| {
      if move.Handle? {
        HandleKeeps(w, move.s, move.k, h, first);
      } else if AnswerAction(w.sessions[move.s].saves[move.k]).Some? {
        AnswerKeeps(w, move.s, move.k, index, first);
      }
    }
  }

  lemma StepKeeps(w: World, move: Move, h: Json -> string, index: IndexReader, first: Publishing.Draft)
    requires Kept(w, first)
    ensures Kept(Do(w, move, h, index), first)
  {
    if move.Handle? || move.Answer? {
      SaveStepKeeps(w, move, h, index, first);
    } else if move.Open? {
      OpenKeeps(w, move.selected, move.run, first);
    } else if move.s < |w.sessions| {
      match move
      case Act(s, action) => if !action.SaveSucceeded? { DispatchKeeps(w, s, action, index, first); }
      case Submit(s, candidate) => SubmitKeeps(w, s, candidate, first);
      case Fail(s, k, code, issues) => DispatchKeeps(w, s, SaveFailed(issues, code), index, first);
    }
  }

  lemma OpenKeeps(w: World, selected: Option<string>, run: Option<string>, first: Publishing.Draft)
    requires Kept(w, first)
    ensures Kept(w.(sessions := w.sessions + [Session(Initial(w.server, selected, run, w.unused), 0, [])],
                    unused := w.unused + 2), first)
  {
    assert w.server == After(first, w.updates, |w.updates|);
    forall i | 0 <= i < |w.sessions| ensures SessionKept(w.sessions[i], first, w.updates, w.unused + 2) {
      SessionStays(w.sessions[i], first, w.updates, Update(first, first), w.unused, w.unused + 2);
    }
  }

  lemma {:induction false} RunKeeps(first: Publishing.Draft, moves: seq<Move>, h: Json -> string, index: IndexReader)
    ensures Kept(Run(Start(first), moves, h, index), first)
  {
    if moves != [] {
      RunKeeps(first, moves[..|moves| - 1], h, index);
      StepKeeps(Run(Start(first), moves[..|moves| - 1], h, index), moves[|moves| - 1], h, index, first);
    }
  }

  // ----- over every run -----

  /** No lost update: every accepted update was made by a page that showed, as its server draft, the draft right before it;
      revisions count the accepted updates, and the draft stays the same draft. */
  lemma UpdatesAreSequential(first: Publishing.Draft, moves: seq<Move>, h: Json -> string, index: IndexReader)
    ensures var w := Run(Start(first), moves, h, index);
            && (forall n: nat | n < |w.updates| :: Follows(w.updates[n], After(first, w.updates, n)))
            && (forall n: nat | n <= |w.updates| :: After(first, w.updates, n).revision == first.revision + n)
            && w.server == After(first, w.updates, |w.updates|)
  {
    RunKeeps(first, moves, h, index);
    var w := Run(Start(first), moves, h, index);
    forall n: nat | n <= |w.updates| ensures After(first, w.updates, n).revision == first.revision + n {
      RevisionsTell(first, w.updates, n);
    }
  }

  /** A clean editor shows exactly a draft that was the server's at some moment, the one it holds as its server draft. */
  lemma CleanEditorsShowServer(first: Publishing.Draft, moves: seq<Move>, h: Json -> string, index: IndexReader, s: nat)
    requires s < |Run(Start(first), moves, h, index).sessions|
    ensures var w := Run(Start(first), moves, h, index);
            var e := w.sessions[s].editor;
            && WasServer(first, w.updates, e.server)
            && (!e.dirty ==> e.spec.value == e.server.spec && e.layout.value == e.server.layout)
  {
    RunKeeps(first, moves, h, index);
    var w := Run(Start(first), moves, h, index);
    assert SessionKept(w.sessions[s], first, w.updates, w.unused);
  }

  /** The answer to an ordinary save, whenever it arrives, changes neither document; and when anything was edited
      after the submission the very objects stay and the editor remains dirty. */
  lemma OrdinarySavesDiscardNothing(first: Publishing.Draft, moves: seq<Move>, h: Json -> string,
    index: IndexReader, s: nat, k: nat)
    requires var w := Run(Start(first), moves, h, index);
             s < |w.sessions| && k < |w.sessions[s].saves| && !w.sessions[s].saves[k].replace
    ensures var w := Run(Start(first), moves, h, index);
            var save, before := w.sessions[s].saves[k], w.sessions[s].editor;
            var after := Do(w, Answer(s, k), h, index).sessions[s].editor;
            && after.spec.value == before.spec.value && after.layout.value == before.layout.value
            && (save.edits < w.sessions[s].edits ==>
                  && after.spec == before.spec && after.layout == before.layout
                  && (save.reply.Accepted? ==> after.dirty))
  {
    RunKeeps(first, moves, h, index);
    var w := Run(Start(first), moves, h, index);
    assert SessionKept(w.sessions[s], first, w.updates, w.unused);
    AnswerKeepsContent(w, s, k, h, index, first);
  }

  lemma AnswerKeepsContent(w: World, s: nat, k: nat, h: Json -> string, index: IndexReader, first: Publishing.Draft)
    requires s < |w.sessions| && k < |w.sessions[s].saves| && !w.sessions[s].saves[k].replace
    requires SaveKept(w.sessions[s], w.sessions[s].saves[k], first, w.updates, w.unused)
    ensures var save, before := w.sessions[s].saves[k], w.sessions[s].editor;
            var after := Do(w, Answer(s, k), h, index).sessions[s].editor;
            && after.spec.value == before.spec.value && after.layout.value == before.layout.value
            && (save.edits < w.sessions[s].edits ==>
                  && after.spec == before.spec && after.layout == before.layout
                  && (save.reply.Accepted? ==> after.dirty))
  {
    var save, before := w.sessions[s].saves[k], w.sessions[s].editor;
    if save.reply.Accepted? {
      OrdinarySaveKeepsContent(before, save.reply.draft, save.spec, save.layout, w.unused, index);
    }
  }

  // ----- one save from the page to the server and back -----

  /** A session after its page sent a save: the save is waiting, against the draft the page knows. */
  lemma SubmitSays(w: World, s: nat, candidate: Option<Json>, h: Json -> string, index: IndexReader)
    requires s < |w.sessions|
    ensures var session := w.sessions[s];
            var w' := Do(w, Submit(s, candidate), h, index);
            var sent := if candidate.Some? then Ref(w.unused, candidate.value) else session.editor.spec;
            && w'.server == w.server && w'.updates == w.updates && |w'.sessions| == |w.sessions|
            && (forall i | 0 <= i < |w.sessions| && i != s :: w'.sessions[i] == w.sessions[i])
            && w'.sessions[s].edits == session.edits && w'.sessions[s].editor == session.editor.(status := Saving, error := None)
            && w'.sessions[s].saves
               == session.saves
                  + [Save(sent, session.editor.layout, session.editor.server, candidate.Some?, session.edits, Waiting)]
  {}

  /** The server takes a waiting save exactly when it was made against the current revision: then its documents are the
      server's draft under the next revision; otherwise the server's draft stays, and the save is a conflict. */
  lemma HandleSays(w: World, s: nat, k: nat, h: Json -> string, index: IndexReader)
    requires s < |w.sessions| && k < |w.sessions[s].saves|
    ensures var session, save := w.sessions[s], w.sessions[s].saves[k];
            var w' := Do(w, Handle(s, k), h, index);
            if !save.reply.Waiting? then w' == w
            else
              && |w'.sessions| == |w.sessions| && (forall i | 0 <= i < |w.sessions| && i != s :: w'.sessions[i] == w.sessions[i])
              && w'.sessions[s].editor == session.editor && w'.sessions[s].edits == session.edits
              && |w'.sessions[s].saves| == |session.saves|
              && (forall i | 0 <= i < |session.saves| && i != k :: w'.sessions[s].saves[i] == session.saves[i])
              && if save.base.revision == w.server.revision
                 then
                   && w'.server == Publishing.Draft(w.server.id, w.server.revision + 1, h(save.spec.value), save.spec.value,
                                                    w.server.base, save.layout.value)
                   && w'.updates == w.updates + [Update(save.base, w'.server)]
                   && w'.sessions[s].saves[k] == save.(reply := Accepted(w'.server))
                 else w'.server == w.server && w'.updates == w.updates && w'.sessions[s].saves[k] == save.(reply := Conflict)
  {}

  /** The page is told: the editor shows the accepted draft, or stays as it is with the conflict on record. */
  lemma AnswerSays(w: World, s: nat, k: nat, h: Json -> string, index: IndexReader)
    requires s < |w.sessions| && k < |w.sessions[s].saves|
    ensures var session, save := w.sessions[s], w.sessions[s].saves[k];
            var w' := Do(w, Answer(s, k), h, index);
            && w'.server == w.server && w'.updates == w.updates && |w'.sessions| == |w.sessions|
            && (forall i | 0 <= i < |w.sessions| && i != s :: w'.sessions[i] == w.sessions[i])
            && w'.sessions[s].saves == session.saves && w'.sessions[s].edits == session.edits
            && var e, after := session.editor, w'.sessions[s].editor;
            && (save.reply.Waiting? ==> after == e)
            && (save.reply.Conflict? ==>
                  after == e.(issues := [], status := Conflicted, error := Some("agent_draft_revision_conflict")))
            && (save.reply.Accepted? ==> after.server == save.reply.draft && after.error.None?)
            && (save.reply.Accepted? && (save.replace || (e.spec == save.spec && e.layout == save.layout)) ==>
                  !after.dirty && after.spec.value == save.reply.draft.spec && after.layout.value == save.reply.draft.layout
                  && after.status == Saved && after.issues == [])
  {
    if AnswerAction(w.sessions[s].saves[k]).Some? {
      SavesSay(w.sessions[s].editor, w.server, false, w.sessions[s].editor.spec, w.sessions[s].editor.layout, [],
        "agent_draft_revision_conflict", w.unused, index);
    }
  }

  /** A save that nothing comes between: it goes through exactly when the page knew the current revision, and then page and
      server have the same draft; otherwise the server keeps its own and the page its edits. */
  lemma SaveRoundTrip(w: World, s: nat, h: Json -> string, index: IndexReader)
    requires s < |w.sessions|
    ensures var k := |w.sessions[s].saves|;
            var e := w.sessions[s].editor;
            var done := Do(Do(Do(w, Submit(s, None), h, index), Handle(s, k), h, index), Answer(s, k), h, index);
            && s < |done.sessions| && var after := done.sessions[s].editor;
            && after.spec.value == e.spec.value && after.layout.value == e.layout.value
            && if e.server.revision == w.server.revision
               then
                 && done.server.revision == w.server.revision + 1
                 && done.server.spec == e.spec.value && done.server.layout == e.layout.value
                 && done.server.digest == h(e.spec.value)
                 && after.server == done.server && !after.dirty && after.status == Saved && after.error.None?
               else
                 && done.server == w.server && after.server == e.server && after.dirty == e.dirty
                 && after.status == Conflicted && after.error == Some("agent_draft_revision_conflict")
  {
    var k := |w.sessions[s].saves|;
    SubmitSays(w, s, None, h, index);
    var sent := Do(w, Submit(s, None), h, index);
    HandleSays(sent, s, k, h, index);
    var handled := Do(sent, Handle(s, k), h, index);
    AnswerSays(handled, s, k, h, index);
  }

  /** Opening a page adds a session on the server's current draft; a failure from elsewhere is shown on its page only. */
  lemma OpenSays(w: World, selected: Option<string>, run: Option<string>, h: Json -> string, index: IndexReader)
    ensures var w' := Do(w, Open(selected, run), h, index);
            && w'.server == w.server && w'.updates == w.updates && |w'.sessions| == |w.sessions| + 1
            && w'.sessions[..|w.sessions|] == w.sessions && w'.sessions[|w.sessions|].saves == []
            && w'.sessions[|w.sessions|].edits == 0
            && var e := w'.sessions[|w.sessions|].editor;
            && e.server == w.server && e.spec.value == w.server.spec && e.layout.value == w.server.layout && !e.dirty
            && e.selected == selected && e.run == run
  {}

  lemma FailSays(w: World, s: nat, k: nat, code: string, issues: seq<Issue>, h: Json -> string, index: IndexReader)
    requires s < |w.sessions|
    ensures var w' := Do(w, Fail(s, k, code, issues), h, index);
            && w'.server == w.server && w'.updates == w.updates && |w'.sessions| == |w.sessions|
            && (forall i | 0 <= i < |w.sessions| && i != s :: w'.sessions[i] == w.sessions[i])
            && w'.sessions[s].saves == w.sessions[s].saves
            && w'.sessions[s].editor.issues == issues && w'.sessions[s].editor.error == Some(code)
            && w'.sessions[s].editor.spec == w.sessions[s].editor.spec
            && w'.sessions[s].editor.layout == w.sessions[s].editor.layout
  {}

  /** Any other action of a page changes its own editor as the reducer says, and nothing else. */
  lemma ActSays(w: World, s: nat, action: Action, h: Json -> string, index: IndexReader)
    requires s < |w.sessions| && !action.SaveStarted? && !action.SaveSucceeded? && !action.SaveFailed?
    ensures var w' := Do(w, Act(s, action), h, index);
            var r := Reduce(w.sessions[s].editor, action, w.unused, index);
            && w'.server == w.server && w'.updates == w.updates && |w'.sessions| == |w.sessions|
            && (forall i | 0 <= i < |w.sessions| && i != s :: w'.sessions[i] == w.sessions[i])
            && w'.sessions[s].saves == w.sessions[s].saves
            && w'.sessions[s].editor == (if r.Some? then r.value else w.sessions[s].editor)
  {}
}
