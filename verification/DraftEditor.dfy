/** The draft editor's reducer. Documents are immutable objects: a `Ref` is one, known by its identity tag,
    and `===` on two of them is equality of the pairs. */
module DraftEditor {
  import opened Options
  import opened Json
  import opened Pointers
  import opened RunEvents
  import RunDatabase
  import EventMerge
  import Publishing
  import Sequences

  datatype Ref = Ref(tag: nat, value: Json)

  datatype Issue = Issue(code: string, pointer: string, node: Option<string>, messageKey: string)

  datatype SaveStatus = Idle | Saving | Saved | Errored | Conflicted

  datatype Editor = Editor(
    server: Publishing.Draft, spec: Ref, layout: Ref, dirty: bool, selected: Option<string>, issues: seq<Issue>,
    status: SaveStatus, error: Option<string>, run: Option<string>, runEvents: seq<Event>)

  datatype Action =
    | SemanticEdit(pointer: string, value: Json)
    | MoveNode(node: string, position: map<string, Json>)
    | SetViewport(viewport: Json)
    | SelectNode(selection: Option<string>)
    | SaveStarted
    | SaveSucceeded(draft: Publishing.Draft, replace: bool, submittedSpec: Ref, submittedLayout: Ref)
    | SaveFailed(issues: seq<Issue>, code: string)
    | RunBegan(run: string)
    | RunSaw(event: Event)
    | RunReset

  const CONFLICT := "agent_draft_revision_conflict"

  /** initialDraftState: the objects of the loaded draft are new to the page. */
  function Initial(draft: Publishing.Draft, selected: Option<string>, run: Option<string>, unused: nat): Editor {
    Editor(draft, Ref(unused, draft.spec), Ref(unused + 1, draft.layout), false, selected, [], Idle, None, run, [])
  }

  function Cleared(issues: seq<Issue>, pointer: string): seq<Issue> {
    if issues == [] then []
    else (if issues[0].pointer != pointer then [issues[0]] else []) + Cleared(issues[1..], pointer)
  }

  function Moved(nodes: seq<Json>, node: string, position: map<string, Json>): (r: seq<Json>)
    ensures |r| == |nodes|
  {
    if nodes == [] then []
    else
      var n := nodes[0];
      [if n.Obj? && "node_id" in n.fields && n.fields["node_id"] == Str(node) then Obj(n.fields + position) else n]
      + Moved(nodes[1..], node, position)
  }

  function WithMoved(layout: Json, node: string, position: map<string, Json>): Option<Json> {
    if layout.Obj? && "nodes" in layout.fields && layout.fields["nodes"].Arr?
    then Some(Obj(layout.fields["nodes" := Arr(Moved(layout.fields["nodes"].items, node, position))]))
    else None
  }

  function WithViewport(layout: Json, viewport: Json): Option<Json> {
    if layout.Obj? then Some(Obj(layout.fields["viewport" := viewport])) else None
  }

  function Edited(s: Editor, layout: Option<Json>, unused: nat): Option<Editor> {
    if layout.None? then None
    else Some(s.(layout := Ref(unused, layout.value), dirty := true, status := Idle, error := None))
  }

  /** The reducer; None when it throws. New objects take the unused tags `unused` and `unused + 1`. */
  function Reduce(s: Editor, action: Action, unused: nat, index: IndexReader): Option<Editor> {
    match action
    case SemanticEdit(pointer, value) =>
      (match ReplaceAtPointer(s.spec.value, pointer, value, index)
       case Refused(_) => None
       case Replaced(spec) =>
         Some(s.(spec := Ref(unused, spec), dirty := true, issues := Cleared(s.issues, pointer), status := Idle, error := None)))
    case MoveNode(node, position) => Edited(s, WithMoved(s.layout.value, node, position), unused)
    case SetViewport(viewport) => Edited(s, WithViewport(s.layout.value, viewport), unused)
    case SelectNode(selection) => Some(s.(selected := selection))
    case SaveStarted => Some(s.(status := Saving, error := None))
    case SaveSucceeded(draft, replace, submittedSpec, submittedLayout) =>
      if !replace && (s.spec != submittedSpec || s.layout != submittedLayout)
      then Some(s.(server := draft, dirty := true, status := Idle, error := None))
      else
        Some(s.(server := draft, spec := Ref(unused, draft.spec), layout := Ref(unused + 1, draft.layout), dirty := false,
                issues := [], status := Saved, error := None))
    case SaveFailed(issues, code) =>
      Some(s.(issues := issues, status := if code == CONFLICT then Conflicted else Errored, error := Some(code)))
    case RunBegan(run) => Some(s.(run := Some(run), runEvents := []))
    case RunSaw(event) => Some(s.(runEvents := RunDatabase.SortBySequence(EventMerge.Put(s.runEvents, event))))
    case RunReset => Some(s.(run := None, runEvents := []))
  }

  predicate ChangesContent(action: Action) { action.SemanticEdit? || action.MoveNode? || action.SetViewport? }

  /** A clean editor shows its server draft. */
  predicate CleanShowsServer(s: Editor) {
    !s.dirty ==> s.spec.value == s.server.spec && s.layout.value == s.server.layout
  }

  /** Every action keeps the clean-editor rule; only edits and save results touch the documents. */
  lemma ReduceKeepsClean(s: Editor, action: Action, unused: nat, index: IndexReader)
    requires CleanShowsServer(s) && Reduce(s, action, unused, index).Some?
    ensures var r := Reduce(s, action, unused, index).value;
            && CleanShowsServer(r)
            && (!ChangesContent(action) && !action.SaveSucceeded? ==>
                  r.spec == s.spec && r.layout == s.layout && r.dirty == s.dirty)
            && (!action.SaveSucceeded? ==> r.server == s.server)
            && (ChangesContent(action) ==> r.dirty)
  {}

  /** An ordinary save whose answer echoes what was submitted never changes the documents on the page:
      edits made meanwhile survive and leave the editor dirty, and without any the answer shows the same content. */
  lemma OrdinarySaveKeepsContent(s: Editor, draft: Publishing.Draft, spec: Ref, layout: Ref, unused: nat, index: IndexReader)
    requires draft.spec == spec.value && draft.layout == layout.value
    ensures var r := Reduce(s, SaveSucceeded(draft, false, spec, layout), unused, index);
            && r.Some? && r.value.server == draft
            && r.value.spec.value == s.spec.value && r.value.layout.value == s.layout.value
            && (r.value.dirty <==> s.spec != spec || s.layout != layout)
            && (r.value.dirty ==> r.value.spec == s.spec && r.value.layout == s.layout && r.value.issues == s.issues)
  {}

  /** A semantic edit of an existing place changes that place and nothing that diverges from it. */
  lemma SemanticEditIsLocal(s: Editor, keys: seq<string>, value: Json, unused: nat, index: IndexReader)
    requires Resolve(s.spec.value, keys, index).Some?
    ensures var r := Reduce(s, SemanticEdit(Encode(keys), value), unused, index);
            var path := Resolve(s.spec.value, keys, index).value;
            && r.Some? && r.value.dirty && r.value.layout == s.layout
            && Read(r.value.spec.value, path) == Some(value)
            && forall q :: Diverge(path, q) ==> Read(r.value.spec.value, q) == Read(s.spec.value, q)
  {
    ReplaceAtPointerLaws(s.spec.value, keys, value, index);
  }

  lemma {:induction false} MovedOnly(nodes: seq<Json>, node: string, position: map<string, Json>, k: nat)
    requires k < |nodes|
    ensures Moved(nodes, node, position)[k] ==
            if nodes[k].Obj? && "node_id" in nodes[k].fields && nodes[k].fields["node_id"] == Str(node)
            then Obj(nodes[k].fields + position) else nodes[k]
  {
    if k > 0 { MovedOnly(nodes[1..], node, position, k - 1); }
  }

  /** What an edit of the documents does besides: the editor is dirty, idle and without an error; run and selection stay. */
  ghost predicate EditKeeps(s: Editor, r: Editor) {
    && r.dirty && r.status == Idle && r.error.None?
    && r.server == s.server && r.selected == s.selected && r.run == s.run && r.runEvents == s.runEvents
  }

  /** Moving a node changes the entries of that node in the layout's list, member by member of the position, and nothing else;
      it fails exactly when the layout has no list of nodes. */
  lemma MoveNodeIsLocal(s: Editor, node: string, position: map<string, Json>, unused: nat, index: IndexReader)
    ensures var r := Reduce(s, MoveNode(node, position), unused, index);
            var layout := s.layout.value;
            && (r.Some? <==> layout.Obj? && "nodes" in layout.fields && layout.fields["nodes"].Arr?)
            && (r.Some? ==>
                  && EditKeeps(s, r.value) && r.value.spec == s.spec && r.value.issues == s.issues
                  && r.value.layout.tag == unused && var after := r.value.layout.value;
                  && after.Obj? && after.fields.Keys == layout.fields.Keys
                  && (forall k | k in layout.fields && k != "nodes" :: after.fields[k] == layout.fields[k])
                  && after.fields["nodes"].Arr? && |after.fields["nodes"].items| == |layout.fields["nodes"].items|
                  && forall k | 0 <= k < |layout.fields["nodes"].items| ::
                       MovedEntry(layout.fields["nodes"].items[k], node, position, after.fields["nodes"].items[k]))
  {
    if Reduce(s, MoveNode(node, position), unused, index).Some? {
      var items := s.layout.value.fields["nodes"].items;
      forall k | 0 <= k < |items| ensures MovedEntry(items[k], node, position, Moved(items, node, position)[k]) {
        MovedOnly(items, node, position, k);
      }
    }
  }

  /** A layout entry after the node was moved: its position's members are the new ones, all others are kept. */
  ghost predicate MovedEntry(entry: Json, node: string, position: map<string, Json>, after: Json) {
    if entry.Obj? && "node_id" in entry.fields && entry.fields["node_id"] == Str(node)
    then
      && after.Obj? && after.fields.Keys == entry.fields.Keys + position.Keys
      && (forall k | k in position :: after.fields[k] == position[k])
      && (forall k | k in entry.fields && k !in position :: after.fields[k] == entry.fields[k])
    else after == entry
  }

  /** Setting the viewport changes that member of the layout only. */
  lemma SetViewportIsLocal(s: Editor, viewport: Json, unused: nat, index: IndexReader)
    ensures var r := Reduce(s, SetViewport(viewport), unused, index);
            && (r.Some? <==> s.layout.value.Obj?)
            && (r.Some? ==>
                  && EditKeeps(s, r.value) && r.value.spec == s.spec && r.value.issues == s.issues
                  && r.value.layout.tag == unused && var after := r.value.layout.value;
                  && after.Obj? && after.fields.Keys == s.layout.value.fields.Keys + {"viewport"}
                  && after.fields["viewport"] == viewport
                  && forall k | k in s.layout.value.fields && k != "viewport" :: after.fields[k] == s.layout.value.fields[k])
  {}

  /** Clearing drops the issues at the pointer and keeps all others in their order. */
  lemma {:induction false} ClearedConcat(a: seq<Issue>, b: seq<Issue>, pointer: string)
    ensures Cleared(a + b, pointer) == Cleared(a, pointer) + Cleared(b, pointer)
  {
    if a == [] {
      assert a + b == b;
    } else {
      assert (a + b)[1..] == a[1..] + b;
      ClearedConcat(a[1..], b, pointer);
      Sequences.Associates(if a[0].pointer != pointer then [a[0]] else [], Cleared(a[1..], pointer), Cleared(b, pointer));
    }
  }

  lemma {:induction false} ClearedKeepsOthers(issues: seq<Issue>, pointer: string)
    ensures forall i | i in Cleared(issues, pointer) :: i in issues && i.pointer != pointer
    ensures (forall i | i in issues :: i.pointer != pointer) ==> Cleared(issues, pointer) == issues
    ensures (forall i | i in issues :: i.pointer == pointer) ==> Cleared(issues, pointer) == []
  {
    if issues != [] {
      ClearedKeepsOthers(issues[1..], pointer);
      assert issues == [issues[0]] + issues[1..];
    }
  }

  /** A semantic edit that replaces its place leaves a new spec object, clears what was reported at its pointer, and keeps
      the rest; one that does not throws. */
  lemma SemanticEditSays(s: Editor, pointer: string, value: Json, unused: nat, index: IndexReader)
    ensures var r := Reduce(s, SemanticEdit(pointer, value), unused, index);
            && (r.Some? <==> ReplaceAtPointer(s.spec.value, pointer, value, index).Replaced?)
            && (r.Some? ==>
                  && EditKeeps(s, r.value) && r.value.layout == s.layout && r.value.spec.tag == unused
                  && Replaced(r.value.spec.value) == ReplaceAtPointer(s.spec.value, pointer, value, index)
                  && (forall i | i in r.value.issues :: i in s.issues && i.pointer != pointer)
                  && ((forall i | i in s.issues :: i.pointer != pointer) ==> r.value.issues == s.issues)
                  && forall a, b | s.issues == a + b :: r.value.issues == Cleared(a, pointer) + Cleared(b, pointer))
  {
    ClearedKeepsOthers(s.issues, pointer);
    forall a, b | s.issues == a + b ensures Cleared(s.issues, pointer) == Cleared(a, pointer) + Cleared(b, pointer) {
      ClearedConcat(a, b, pointer);
    }
  }

  /** What the page shows once a draft is loaded, with the selection and run it restores. */
  lemma LoadedSays(draft: Publishing.Draft, selected: Option<string>, run: Option<string>, unused: nat)
    ensures var s := Initial(draft, selected, run, unused);
            && s.server == draft && s.spec.value == draft.spec && s.layout.value == draft.layout && !s.dirty
            && s.spec.tag >= unused && s.layout.tag >= unused && s.spec.tag != s.layout.tag
            && s.selected == selected && s.run == run
            && s.issues == [] && s.runEvents == [] && s.status == Idle && s.error.None?
            && CleanShowsServer(s)
  {}

  /** The life of a save in the editor: under way without an error; answered, with the server's draft on the page and nothing
      reported, unless an ordinary one was overtaken by edits; refused, with the issues and the code, a conflict by its own
      status. Documents are only touched where the server's draft is shown. */
  lemma SavesSay(
    s: Editor, draft: Publishing.Draft, replace: bool, spec: Ref, layout: Ref, issues: seq<Issue>, code: string,
    unused: nat, index: IndexReader)
    ensures Reduce(s, SaveStarted, unused, index)
         == Some(Editor(s.server, s.spec, s.layout, s.dirty, s.selected, s.issues, Saving, None, s.run, s.runEvents))
    ensures Reduce(s, SaveSucceeded(draft, replace, spec, layout), unused, index)
         == Some(if replace || (s.spec == spec && s.layout == layout)
                 then Editor(draft, Ref(unused, draft.spec), Ref(unused + 1, draft.layout), false, s.selected,
                             [], Saved, None, s.run, s.runEvents)
                 else Editor(draft, s.spec, s.layout, true, s.selected, s.issues, Idle, None, s.run, s.runEvents))
    ensures Reduce(s, SaveFailed(issues, code), unused, index)
         == Some(Editor(s.server, s.spec, s.layout, s.dirty, s.selected, issues,
                        if code == "agent_draft_revision_conflict" then Conflicted else Errored, Some(code), s.run, s.runEvents))
  {}

  /** Selection and runs leave documents, save status and issues alone; a run begins and ends with an empty list. */
  lemma RunActionsSay(s: Editor, selection: Option<string>, run: string, event: Event, unused: nat, index: IndexReader)
    ensures Reduce(s, SelectNode(selection), unused, index)
         == Some(Editor(s.server, s.spec, s.layout, s.dirty, selection, s.issues, s.status, s.error, s.run, s.runEvents))
    ensures Reduce(s, RunBegan(run), unused, index)
         == Some(Editor(s.server, s.spec, s.layout, s.dirty, s.selected, s.issues, s.status, s.error, Some(run), []))
    ensures Reduce(s, RunReset, unused, index)
         == Some(Editor(s.server, s.spec, s.layout, s.dirty, s.selected, s.issues, s.status, s.error, None, []))
    ensures var r := Reduce(s, RunSaw(event), unused, index);
            r.Some? && r.value == Editor(s.server, s.spec, s.layout, s.dirty, s.selected, s.issues, s.status, s.error, s.run,
                                         r.value.runEvents)
  {}

  lemma PutKeepsPrefix(run: Uuid, request: Uuid, log: seq<Event>, m: nat, k: nat)
    requires Chained(run, request, log) && k <= m <= |log| && k < |log|
    ensures EventMerge.Put(log[..m], log[k]) == log[..if k < m then m else m + 1]
  {
    var shown := log[..m];
    forall i | 0 <= i < m && i != k ensures shown[i].id != log[k].id {
      if log[i].id == log[k].id { ChainedIdsDiffer(run, request, log, i, k); }
    }
    if k < m {
      assert shown[k].id == log[k].id;
      assert shown[k := log[k]] == shown;
    } else {
      Sequences.TakeNext(log, m);
    }
  }

  /** Live run events: any re-delivered or next event of the run's log keeps the list a beginning of the log. */
  lemma RunEventsFollowLog(run: Uuid, request: Uuid, log: seq<Event>, s: Editor, m: nat, k: nat, unused: nat, index: IndexReader)
    requires Chained(run, request, log) && k <= m <= |log| && k < |log| && s.runEvents == log[..m]
    ensures var r := Reduce(s, RunSaw(log[k]), unused, index);
            r.Some? && r.value.runEvents == log[..if k < m then m else m + 1]
  {
    var top := if k < m then m else m + 1;
    PutKeepsPrefix(run, request, log, m, k);
    ChainedPrefix(run, request, log, log[..top]);
    RunDatabase.ChainedNumbered(run, request, log[..top]);
    RunDatabase.SortNumbered(log[..top], 1);
  }
}
