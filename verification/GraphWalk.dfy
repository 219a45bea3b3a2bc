/** Agent graphs of schema-valid specs: the semantic validator and the walk that selects the execution path. */
module GraphWalk {
  import opened Options
  import opened Json

  datatype NodeKind = Input | Model | Tool | Output | OtherKind(name: string)

  datatype Node = Node(id: string, kind: NodeKind, inputs: seq<string>, outputs: seq<string>,
    model: Option<string>, tool: Option<string>)

  datatype Endpoint = Endpoint(node: string, port: string)

  datatype Edge = Edge(id: string, source: Endpoint, target: Endpoint)

  datatype Graph = Graph(nodes: seq<Node>, edges: seq<Edge>, models: set<string>, tools: set<string>)

  datatype Code =
    | DuplicateNodeId | DuplicateEdgeId | DuplicatePortId
    | DanglingModelProfileReference | DanglingToolReference | DanglingNodeReference | DanglingPortReference

  /** An issue names its place by the path its pointer text prints. */
  datatype Issue = Issue(code: Code, place: seq<Step>, node: Option<string>)

  // ----- validate_agent_graph_issues -----

  function NodeIds(nodes: seq<Node>): (r: seq<string>)
    ensures |r| == |nodes| && forall k | 0 <= k < |r| :: r[k] == nodes[k].id
  {
    if nodes == [] then [] else NodeIds(nodes[..|nodes| - 1]) + [nodes[|nodes| - 1].id]
  }

  function EdgeIds(edges: seq<Edge>): (r: seq<string>)
    ensures |r| == |edges| && forall k | 0 <= k < |r| :: r[k] == edges[k].id
  {
    if edges == [] then [] else EdgeIds(edges[..|edges| - 1]) + [edges[|edges| - 1].id]
  }

  function Elements(s: seq<string>): (r: set<string>)
    ensures forall x :: x in r <==> x in s
  {
    set x | x in s
  }

  /** len(s) != len(set(s)) */
  predicate Repeats(s: seq<string>) { |s| != |Elements(s)| }

  /** The dictionary of nodes by id: the last node with an id. */
  function ById(nodes: seq<Node>, id: string): (r: Option<Node>)
    ensures r.Some? ==> r.value in nodes && r.value.id == id
    ensures r.None? ==> forall k | 0 <= k < |nodes| :: nodes[k].id != id
  {
    if nodes == [] then None
    else if nodes[|nodes| - 1].id == id then Some(nodes[|nodes| - 1])
    else ById(nodes[..|nodes| - 1], id)
  }

  function If(c: bool, issue: Issue): seq<Issue> { if c then [issue] else [] }

  function NodeIssues(g: Graph, k: nat): seq<Issue>
    requires k < |g.nodes|
  {
    var n := g.nodes[k];
    If(Repeats(n.inputs), NodeIssue(DuplicatePortId, k, "input_ports", n))
    + If(Repeats(n.outputs), NodeIssue(DuplicatePortId, k, "output_ports", n))
    + If(n.model.Some? && n.model.value !in g.models, NodeIssue(DanglingModelProfileReference, k, "model_profile_ref", n))
    + If(n.tool.Some? && n.tool.value !in g.tools, NodeIssue(DanglingToolReference, k, "tool_ref", n))
  }

  function NodeIssue(code: Code, k: nat, field: string, n: Node): Issue {
    Issue(code, [Key("nodes"), At(k), Key(field)], Some(n.id))
  }

  datatype Side = Source | Target

  function EndpointIssues(g: Graph, k: nat, side: Side, e: Endpoint): seq<Issue> {
    match ById(g.nodes, e.node)
    case None => [Issue(DanglingNodeReference, EndpointPlace(k, side, "node_id"), None)]
    case Some(n) =>
      If(e.port !in PortsOf(n, side), Issue(DanglingPortReference, EndpointPlace(k, side, "port_id"), Some(e.node)))
  }

  function EndpointPlace(k: nat, side: Side, field: string): seq<Step> {
    [Key("edges"), At(k), Key(if side.Source? then "source" else "target"), Key(field)]
  }

  function PortsOf(n: Node, side: Side): seq<string> { if side.Source? then n.outputs else n.inputs }

  function EdgeIssues(g: Graph, k: nat): seq<Issue>
    requires k < |g.edges|
  {
    EndpointIssues(g, k, Source, g.edges[k].source) + EndpointIssues(g, k, Target, g.edges[k].target)
  }

  function Flat(parts: seq<seq<Issue>>): seq<Issue> {
    if parts == [] then [] else Flat(parts[..|parts| - 1]) + parts[|parts| - 1]
  }

  function OfNodes(g: Graph): (r: seq<seq<Issue>>)
    ensures |r| == |g.nodes| && forall k | 0 <= k < |r| :: r[k] == NodeIssues(g, k)
  {
    seq(|g.nodes|, k requires 0 <= k < |g.nodes| => NodeIssues(g, k))
  }

  function OfEdges(g: Graph): (r: seq<seq<Issue>>)
    ensures |r| == |g.edges| && forall k | 0 <= k < |r| :: r[k] == EdgeIssues(g, k)
  {
    seq(|g.edges|, k requires 0 <= k < |g.edges| => EdgeIssues(g, k))
  }

  function OfGraph(g: Graph): seq<Issue> {
    If(Repeats(NodeIds(g.nodes)), Issue(DuplicateNodeId, [Key("nodes")], None))
    + If(Repeats(EdgeIds(g.edges)), Issue(DuplicateEdgeId, [Key("edges")], None))
  }

  function Issues(g: Graph): seq<Issue> { OfGraph(g) + Flat(OfNodes(g)) + Flat(OfEdges(g)) }

  lemma FlatNext(head: seq<Issue>, parts: seq<seq<Issue>>, k: nat)
    requires k < |parts|
    ensures head + Flat(parts[..k + 1]) == head + Flat(parts[..k]) + parts[k]
  {
    assert parts[..k + 1][..k] == parts[..k];
  }

  method ValidateAgentGraphIssues(g: Graph) returns (issues: seq<Issue>)
    ensures issues == Issues(g)
  {
    issues := [];
    if Repeats(NodeIds(g.nodes)) { issues := issues + [Issue(DuplicateNodeId, [Key("nodes")], None)]; }
    if Repeats(EdgeIds(g.edges)) { issues := issues + [Issue(DuplicateEdgeId, [Key("edges")], None)]; }
    assert issues == OfGraph(g);
    issues := ValidateNodes(g, issues);
    issues := ValidateEdges(g, issues);
  }

  method ValidateNodes(g: Graph, before: seq<Issue>) returns (issues: seq<Issue>)
    ensures issues == before + Flat(OfNodes(g))
  {
    issues := before;
    ghost var parts := OfNodes(g);
    for k := 0 to |g.nodes|
      invariant issues == before + Flat(parts[..k])
    {
      issues := ValidateNode(g, k, issues);
      FlatNext(before, parts, k);
    }
    assert parts[..|g.nodes|] == parts;
  }

  method ValidateEdges(g: Graph, before: seq<Issue>) returns (issues: seq<Issue>)
    ensures issues == before + Flat(OfEdges(g))
  {
    issues := before;
    ghost var parts := OfEdges(g);
    for k := 0 to |g.edges|
      invariant issues == before + Flat(parts[..k])
    {
      issues := ValidateEdge(g, k, issues);
      FlatNext(before, parts, k);
    }
    assert parts[..|g.edges|] == parts;
  }

  /** One edge's two endpoints, checked in order. */
  method ValidateEdge(g: Graph, k: nat, before: seq<Issue>) returns (issues: seq<Issue>)
    requires k < |g.edges|
    ensures issues == before + EdgeIssues(g, k)
  {
    issues := before;
    var sides := [Source, Target];
    for n := 0 to 2
      invariant issues == before + (if n == 0 then []
        else if n == 1 then EndpointIssues(g, k, Source, g.edges[k].source)
        else EdgeIssues(g, k))
    {
      var endpoint := if sides[n].Source? then g.edges[k].source else g.edges[k].target;
      var node := ById(g.nodes, endpoint.node);
      if node.None? {
        issues := issues + [Issue(DanglingNodeReference, EndpointPlace(k, sides[n], "node_id"), None)];
      } else if endpoint.port !in PortsOf(node.value, sides[n]) {
        issues := issues + [Issue(DanglingPortReference, EndpointPlace(k, sides[n], "port_id"), Some(endpoint.node))];
      }
    }
  }

  /** One node's checks, appended in order. */
  method ValidateNode(g: Graph, k: nat, before: seq<Issue>) returns (issues: seq<Issue>)
    requires k < |g.nodes|
    ensures issues == before + NodeIssues(g, k)
  {
    var n := g.nodes[k];
    issues := before;
    if Repeats(n.inputs) { issues := issues + [NodeIssue(DuplicatePortId, k, "input_ports", n)]; }
    if Repeats(n.outputs) { issues := issues + [NodeIssue(DuplicatePortId, k, "output_ports", n)]; }
    if n.model.Some? && n.model.value !in g.models {
      issues := issues + [NodeIssue(DanglingModelProfileReference, k, "model_profile_ref", n)];
    }
    if n.tool.Some? && n.tool.value !in g.tools {
      issues := issues + [NodeIssue(DanglingToolReference, k, "tool_ref", n)];
    }
  }

  ghost predicate Distinct(s: seq<string>) { forall i, j | 0 <= i < j < |s| :: s[i] != s[j] }

  ghost predicate Attached(g: Graph, e: Endpoint, side: Side) {
    exists n :: n in g.nodes && n.id == e.node && (if side.Source? then e.port in n.outputs else e.port in n.inputs)
  }

  ghost predicate EdgeSound(g: Graph, e: Edge) { Attached(g, e.source, Source) && Attached(g, e.target, Target) }

  /** What a valid graph is: unique ids, resolved references, and edges that join existing ports. */
  ghost predicate WellFormed(g: Graph) {
    && Distinct(NodeIds(g.nodes)) && Distinct(EdgeIds(g.edges))
    && (forall k | 0 <= k < |g.nodes| :: NodeSound(g, g.nodes[k]))
    && forall k | 0 <= k < |g.edges| :: EdgeSound(g, g.edges[k])
  }

  ghost predicate NodeSound(g: Graph, n: Node) {
    && Distinct(n.inputs) && Distinct(n.outputs)
    && (n.model.Some? ==> n.model.value in g.models)
    && (n.tool.Some? ==> n.tool.value in g.tools)
  }

  lemma {:induction false} RepeatsMeans(s: seq<string>)
    ensures |Elements(s)| <= |s|
    ensures Repeats(s) <==> !Distinct(s)
  {
    if s == [] {
      assert Elements(s) == {};
    } else {
      var init, x := s[..|s| - 1], s[|s| - 1];
      RepeatsMeans(init);
      DistinctNext(init, x);
      assert s == init + [x];
      assert Elements(s) == if x in init then Elements(init) else Elements(init) + {x};
    }
  }

  lemma DistinctNext(init: seq<string>, x: string)
    ensures Distinct(init + [x]) <==> Distinct(init) && x !in init
  {
    var s := init + [x];
    assert forall i | 0 <= i < |init| :: s[i] == init[i];
    if x in init {
      var i :| 0 <= i < |init| && init[i] == x;
      assert s[i] == s[|s| - 1];
    }
  }

  lemma NodeIsSilent(g: Graph, k: nat)
    requires k < |g.nodes|
    ensures NodeIssues(g, k) == [] <==> NodeSound(g, g.nodes[k])
  {
    RepeatsMeans(g.nodes[k].inputs);
    RepeatsMeans(g.nodes[k].outputs);
  }

  lemma {:induction false} FlatIsEmpty(parts: seq<seq<Issue>>)
    ensures Flat(parts) == [] <==> forall k | 0 <= k < |parts| :: parts[k] == []
  {
    if parts != [] {
      var init := parts[..|parts| - 1];
      FlatIsEmpty(init);
      assert forall k | 0 <= k < |init| :: init[k] == parts[k];
      assert |Flat(parts)| == |Flat(init)| + |parts[|parts| - 1]|;
    }
  }

  lemma NodesAreSilent(g: Graph)
    ensures Flat(OfNodes(g)) == [] <==> forall k | 0 <= k < |g.nodes| :: NodeSound(g, g.nodes[k])
  {
    FlatIsEmpty(OfNodes(g));
    forall k | 0 <= k < |g.nodes| ensures OfNodes(g)[k] == [] <==> NodeSound(g, g.nodes[k]) {
      NodeIsSilent(g, k);
    }
  }

  lemma ByIdIsTheNode(g: Graph, n: Node)
    requires Distinct(NodeIds(g.nodes)) && n in g.nodes
    ensures ById(g.nodes, n.id) == Some(n)
  {
    var i :| 0 <= i < |g.nodes| && g.nodes[i] == n;
    var m := ById(g.nodes, n.id);
    assert g.nodes[i].id == n.id;
    var j :| 0 <= j < |g.nodes| && g.nodes[j] == m.value;
    assert NodeIds(g.nodes)[i] == NodeIds(g.nodes)[j];
  }

  lemma EndpointIsSilent(g: Graph, k: nat, side: Side, e: Endpoint)
    requires Distinct(NodeIds(g.nodes))
    ensures EndpointIssues(g, k, side, e) == [] <==> Attached(g, e, side)
  {
    if Attached(g, e, side) {
      var n :| n in g.nodes && n.id == e.node && (if side.Source? then e.port in n.outputs else e.port in n.inputs);
      ByIdIsTheNode(g, n);
    }
  }

  lemma EdgeIsSilent(g: Graph, k: nat)
    requires k < |g.edges| && Distinct(NodeIds(g.nodes))
    ensures EdgeIssues(g, k) == [] <==> EdgeSound(g, g.edges[k])
  {
    var e := g.edges[k];
    EndpointIsSilent(g, k, Source, e.source);
    EndpointIsSilent(g, k, Target, e.target);
    assert |EdgeIssues(g, k)| == |EndpointIssues(g, k, Source, e.source)| + |EndpointIssues(g, k, Target, e.target)|;
  }

  lemma EdgesAreSilent(g: Graph)
    requires Distinct(NodeIds(g.nodes))
    ensures Flat(OfEdges(g)) == [] <==> forall k | 0 <= k < |g.edges| :: EdgeSound(g, g.edges[k])
  {
    FlatIsEmpty(OfEdges(g));
    forall k | 0 <= k < |g.edges| ensures OfEdges(g)[k] == [] <==> EdgeSound(g, g.edges[k]) {
      EdgeIsSilent(g, k);
    }
  }

  /** The validator is silent exactly on well-formed graphs. */
  lemma NoIssuesIffWellFormed(g: Graph)
    ensures Issues(g) == [] <==> WellFormed(g)
  {
    RepeatsMeans(NodeIds(g.nodes));
    RepeatsMeans(EdgeIds(g.edges));
    NodesAreSilent(g);
    if Distinct(NodeIds(g.nodes)) { EdgesAreSilent(g); }
    assert |Issues(g)| == |OfGraph(g)| + |Flat(OfNodes(g))| + |Flat(OfEdges(g))|;
  }

  // ----- every issue is a fault, and every fault an issue -----

  ghost predicate NodeFault(g: Graph, i: Issue, k: nat) {
    k < |g.nodes| &&
    var n := g.nodes[k];
    || (i == Issue(DuplicatePortId, [Key("nodes"), At(k), Key("input_ports")], Some(n.id)) && !Distinct(n.inputs))
    || (i == Issue(DuplicatePortId, [Key("nodes"), At(k), Key("output_ports")], Some(n.id)) && !Distinct(n.outputs))
    || (i == Issue(DanglingModelProfileReference, [Key("nodes"), At(k), Key("model_profile_ref")], Some(n.id))
        && n.model.Some? && n.model.value !in g.models)
    || (i == Issue(DanglingToolReference, [Key("nodes"), At(k), Key("tool_ref")], Some(n.id))
        && n.tool.Some? && n.tool.value !in g.tools)
  }

  /** An endpoint whose node is unknown, or whose port the node (the last with that id) does not have. */
  ghost predicate EndpointFault(g: Graph, i: Issue, k: nat, side: Side) {
    k < |g.edges| &&
    var e := if side.Source? then g.edges[k].source else g.edges[k].target;
    var place := [Key("edges"), At(k), if side.Source? then Key("source") else Key("target")];
    || (i == Issue(DanglingNodeReference, place + [Key("node_id")], None) && forall n | n in g.nodes :: n.id != e.node)
    || (i == Issue(DanglingPortReference, place + [Key("port_id")], Some(e.node))
        && ById(g.nodes, e.node).Some?
        && var n := ById(g.nodes, e.node).value;
           if side.Source? then e.port !in n.outputs else e.port !in n.inputs)
  }

  ghost predicate Fault(g: Graph, i: Issue) {
    || (i == Issue(DuplicateNodeId, [Key("nodes")], None) && !Distinct(NodeIds(g.nodes)))
    || (i == Issue(DuplicateEdgeId, [Key("edges")], None) && !Distinct(EdgeIds(g.edges)))
    || (exists k: nat :: NodeFault(g, i, k))
    || (exists k: nat, side :: EndpointFault(g, i, k, side))
  }

  lemma {:induction false} FlatHas(parts: seq<seq<Issue>>, i: Issue)
    ensures i in Flat(parts) <==> exists k :: 0 <= k < |parts| && i in parts[k]
  {
    if parts != [] {
      var init := parts[..|parts| - 1];
      FlatHas(init, i);
      assert forall k | 0 <= k < |init| :: init[k] == parts[k];
    }
  }

  lemma NodeIssuesAreFaults(g: Graph, i: Issue, k: nat)
    requires k < |g.nodes|
    ensures i in NodeIssues(g, k) <==> NodeFault(g, i, k)
  {
    RepeatsMeans(g.nodes[k].inputs);
    RepeatsMeans(g.nodes[k].outputs);
  }

  lemma EdgeIssuesAreFaults(g: Graph, i: Issue, k: nat)
    requires k < |g.edges|
    ensures i in EdgeIssues(g, k) <==> EndpointFault(g, i, k, Source) || EndpointFault(g, i, k, Target)
  {
    var e := g.edges[k];
    assert i in EdgeIssues(g, k) <==>
           i in EndpointIssues(g, k, Source, e.source) || i in EndpointIssues(g, k, Target, e.target);
    EndpointIssuesAreFaults(g, i, k, Source, e.source);
    EndpointIssuesAreFaults(g, i, k, Target, e.target);
  }

  lemma EndpointIssuesAreFaults(g: Graph, i: Issue, k: nat, side: Side, e: Endpoint)
    requires k < |g.edges| && e == if side.Source? then g.edges[k].source else g.edges[k].target
    ensures i in EndpointIssues(g, k, side, e) <==> EndpointFault(g, i, k, side)
  {
    var place := [Key("edges"), At(k), if side.Source? then Key("source") else Key("target")];
    assert place + [Key("node_id")] == EndpointPlace(k, side, "node_id");
    assert place + [Key("port_id")] == EndpointPlace(k, side, "port_id");
    match ById(g.nodes, e.node)
    case None => assert forall n | n in g.nodes :: n.id != e.node;
    case Some(n) => assert n in g.nodes && n.id == e.node;
  }

  /** The validator reports exactly the faults of the graph, each with its code, place and node. */
  lemma IssuesAreExact(g: Graph, i: Issue)
    ensures i in Issues(g) <==> Fault(g, i)
  {
    RepeatsMeans(NodeIds(g.nodes));
    RepeatsMeans(EdgeIds(g.edges));
    FlatHas(OfNodes(g), i);
    FlatHas(OfEdges(g), i);
    assert i in Issues(g) <==> i in OfGraph(g) || i in Flat(OfNodes(g)) || i in Flat(OfEdges(g));
    NodesReportFaults(g, i);
    EdgesReportFaults(g, i);
  }

  lemma NodesReportFaults(g: Graph, i: Issue)
    ensures (exists k :: 0 <= k < |g.nodes| && i in OfNodes(g)[k]) <==> exists k: nat :: NodeFault(g, i, k)
  {
    forall k: nat | k < |g.nodes| ensures i in OfNodes(g)[k] <==> NodeFault(g, i, k) { NodeIssuesAreFaults(g, i, k); }
  }

  lemma EdgesReportFaults(g: Graph, i: Issue)
    ensures (exists k :: 0 <= k < |g.edges| && i in OfEdges(g)[k]) <==> exists k: nat, side :: EndpointFault(g, i, k, side)
  {
    forall k: nat | k < |g.edges|
      ensures i in OfEdges(g)[k] <==> EndpointFault(g, i, k, Source) || EndpointFault(g, i, k, Target)
    {
      EdgeIssuesAreFaults(g, i, k);
    }
    if k: nat, side :| EndpointFault(g, i, k, side) {
      assert side == Source || side == Target;
      assert i in OfEdges(g)[k];
    }
  }

  // ----- _execution_path -----

  datatype Path = Ok(nodes: seq<Node>) | UnsupportedShape | LookupFailed

  const SUPPORTED_PATH := [Input, Model, Tool, Output]

  /** The targets of a node's edges, in edge order. */
  function Following(edges: seq<Edge>, id: string): seq<string> {
    if edges == [] then []
    else
      var e := edges[|edges| - 1];
      Following(edges[..|edges| - 1], id) + if e.source.node == id then [e.target.node] else []
  }

  function Kinds(nodes: seq<Node>): (r: seq<NodeKind>)
    ensures |r| == |nodes| && forall k | 0 <= k < |r| :: r[k] == nodes[k].kind
  {
    if nodes == [] then [] else Kinds(nodes[..|nodes| - 1]) + [nodes[|nodes| - 1].kind]
  }

  function Inputs(nodes: seq<Node>): (r: seq<Node>)
    ensures forall n :: n in r <==> n in nodes && n.kind.Input?
  {
    if nodes == [] then []
    else
      var last := nodes[|nodes| - 1];
      assert nodes == nodes[..|nodes| - 1] + [last];
      Inputs(nodes[..|nodes| - 1]) + if last.kind.Input? then [last] else []
  }

  predicate SourcesKnown(g: Graph, n: nat)
    requires n <= |g.edges|
  {
    forall k | 0 <= k < n :: ById(g.nodes, g.edges[k].source.node).Some?
  }

  function Finish(g: Graph, path: seq<Node>, visited: set<string>): Path {
    if Kinds(path) != SUPPORTED_PATH || |visited| != |g.nodes| then UnsupportedShape else Ok(path)
  }

  function Walk(g: Graph, current: Node, visited: set<string>, path: seq<Node>): Path
    requires current in g.nodes
    decreases |Elements(NodeIds(g.nodes)) - visited|
  {
    var next := Following(g.edges, current.id);
    if current.id in visited then UnsupportedShape
    else
      KnownId(g, current);
      if next == [] then Finish(g, path + [current], visited + {current.id})
      else if |next| != 1 then UnsupportedShape
      else if ById(g.nodes, next[0]).None? then LookupFailed
      else
        Shrinks(Elements(NodeIds(g.nodes)), visited, current.id);
        Walk(g, ById(g.nodes, next[0]).value, visited + {current.id}, path + [current])
  }

  lemma KnownId(g: Graph, n: Node)
    requires n in g.nodes
    ensures n.id in Elements(NodeIds(g.nodes))
  {
    var k :| 0 <= k < |g.nodes| && g.nodes[k] == n;
    assert NodeIds(g.nodes)[k] == n.id;
  }

  lemma Shrinks(all: set<string>, visited: set<string>, x: string)
    requires x in all && x !in visited
    ensures |all - (visited + {x})| < |all - visited|
  {
    assert all - (visited + {x}) == (all - visited) - {x};
  }

  function PathOf(g: Graph): Path {
    if !SourcesKnown(g, |g.edges|) then LookupFailed
    else
      var inputs := Inputs(g.nodes);
      if |inputs| != 1 then UnsupportedShape
      else
        assert inputs[0] in inputs;
        Walk(g, inputs[0], {}, [])
  }

  /** An edge from an unknown node makes the lookup fail, whatever the walk would meet. */
  lemma UnknownSourceFails(g: Graph, k: nat)
    requires k < |g.edges| && forall n | n in g.nodes :: n.id != g.edges[k].source.node
    ensures PathOf(g) == LookupFailed
  {}

  /** The dictionary has exactly the nodes' ids, each with its targets. */
  ghost predicate Lists(next: map<string, seq<string>>, nodes: seq<Node>, edges: seq<Edge>) {
    forall id :: (id in next <==> ById(nodes, id).Some?) && (id in next ==> next[id] == Following(edges, id))
  }

  lemma ListsNext(next: map<string, seq<string>>, nodes: seq<Node>, edges: seq<Edge>, e: Edge)
    requires Lists(next, nodes, edges) && e.source.node in next
    ensures Lists(next[e.source.node := next[e.source.node] + [e.target.node]], nodes, edges + [e])
  {
    assert (edges + [e])[..|edges|] == edges;
    var later := next[e.source.node := next[e.source.node] + [e.target.node]];
    forall id | id in later ensures later[id] == Following(edges + [e], id) {
      assert Following(edges, id) + [] == Following(edges, id);
    }
  }

  /** The adjacency dictionary, or None when an edge leaves an unknown node. */
  method NextById(g: Graph) returns (next: Option<map<string, seq<string>>>)
    ensures next.Some? <==> SourcesKnown(g, |g.edges|)
    ensures next.Some? ==> Lists(next.value, g.nodes, g.edges)
  {
    var nextById := EmptyLists(g.nodes);
    for k := 0 to |g.edges|
      invariant Lists(nextById, g.nodes, g.edges[..k])
      invariant SourcesKnown(g, k)
    {
      assert g.edges[..k + 1] == g.edges[..k] + [g.edges[k]];
      var source := g.edges[k].source.node;
      if source !in nextById {
        return None;
      }
      ListsNext(nextById, g.nodes, g.edges[..k], g.edges[k]);
      nextById := nextById[source := nextById[source] + [g.edges[k].target.node]];
    }
    assert g.edges[..|g.edges|] == g.edges;
    next := Some(nextById);
  }

  method EmptyLists(nodes: seq<Node>) returns (lists: map<string, seq<string>>)
    ensures forall id :: id in lists <==> ById(nodes, id).Some?
    ensures forall id | id in lists :: lists[id] == []
  {
    lists := map[];
    for k := 0 to |nodes|
      invariant forall id :: id in lists <==> ById(nodes[..k], id).Some?
      invariant forall id | id in lists :: lists[id] == []
    {
      assert nodes[..k + 1][..k] == nodes[..k];
      lists := lists[nodes[k].id := []];
    }
    assert nodes[..|nodes|] == nodes;
  }

  method ExecutionPath(g: Graph) returns (result: Path)
    ensures result == PathOf(g)
  {
    var nextById := NextById(g);
    if nextById.None? {
      return LookupFailed;
    }
    var inputs := Inputs(g.nodes);
    if |inputs| != 1 {
      return UnsupportedShape;
    }
    assert inputs[0] in inputs;
    var current, visited, path := inputs[0], {}, [];
    while true
      invariant current in g.nodes
      invariant Walk(g, current, visited, path) == PathOf(g)
      decreases |Elements(NodeIds(g.nodes)) - visited|
    {
      if current.id in visited {
        return UnsupportedShape;
      }
      KnownId(g, current);
      Shrinks(Elements(NodeIds(g.nodes)), visited, current.id);
      var following := nextById.value[current.id];
      visited := visited + {current.id};
      path := path + [current];
      if following == [] {
        break;
      }
      if |following| != 1 {
        return UnsupportedShape;
      }
      var next := ById(g.nodes, following[0]);
      if next.None? {
        return LookupFailed;
      }
      current := next.value;
    }
    if Kinds(path) != SUPPORTED_PATH || |visited| != |g.nodes| {
      return UnsupportedShape;
    }
    result := Ok(path);
  }
}
