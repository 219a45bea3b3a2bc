/** Which graphs have an execution path: on valid graphs, exactly the chains. */
module GraphPaths {
  import opened Options
  import opened GraphWalk

  /** The (source, target) pairs of the edges, with their multiplicities. */
  function Links(edges: seq<Edge>): multiset<(string, string)> {
    if edges == [] then multiset{}
    else
      var e := edges[|edges| - 1];
      Links(edges[..|edges| - 1]) + multiset{(e.source.node, e.target.node)}
  }

  /** Four nodes of the four kinds whose only edges lead from one to the next, each once. */
  ghost predicate IsChain(g: Graph, a: Node, b: Node, c: Node, d: Node) {
    && multiset(g.nodes) == multiset{a, b, c, d}
    && a.kind == Input && b.kind == Model && c.kind == Tool && d.kind == Output
    && Links(g.edges) == multiset{(a.id, b.id), (b.id, c.id), (c.id, d.id)}
  }

  lemma {:induction false} LinksCountTargets(edges: seq<Edge>, s: string, t: string)
    ensures Links(edges)[(s, t)] == multiset(Following(edges, s))[t]
  {
    if edges != [] { LinksCountTargets(edges[..|edges| - 1], s, t); }
  }

  lemma {:induction false} LinksLeaveSources(edges: seq<Edge>, s: string, t: string)
    requires Links(edges)[(s, t)] > 0
    ensures exists k :: 0 <= k < |edges| && edges[k].source.node == s && edges[k].target.node == t
  {
    var init, e := edges[..|edges| - 1], edges[|edges| - 1];
    if e.source.node != s || e.target.node != t {
      LinksLeaveSources(init, s, t);
      var k :| 0 <= k < |init| && init[k].source.node == s && init[k].target.node == t;
      assert edges[k].source.node == s;
    }
  }

  lemma WellFormedLookups(g: Graph, k: nat)
    requires WellFormed(g) && k < |g.edges|
    ensures ById(g.nodes, g.edges[k].source.node).Some? && ById(g.nodes, g.edges[k].target.node).Some?
  {
    assert EdgeSound(g, g.edges[k]);
  }

  lemma {:induction false} FollowingIsKnown(nodes: seq<Node>, edges: seq<Edge>, id: string)
    requires forall k | 0 <= k < |edges| :: ById(nodes, edges[k].target.node).Some?
    ensures forall t | t in Following(edges, id) :: ById(nodes, t).Some?
  {
    if edges != [] { FollowingIsKnown(nodes, edges[..|edges| - 1], id); }
  }

  ghost predicate TargetsKnown(g: Graph) {
    forall id :: |Following(g.edges, id)| == 1 ==> ById(g.nodes, Following(g.edges, id)[0]).Some?
  }

  lemma ValidTargetsAreKnown(g: Graph)
    requires WellFormed(g)
    ensures TargetsKnown(g)
  {
    forall k | 0 <= k < |g.edges| ensures ById(g.nodes, g.edges[k].target.node).Some? { WellFormedLookups(g, k); }
    forall id | |Following(g.edges, id)| == 1 ensures ById(g.nodes, Following(g.edges, id)[0]).Some? {
      FollowingIsKnown(g.nodes, g.edges, id);
      assert Following(g.edges, id)[0] in Following(g.edges, id);
    }
  }

  lemma {:induction false} WalkNeverMissesALookup(g: Graph, current: Node, visited: set<string>, path: seq<Node>)
    requires TargetsKnown(g) && current in g.nodes
    ensures !Walk(g, current, visited, path).LookupFailed?
    decreases |Elements(NodeIds(g.nodes)) - visited|
  {
    var next := Following(g.edges, current.id);
    if current.id !in visited && |next| == 1 {
      var following := ById(g.nodes, next[0]).value;
      KnownId(g, current);
      Shrinks(Elements(NodeIds(g.nodes)), visited, current.id);
      WalkNeverMissesALookup(g, following, visited + {current.id}, path + [current]);
      assert Walk(g, current, visited, path) == Walk(g, following, visited + {current.id}, path + [current]);
    }
  }

  /** On a graph the validator accepts the walk ends without a failed lookup. */
  lemma ValidGraphsNeverMissALookup(g: Graph)
    requires Issues(g) == []
    ensures !PathOf(g).LookupFailed?
  {
    NoIssuesIffWellFormed(g);
    forall k | 0 <= k < |g.edges| ensures ById(g.nodes, g.edges[k].source.node).Some? { WellFormedLookups(g, k); }
    ValidTargetsAreKnown(g);
    if |Inputs(g.nodes)| == 1 {
      assert Inputs(g.nodes)[0] in Inputs(g.nodes);
      WalkNeverMissesALookup(g, Inputs(g.nodes)[0], {}, []);
    }
  }

  // ----- a chain has a path -----

  lemma Singleton<T>(s: seq<T>, x: T)
    requires multiset(s) == multiset{x}
    ensures s == [x]
  {
    assert |s| == |multiset(s)| == 1;
    assert s[0] in multiset(s);
  }

  /** A node with one link leads to its target only; one without links leads nowhere. */
  lemma OnlyFollowing(edges: seq<Edge>, s: string, t: string)
    requires forall u :: Links(edges)[(s, u)] == if u == t then 1 else 0
    ensures Following(edges, s) == [t]
  {
    forall u ensures multiset(Following(edges, s))[u] == multiset{t}[u] { LinksCountTargets(edges, s, u); }
    Singleton(Following(edges, s), t);
  }

  lemma NoFollowing(edges: seq<Edge>, s: string)
    requires forall u :: Links(edges)[(s, u)] == 0
    ensures Following(edges, s) == []
  {
    forall u ensures multiset(Following(edges, s))[u] == multiset{}[u] { LinksCountTargets(edges, s, u); }
    assert multiset(Following(edges, s)) == multiset{};
    assert |Following(edges, s)| == |multiset(Following(edges, s))|;
  }

  predicate AllDiffer(w: string, x: string, y: string, z: string) {
    w != x && w != y && w != z && x != y && x != z && y != z
  }

  /** Along w, x, y, z each leads only to the next, and the last nowhere. */
  ghost predicate LeadsOn(edges: seq<Edge>, w: string, x: string, y: string, z: string) {
    && Following(edges, w) == [x] && Following(edges, x) == [y] && Following(edges, y) == [z] && Following(edges, z) == []
  }

  function ThreeLinks(w: string, x: string, y: string, z: string): multiset<(string, string)> {
    multiset{(w, x), (x, y), (y, z)}
  }

  lemma ThreeLinksCount(w: string, x: string, y: string, z: string, s: string, t: string)
    requires AllDiffer(w, x, y, z)
    ensures ThreeLinks(w, x, y, z)[(s, t)] == if (s == w && t == x) || (s == x && t == y) || (s == y && t == z) then 1 else 0
  {}

  lemma LinksLeadOn(edges: seq<Edge>, w: string, x: string, y: string, z: string)
    requires AllDiffer(w, x, y, z) && Links(edges) == ThreeLinks(w, x, y, z)
    ensures LeadsOn(edges, w, x, y, z)
  {
    forall s, u ensures Links(edges)[(s, u)] == if (s == w && u == x) || (s == x && u == y) || (s == y && u == z) then 1 else 0 {
      ThreeLinksCount(w, x, y, z, s, u);
    }
    OnlyFollowing(edges, w, x);
    OnlyFollowing(edges, x, y);
    OnlyFollowing(edges, y, z);
    NoFollowing(edges, z);
  }

  lemma {:induction false} InputsCount(nodes: seq<Node>, n: Node)
    ensures multiset(Inputs(nodes))[n] == if n.kind.Input? then multiset(nodes)[n] else 0
  {
    if nodes != [] {
      assert nodes == nodes[..|nodes| - 1] + [nodes[|nodes| - 1]];
      InputsCount(nodes[..|nodes| - 1], n);
    }
  }

  lemma NodesDiffer(g: Graph, m: Node, n: Node)
    requires Distinct(NodeIds(g.nodes)) && m in g.nodes && n in g.nodes && m.kind != n.kind
    ensures m.id != n.id
  {
    ByIdIsTheNode(g, m);
    ByIdIsTheNode(g, n);
  }

  ghost predicate FourNodes(g: Graph, a: Node, b: Node, c: Node, d: Node) {
    && multiset(g.nodes) == multiset{a, b, c, d}
    && a.kind == Input && b.kind == Model && c.kind == Tool && d.kind == Output
  }

  lemma FourNodesAre(g: Graph, a: Node, b: Node, c: Node, d: Node)
    requires Distinct(NodeIds(g.nodes)) && FourNodes(g, a, b, c, d)
    ensures a in g.nodes && b in g.nodes && c in g.nodes && d in g.nodes && |g.nodes| == 4
    ensures AllDiffer(a.id, b.id, c.id, d.id)
  {
    var all := multiset{a, b, c, d};
    assert a in all && b in all && c in all && d in all;
    NodesDiffer(g, a, b);
    NodesDiffer(g, a, c);
    NodesDiffer(g, a, d);
    NodesDiffer(g, b, c);
    NodesDiffer(g, b, d);
    NodesDiffer(g, c, d);
    assert |g.nodes| == |multiset(g.nodes)| == |all|;
  }

  lemma OneInput(g: Graph, a: Node, b: Node, c: Node, d: Node)
    requires FourNodes(g, a, b, c, d)
    ensures Inputs(g.nodes) == [a]
  {
    forall n ensures multiset(Inputs(g.nodes))[n] == multiset{a}[n] { InputsCount(g.nodes, n); }
    Singleton(Inputs(g.nodes), a);
  }

  lemma WalkStep(g: Graph, current: Node, visited: set<string>, path: seq<Node>, next: Node)
    requires current in g.nodes && current.id !in visited && next in g.nodes && Distinct(NodeIds(g.nodes))
    requires Following(g.edges, current.id) == [next.id]
    ensures Walk(g, current, visited, path) == Walk(g, next, visited + {current.id}, path + [current])
  {
    ByIdIsTheNode(g, next);
  }

  lemma ChainWalk(g: Graph, a: Node, b: Node, c: Node, d: Node)
    requires Distinct(NodeIds(g.nodes)) && a in g.nodes && b in g.nodes && c in g.nodes && d in g.nodes && |g.nodes| == 4
    requires AllDiffer(a.id, b.id, c.id, d.id) && LeadsOn(g.edges, a.id, b.id, c.id, d.id)
    requires a.kind == Input && b.kind == Model && c.kind == Tool && d.kind == Output
    ensures Walk(g, a, {}, []) == Ok([a, b, c, d])
  {
    WalkStep(g, a, {}, [], b);
    WalkStep(g, b, {} + {a.id}, [] + [a], c);
    WalkStep(g, c, {} + {a.id} + {b.id}, [] + [a] + [b], d);
    var visited := {} + {a.id} + {b.id} + {c.id};
    assert visited + {d.id} == {a.id, b.id, c.id, d.id};
    FourIds(a.id, b.id, c.id, d.id);
    FourKinds(a, b, c, d);
    FourSteps(a, b, c, d);
    assert Walk(g, d, visited, [] + [a] + [b] + [c]) == Finish(g, [] + [a] + [b] + [c] + [d], visited + {d.id});
  }

  lemma FourSteps(a: Node, b: Node, c: Node, d: Node)
    ensures [] + [a] + [b] + [c] + [d] == [a, b, c, d]
  {}

  lemma FourKinds(a: Node, b: Node, c: Node, d: Node)
    requires a.kind == Input && b.kind == Model && c.kind == Tool && d.kind == Output
    ensures Kinds([a, b, c, d]) == SUPPORTED_PATH
  {
    var path := [a, b, c, d];
    var kinds := Kinds(path);
    assert kinds[0] == path[0].kind && kinds[1] == path[1].kind && kinds[2] == path[2].kind && kinds[3] == path[3].kind;
  }

  lemma FourIds(w: string, x: string, y: string, z: string)
    requires AllDiffer(w, x, y, z)
    ensures |{w, x, y, z}| == 4
  {}

  lemma ChainHasPath(g: Graph, a: Node, b: Node, c: Node, d: Node)
    requires WellFormed(g) && IsChain(g, a, b, c, d)
    ensures PathOf(g) == Ok([a, b, c, d])
  {
    assert FourNodes(g, a, b, c, d);
    FourNodesAre(g, a, b, c, d);
    OneInput(g, a, b, c, d);
    LinksLeadOn(g.edges, a.id, b.id, c.id, d.id);
    ChainWalk(g, a, b, c, d);
    forall k | 0 <= k < |g.edges| ensures ById(g.nodes, g.edges[k].source.node).Some? { WellFormedLookups(g, k); }
  }

  // ----- a path comes from a chain -----

  function IdsOf(path: seq<Node>): set<string> {
    if path == [] then {} else IdsOf(path[..|path| - 1]) + {path[|path| - 1].id}
  }

  /** A stretch of the walk: known nodes with different ids, each leading only to the next. */
  ghost predicate Stretch(g: Graph, path: seq<Node>) {
    path == [] ||
    (var n := |path| - 1;
     && Stretch(g, path[..n])
     && path[n] in g.nodes && path[n].id !in IdsOf(path[..n])
     && (n > 0 ==> Following(g.edges, path[n - 1].id) == [path[n].id]))
  }

  lemma StretchNext(g: Graph, path: seq<Node>, current: Node)
    requires current in g.nodes && Stretch(g, path) && current.id !in IdsOf(path)
    requires path != [] ==> Following(g.edges, path[|path| - 1].id) == [current.id]
    ensures Stretch(g, path + [current]) && IdsOf(path + [current]) == IdsOf(path) + {current.id}
  {
    assert (path + [current])[..|path|] == path;
  }

  lemma {:induction false} WalkLeavesStretch(g: Graph, current: Node, visited: set<string>, path: seq<Node>)
    requires current in g.nodes && Stretch(g, path) && visited == IdsOf(path) && |visited| == |path|
    requires path != [] ==> Following(g.edges, path[|path| - 1].id) == [current.id]
    ensures Walk(g, current, visited, path).Ok? ==> WholeStretch(g, Walk(g, current, visited, path).nodes)
    decreases |Elements(NodeIds(g.nodes)) - visited|
  {
    if current.id !in visited {
      var next := Following(g.edges, current.id);
      var more := path + [current];
      KnownId(g, current);
      Shrinks(Elements(NodeIds(g.nodes)), visited, current.id);
      StretchNext(g, path, current);
      assert |visited + {current.id}| == |visited| + 1;
      if next == [] {
        FinishedStretch(g, more, visited + {current.id});
        assert Walk(g, current, visited, path) == Finish(g, more, visited + {current.id});
      } else if |next| == 1 && ById(g.nodes, next[0]).Some? {
        var following := ById(g.nodes, next[0]).value;
        WalkLeavesStretch(g, following, visited + {current.id}, more);
        assert Walk(g, current, visited, path) == Walk(g, following, visited + {current.id}, more);
      }
    }
  }

  lemma FinishedStretch(g: Graph, path: seq<Node>, visited: set<string>)
    requires path != [] && Stretch(g, path) && |visited| == |path| && Following(g.edges, path[|path| - 1].id) == []
    ensures Finish(g, path, visited).Ok? ==> WholeStretch(g, Finish(g, path, visited).nodes)
  {
    assert |Kinds(path)| == |path|;
  }

  /** A stretch over as many nodes as there are, of the four kinds, that leads nowhere else. */
  ghost predicate WholeStretch(g: Graph, path: seq<Node>) {
    && Stretch(g, path) && Kinds(path) == SUPPORTED_PATH && |path| == |g.nodes| == 4
    && Following(g.edges, path[|path| - 1].id) == []
  }

  lemma StretchOfFour(g: Graph, a: Node, b: Node, c: Node, d: Node)
    requires Stretch(g, [a, b, c, d]) && Following(g.edges, d.id) == []
    ensures a in g.nodes && b in g.nodes && c in g.nodes && d in g.nodes
    ensures AllDiffer(a.id, b.id, c.id, d.id) && LeadsOn(g.edges, a.id, b.id, c.id, d.id)
  {
    assert [a, b, c, d][..3] == [a, b, c] && [a, b, c][..2] == [a, b] && [a, b][..1] == [a] && [a][..0] == [];
    assert Stretch(g, [a, b, c]) && Stretch(g, [a, b]) && Stretch(g, [a]);
    assert IdsOf([a]) == {a.id} && IdsOf([a, b]) == {a.id, b.id} && IdsOf([a, b, c]) == {a.id, b.id, c.id};
  }

  lemma FourAreAll(g: Graph, a: Node, b: Node, c: Node, d: Node)
    requires a in g.nodes && b in g.nodes && c in g.nodes && d in g.nodes && |g.nodes| == 4
    requires AllDiffer(a.id, b.id, c.id, d.id)
    ensures multiset(g.nodes) == multiset{a, b, c, d}
  {
    var four, all := multiset{a, b, c, d}, multiset(g.nodes);
    assert forall n :: four[n] <= all[n];
    assert |all - four| == |all| - |four| == 0;
    assert all == four + (all - four);
  }

  lemma NoLinksFromElsewhere(g: Graph, a: Node, b: Node, c: Node, d: Node, s: string, t: string)
    requires WellFormed(g) && multiset(g.nodes) == multiset{a, b, c, d}
    requires Links(g.edges)[(s, t)] > 0
    ensures s == a.id || s == b.id || s == c.id || s == d.id
  {
    LinksLeaveSources(g.edges, s, t);
    var k :| 0 <= k < |g.edges| && g.edges[k].source.node == s && g.edges[k].target.node == t;
    WellFormedLookups(g, k);
    OneOfFour(g.nodes, a, b, c, d, ById(g.nodes, s).value);
  }

  lemma OneOfFour(nodes: seq<Node>, a: Node, b: Node, c: Node, d: Node, n: Node)
    requires multiset(nodes) == multiset{a, b, c, d} && n in nodes
    ensures n == a || n == b || n == c || n == d
  {
    assert n in multiset(nodes);
    assert n in multiset{a, b, c, d};
  }

  lemma LinkCount(g: Graph, a: Node, b: Node, c: Node, d: Node, s: string, t: string)
    requires WellFormed(g) && multiset(g.nodes) == multiset{a, b, c, d}
    requires AllDiffer(a.id, b.id, c.id, d.id) && LeadsOn(g.edges, a.id, b.id, c.id, d.id)
    ensures Links(g.edges)[(s, t)] == ThreeLinks(a.id, b.id, c.id, d.id)[(s, t)]
  {
    ThreeLinksCount(a.id, b.id, c.id, d.id, s, t);
    LinksCountTargets(g.edges, s, t);
    if Links(g.edges)[(s, t)] > 0 { NoLinksFromElsewhere(g, a, b, c, d, s, t); }
  }

  lemma SameLinks(g: Graph, a: Node, b: Node, c: Node, d: Node)
    requires WellFormed(g) && multiset(g.nodes) == multiset{a, b, c, d}
    requires AllDiffer(a.id, b.id, c.id, d.id) && LeadsOn(g.edges, a.id, b.id, c.id, d.id)
    ensures Links(g.edges) == ThreeLinks(a.id, b.id, c.id, d.id)
  {
    forall p: (string, string) ensures Links(g.edges)[p] == ThreeLinks(a.id, b.id, c.id, d.id)[p] {
      LinkCount(g, a, b, c, d, p.0, p.1);
      assert p == (p.0, p.1);
    }
  }

  lemma WholeStretchIsChain(g: Graph, a: Node, b: Node, c: Node, d: Node)
    requires WellFormed(g) && WholeStretch(g, [a, b, c, d])
    ensures IsChain(g, a, b, c, d)
  {
    var path := [a, b, c, d];
    assert path[0] == a && path[1] == b && path[2] == c && path[3] == d;
    StretchOfFour(g, a, b, c, d);
    FourAreAll(g, a, b, c, d);
    assert Kinds(path)[0] == a.kind && Kinds(path)[1] == b.kind && Kinds(path)[2] == c.kind && Kinds(path)[3] == d.kind;
    SameLinks(g, a, b, c, d);
  }

  lemma PathIsChain(g: Graph)
    requires WellFormed(g) && PathOf(g).Ok?
    ensures exists a, b, c, d :: IsChain(g, a, b, c, d)
  {
    var inputs := Inputs(g.nodes);
    assert inputs[0] in inputs;
    WalkLeavesStretch(g, inputs[0], {}, []);
    var path := PathOf(g).nodes;
    assert path == [path[0], path[1], path[2], path[3]];
    WholeStretchIsChain(g, path[0], path[1], path[2], path[3]);
  }

  /** On a graph the validator accepts, the walk succeeds exactly when the graph is one chain input, model, tool, output
      without any other node or edge; and then it returns that chain. */
  lemma PathExactlyForChains(g: Graph)
    requires Issues(g) == []
    ensures PathOf(g).Ok? <==> exists a, b, c, d :: IsChain(g, a, b, c, d)
    ensures forall a, b, c, d :: IsChain(g, a, b, c, d) ==> PathOf(g) == Ok([a, b, c, d])
  {
    NoIssuesIffWellFormed(g);
    forall a, b, c, d | IsChain(g, a, b, c, d) ensures PathOf(g) == Ok([a, b, c, d]) { ChainHasPath(g, a, b, c, d); }
    if PathOf(g).Ok? { PathIsChain(g); }
  }
}
