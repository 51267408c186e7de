/** Induced subgraphs of the rendered graph: nodes are renumbered, edges follow them, and every node
    remembers where it stood in the graph the visibility mask was computed for. */
module Subgraph {
  import opened Options
  import opened MachineInts

  /** What a node carries besides its position. `id` is "" when `details.id` is missing. */
  datatype NodeData = NodeData(kind: string, id: string, isCluster: bool, state: nat, caption: string)

  datatype Node = Node(index: nat, originalIndex: Option<nat>, data: NodeData)

  /** Endpoints are node indexes; UNDEFINED is JavaScript's undefined. */
  datatype Edge = Edge(source: int, target: int, kind: string, relation: string, weight: nat)

  datatype Graph = Graph(nodes: seq<Node>, edges: seq<Edge>)

  const UNDEFINED := -1

  function MaskIndex(node: Node): nat {
    if node.originalIndex.Some? then node.originalIndex.value else node.index
  }

  /** Every node's index is its position. */
  predicate Dense(g: Graph) {
    forall i :: 0 <= i < |g.nodes| ==> g.nodes[i].index == i
  }

  predicate EndsIn(e: Edge, n: nat) {
    0 <= e.source < n && 0 <= e.target < n
  }

  predicate InRange(g: Graph) {
    forall e :: e in g.edges ==> EndsIn(e, |g.nodes|)
  }

  // ----- the subgraph on a set of indexes

  /** The first `n` nodes that are kept, renumbered. */
  function NodesTo(nodes: seq<Node>, keep: set<int>, n: nat): (r: seq<Node>)
    requires n <= |nodes|
    ensures |r| <= n
  {
    if n == 0 then []
    else
      var r := NodesTo(nodes, keep, n - 1);
      var node := nodes[n - 1];
      if node.index in keep
      then r + [Node(|r|, Some(MaskIndex(node)), node.data)]
      else r
  }

  /** Where the first `n` nodes went; a repeated index keeps its last place. */
  function IndexMapTo(nodes: seq<Node>, keep: set<int>, n: nat): map<int, nat>
    requires n <= |nodes|
  {
    if n == 0 then map[]
    else
      var m := IndexMapTo(nodes, keep, n - 1);
      var node := nodes[n - 1];
      if node.index in keep then m[node.index := |NodesTo(nodes, keep, n - 1)|] else m
  }

  function Lookup(indexMap: map<int, nat>, i: int): int {
    if i in indexMap then indexMap[i] else UNDEFINED
  }

  predicate EdgeKept(e: Edge, keep: set<int>, edgeOk: Edge -> bool) {
    e.source in keep && e.target in keep && edgeOk(e)
  }

  function EdgesTo(edges: seq<Edge>, keep: set<int>, edgeOk: Edge -> bool, indexMap: map<int, nat>,
                   n: nat): (r: seq<Edge>)
    requires n <= |edges|
  {
    if n == 0 then []
    else
      var r := EdgesTo(edges, keep, edgeOk, indexMap, n - 1);
      var e := edges[n - 1];
      if EdgeKept(e, keep, edgeOk)
      then r + [e.(source := Lookup(indexMap, e.source), target := Lookup(indexMap, e.target))]
      else r
  }

  function Induced(g: Graph, keep: set<int>, edgeOk: Edge -> bool): Graph {
    if keep == {} then Graph([], [])
    else
      var n := |g.nodes|;
      var indexMap := IndexMapTo(g.nodes, keep, n);
      Graph(NodesTo(g.nodes, keep, n), EdgesTo(g.edges, keep, edgeOk, indexMap, |g.edges|))
  }

  method SubgraphFromIndexes(g: Graph, keep: set<int>, edgeOk: Edge -> bool) returns (r: Graph)
    ensures r == Induced(g, keep, edgeOk)
  {
    if keep == {} {
      return Graph([], []);
    }
    var indexMap: map<int, nat> := map[];
    var nodes := [];
    for i := 0 to |g.nodes|
      invariant nodes == NodesTo(g.nodes, keep, i)
      invariant indexMap == IndexMapTo(g.nodes, keep, i)
    {
      var node := g.nodes[i];
      if node.index in keep {
        indexMap := indexMap[node.index := |nodes|];
        nodes := nodes + [Node(|nodes|, Some(MaskIndex(node)), node.data)];
      }
    }
    var edges := [];
    for i := 0 to |g.edges|
      invariant edges == EdgesTo(g.edges, keep, edgeOk, indexMap, i)
    {
      var e := g.edges[i];
      if e.source in keep && e.target in keep && edgeOk(e) {
        edges := edges + [e.(source := Lookup(indexMap, e.source), target := Lookup(indexMap, e.target))];
      }
    }
    r := Graph(nodes, edges);
  }

  // ----- what the result is: renumbering by the ascending list of kept positions

  /** The members of `keep` below `n`, in ascending order. */
  function Picks(keep: set<int>, n: nat): (r: seq<nat>)
    ensures |r| <= n
    ensures forall i :: 0 <= i < |r| ==> r[i] < n && r[i] in keep
  {
    if n == 0 then []
    else if n - 1 in keep then Picks(keep, n - 1) + [n - 1]
    else Picks(keep, n - 1)
  }

  ghost predicate Ascending(a: seq<nat>) {
    forall i, j :: 0 <= i < j < |a| ==> a[i] < a[j]
  }

  lemma {:induction false} PicksAscend(keep: set<int>, n: nat)
    ensures Ascending(Picks(keep, n))
  {
    if n > 0 {
      PicksAscend(keep, n - 1);
    }
  }

  lemma {:induction false} PicksAll(keep: set<int>, n: nat, i: nat) returns (p: nat)
    requires i < n && i in keep
    ensures p < |Picks(keep, n)| && Picks(keep, n)[p] == i
  {
    if i == n - 1 {
      p := |Picks(keep, n - 1)|;
    } else {
      p := PicksAll(keep, n - 1, i);
    }
  }

  lemma {:induction false} NodesArePicks(g: Graph, keep: set<int>, n: nat)
    requires Dense(g) && n <= |g.nodes|
    ensures var f, r := Picks(keep, n), NodesTo(g.nodes, keep, n);
            |r| == |f| &&
            forall i :: 0 <= i < |f| ==> r[i] == Node(i, Some(MaskIndex(g.nodes[f[i]])), g.nodes[f[i]].data)
  {
    if n > 0 {
      NodesArePicks(g, keep, n - 1);
    }
  }

  lemma {:induction false} IndexMapSound(g: Graph, keep: set<int>, n: nat, k: int)
    requires Dense(g) && n <= |g.nodes| && k in IndexMapTo(g.nodes, keep, n)
    ensures var f, p := Picks(keep, n), IndexMapTo(g.nodes, keep, n)[k];
            p < |f| && f[p] == k
  {
    NodesArePicks(g, keep, n - 1);
    if k != n - 1 || k !in keep {
      IndexMapSound(g, keep, n - 1, k);
    }
  }

  lemma {:induction false} IndexMapComplete(g: Graph, keep: set<int>, n: nat, k: nat)
    requires Dense(g) && k < n <= |g.nodes| && k in keep
    ensures k in IndexMapTo(g.nodes, keep, n)
  {
    if k < n - 1 {
      IndexMapComplete(g, keep, n - 1, k);
    }
  }

  /** Main result: the new indexes are dense, and node `i` of the subgraph is the `i`-th kept node. */
  lemma {:induction false} InducedNodes(g: Graph, keep: set<int>, edgeOk: Edge -> bool)
    requires Dense(g)
    ensures var r, f := Induced(g, keep, edgeOk), Picks(keep, |g.nodes|);
            Dense(r) && |r.nodes| == |f| &&
            forall i :: 0 <= i < |f| ==>
              r.nodes[i].data == g.nodes[f[i]].data && MaskIndex(r.nodes[i]) == MaskIndex(g.nodes[f[i]])
  {
    NodesArePicks(g, keep, |g.nodes|);
    if keep == {} {
      NoPicks(|g.nodes|);
    }
  }

  lemma {:induction false} NoPicks(n: nat)
    ensures Picks({}, n) == []
  {
    if n > 0 {
      NoPicks(n - 1);
    }
  }

  /** The edge with its endpoints sent through `f`. */
  function Through(e: Edge, f: seq<nat>): Edge
    requires EndsIn(e, |f|)
  {
    e.(source := f[e.source], target := f[e.target])
  }

  /** The end leads to the node that it was at among the `size` nodes, now found through `f`; an end that
      was at no node is undefined. */
  ghost predicate Leads(end: int, was: int, f: seq<nat>, size: nat) {
    if 0 <= was < size then 0 <= end < |f| && f[end] == was else end == UNDEFINED
  }

  /** The edge `e` is the edge `was`, renumbered. */
  ghost predicate Renumbers(e: Edge, was: Edge, f: seq<nat>, size: nat) {
    Leads(e.source, was.source, f, size) && Leads(e.target, was.target, f, size) &&
    e.(source := was.source, target := was.target) == was
  }

  /** `s` holds, in order and renumbered, the kept ones among the first `n` edges. */
  ghost predicate EdgesFollow(s: seq<Edge>, edges: seq<Edge>, n: nat, f: seq<nat>, size: nat, keep: set<int>,
                              edgeOk: Edge -> bool)
    requires n <= |edges|
  {
    if n == 0 then s == []
    else if EdgeKept(edges[n - 1], keep, edgeOk) then
      s != [] && Renumbers(s[|s| - 1], edges[n - 1], f, size) &&
      EdgesFollow(s[..|s| - 1], edges, n - 1, f, size, keep, edgeOk)
    else EdgesFollow(s, edges, n - 1, f, size, keep, edgeOk)
  }

  lemma {:induction false} LookupLeads(g: Graph, keep: set<int>, i: int)
    requires Dense(g) && i in keep
    ensures Leads(Lookup(IndexMapTo(g.nodes, keep, |g.nodes|), i), i, Picks(keep, |g.nodes|), |g.nodes|)
  {
    if 0 <= i < |g.nodes| {
      IndexMapComplete(g, keep, |g.nodes|, i);
    }
    if i in IndexMapTo(g.nodes, keep, |g.nodes|) {
      IndexMapSound(g, keep, |g.nodes|, i);
    }
  }

  lemma {:induction false} EdgesToFollow(g: Graph, keep: set<int>, edgeOk: Edge -> bool, n: nat)
    requires Dense(g) && n <= |g.edges|
    ensures EdgesFollow(EdgesTo(g.edges, keep, edgeOk, IndexMapTo(g.nodes, keep, |g.nodes|), n),
                        g.edges, n, Picks(keep, |g.nodes|), |g.nodes|, keep, edgeOk)
  {
    if n > 0 {
      EdgesToFollow(g, keep, edgeOk, n - 1);
      var m := IndexMapTo(g.nodes, keep, |g.nodes|);
      var r := EdgesTo(g.edges, keep, edgeOk, m, n - 1);
      var e := g.edges[n - 1];
      if EdgeKept(e, keep, edgeOk) {
        LookupLeads(g, keep, e.source);
        LookupLeads(g, keep, e.target);
        var last := e.(source := Lookup(m, e.source), target := Lookup(m, e.target));
        assert (r + [last])[..|r|] == r;
      }
    }
  }

  /** Main result: exactly the edges with both ends kept that pass the test survive, in order, and each
      joins the same two nodes as before; an end outside the graph becomes undefined. */
  lemma {:induction false} InducedEdges(g: Graph, keep: set<int>, edgeOk: Edge -> bool)
    requires Dense(g)
    ensures EdgesFollow(Induced(g, keep, edgeOk).edges, g.edges, |g.edges|, Picks(keep, |g.nodes|), |g.nodes|, keep,
                        edgeOk)
  {
    EdgesToFollow(g, keep, edgeOk, |g.edges|);
    if keep == {} {
      NoEdgesFollow(g.edges, |g.edges|, Picks(keep, |g.nodes|), |g.nodes|, edgeOk);
    }
  }

  lemma {:induction false} NoEdgesFollow(edges: seq<Edge>, n: nat, f: seq<nat>, size: nat, edgeOk: Edge -> bool)
    requires n <= |edges|
    ensures EdgesFollow([], edges, n, f, size, {}, edgeOk)
  {
    if n > 0 {
      NoEdgesFollow(edges, n - 1, f, size, edgeOk);
    }
  }

  /** Whatever follows with both its ends in range is one of the kept edges. */
  lemma {:induction false} FollowersAreEdges(s: seq<Edge>, edges: seq<Edge>, n: nat, f: seq<nat>, size: nat,
                                             keep: set<int>, edgeOk: Edge -> bool)
    requires n <= |edges| && EdgesFollow(s, edges, n, f, size, keep, edgeOk)
    ensures forall e :: e in s && EndsIn(e, |f|) ==> Through(e, f) in edges && EdgeKept(Through(e, f), keep, edgeOk)
  {
    if n > 0 {
      if EdgeKept(edges[n - 1], keep, edgeOk) {
        FollowersAreEdges(s[..|s| - 1], edges, n - 1, f, size, keep, edgeOk);
        assert s == s[..|s| - 1] + [s[|s| - 1]];
      } else {
        FollowersAreEdges(s, edges, n - 1, f, size, keep, edgeOk);
      }
    }
  }

  // ----- when every edge still has two ends

  /** No edge that is kept leads out of the graph. */
  ghost predicate KeptInRange(g: Graph, keep: set<int>, edgeOk: Edge -> bool) {
    forall i :: 0 <= i < |g.edges| && EdgeKept(g.edges[i], keep, edgeOk) ==> EndsIn(g.edges[i], |g.nodes|)
  }

  lemma {:induction false} FollowersInRange(s: seq<Edge>, edges: seq<Edge>, n: nat, f: seq<nat>, size: nat,
                                            keep: set<int>, edgeOk: Edge -> bool)
    requires n <= |edges| && EdgesFollow(s, edges, n, f, size, keep, edgeOk)
    ensures (forall e :: e in s ==> EndsIn(e, |f|)) <==>
              forall i :: 0 <= i < n && EdgeKept(edges[i], keep, edgeOk) ==> EndsIn(edges[i], size)
  {
    if n > 0 {
      if EdgeKept(edges[n - 1], keep, edgeOk) {
        var last, rest := s[|s| - 1], s[..|s| - 1];
        FollowersInRange(rest, edges, n - 1, f, size, keep, edgeOk);
        assert s == rest + [last];
        assert last in s && EndsIn(last, |f|) == EndsIn(edges[n - 1], size);
      } else {
        FollowersInRange(s, edges, n - 1, f, size, keep, edgeOk);
      }
    }
  }

  /** Main result: every edge of a subgraph joins two of its nodes exactly when no kept edge led out of the
      graph; otherwise the end that did is undefined. */
  lemma {:induction false} InducedInRangeExactlyWhen(g: Graph, keep: set<int>, edgeOk: Edge -> bool)
    requires Dense(g)
    ensures InRange(Induced(g, keep, edgeOk)) <==> KeptInRange(g, keep, edgeOk)
  {
    InducedNodes(g, keep, edgeOk);
    InducedEdges(g, keep, edgeOk);
    FollowersInRange(Induced(g, keep, edgeOk).edges, g.edges, |g.edges|, Picks(keep, |g.nodes|), |g.nodes|, keep,
                     edgeOk);
  }

  // ----- the result is determined by which nodes and edges are kept

  lemma {:induction false} FollowersUnique(s: seq<Edge>, t: seq<Edge>, edges: seq<Edge>, n: nat, f: seq<nat>, size: nat,
                                           keep: set<int>, keep': set<int>, edgeOk: Edge -> bool)
    requires n <= |edges| && Ascending(f)
    requires forall i :: 0 <= i < n ==> (EdgeKept(edges[i], keep, edgeOk) <==> EdgeKept(edges[i], keep', edgeOk))
    requires EdgesFollow(s, edges, n, f, size, keep, edgeOk) && EdgesFollow(t, edges, n, f, size, keep', edgeOk)
    ensures s == t
  {
    if n > 0 {
      if EdgeKept(edges[n - 1], keep, edgeOk) {
        FollowersUnique(s[..|s| - 1], t[..|t| - 1], edges, n - 1, f, size, keep, keep', edgeOk);
        SameRenumbered(s[|s| - 1], t[|t| - 1], edges[n - 1], f, size);
        assert s == s[..|s| - 1] + [s[|s| - 1]] && t == t[..|t| - 1] + [t[|t| - 1]];
      } else {
        FollowersUnique(s, t, edges, n - 1, f, size, keep, keep', edgeOk);
      }
    }
  }

  lemma {:induction false} SameRenumbered(d: Edge, e: Edge, was: Edge, f: seq<nat>, size: nat)
    requires Ascending(f) && Renumbers(d, was, f, size) && Renumbers(e, was, f, size)
    ensures d == e
  {
    assert d.source == e.source && d.target == e.target;
  }

  /** A graph with the picked nodes and the kept edges is the subgraph. */
  lemma {:induction false} InducedDetermined(g: Graph, keep: set<int>, keep': set<int>, edgeOk: Edge -> bool, r: Graph)
    requires Dense(g) && Dense(r)
    requires forall i :: 0 <= i < |g.nodes| ==> (i in keep <==> i in keep')
    requires forall i :: 0 <= i < |g.edges| ==>
               (EdgeKept(g.edges[i], keep, edgeOk) <==> EdgeKept(g.edges[i], keep', edgeOk))
    requires |r.nodes| == |Picks(keep, |g.nodes|)|
    requires forall i :: 0 <= i < |r.nodes| ==>
               r.nodes[i] == Node(i, Some(MaskIndex(g.nodes[Picks(keep, |g.nodes|)[i]])),
                                  g.nodes[Picks(keep, |g.nodes|)[i]].data)
    requires EdgesFollow(r.edges, g.edges, |g.edges|, Picks(keep, |g.nodes|), |g.nodes|, keep, edgeOk)
    ensures r == Induced(g, keep', edgeOk)
  {
    var n := |g.nodes|;
    SamePicks(keep, keep', n);
    var q := Induced(g, keep', edgeOk);
    NodesArePicks(g, keep', n);
    NoPicks(n);
    assert r.nodes == q.nodes;
    InducedEdges(g, keep', edgeOk);
    PicksAscend(keep, n);
    FollowersUnique(r.edges, q.edges, g.edges, |g.edges|, Picks(keep, n), n, keep, keep', edgeOk);
  }

  lemma {:induction false} SamePicks(keep: set<int>, keep': set<int>, n: nat)
    requires forall i :: 0 <= i < n ==> (i in keep <==> i in keep')
    ensures Picks(keep, n) == Picks(keep', n)
  {
    if n > 0 {
      SamePicks(keep, keep', n - 1);
    }
  }

  // ----- two subgraph steps are one

  /** The members of `keep`, indexes of the first subgraph, sent back to the graph it was taken from. */
  function PullBack(f: seq<nat>, keep: set<int>): set<int> {
    if f == [] then {}
    else
      var last := |f| - 1;
      PullBack(f[..last], keep) + (if last in keep then {f[last]} else {})
  }

  lemma {:induction false} PullBackMember(f: seq<nat>, keep: set<int>, x: int)
    ensures x in PullBack(f, keep) <==> exists j :: 0 <= j < |f| && j in keep && f[j] == x
  {
    if f != [] {
      var last := |f| - 1;
      PullBackMember(f[..last], keep, x);
      if j :| 0 <= j < |f| && j in keep && f[j] == x {
        assert j == last || f[..last][j] == x;
      }
    }
  }

  function Compose(f: seq<nat>, h: seq<nat>): (r: seq<nat>)
    requires forall i :: 0 <= i < |h| ==> h[i] < |f|
    ensures |r| == |h| && forall i :: 0 <= i < |h| ==> r[i] == f[h[i]]
  {
    seq(|h|, i requires 0 <= i < |h| => f[h[i]])
  }

  /** One more kept node at the end adds to the pull-back only if its new index is kept as well. */
  lemma {:induction false} PullBackAppend(f: seq<nat>, x: nat, keep: set<int>)
    ensures PullBack(f + [x], keep) == PullBack(f, keep) + (if |f| in keep then {x as int} else {})
  {
    assert (f + [x])[..|f|] == f;
  }

  lemma {:induction false} PullBackBelow(f: seq<nat>, keep: set<int>, x: int)
    requires forall j :: 0 <= j < |f| ==> f[j] < x
    ensures x !in PullBack(f, keep)
  {
    PullBackMember(f, keep, x);
  }

  lemma {:induction false} ComposeAppend(f: seq<nat>, x: nat, keep: set<int>)
    ensures Compose(f + [x], Picks(keep, |f| + 1))
         == Compose(f, Picks(keep, |f|)) + (if |f| in keep then [x] else [])
  {
  }

  lemma {:induction false} PicksComposeKept(f: seq<nat>, keep: set<int>, n: nat)
    requires forall j :: 0 <= j < |f| ==> f[j] < n
    requires Picks(PullBack(f, keep), n) == Compose(f, Picks(keep, |f|))
    ensures Picks(PullBack(f + [n], keep), n + 1) == Compose(f + [n], Picks(keep, |f| + 1))
  {
    var before, after := PullBack(f, keep), PullBack(f + [n], keep);
    PullBackBelow(f, keep, n);
    PullBackAppend(f, n, keep);
    SamePicks(before, after, n);
    ComposeAppend(f, n, keep);
    assert Picks(after, n + 1) == Picks(before, n) + (if |f| in keep then [n] else []);
  }

  lemma {:induction false} PicksCompose(f: seq<nat>, keep: set<int>, keep2: set<int>, n: nat)
    requires f == Picks(keep, n)
    ensures Picks(PullBack(f, keep2), n) == Compose(f, Picks(keep2, |f|))
    decreases n
  {
    if n == 0 {
    } else if n - 1 in keep {
      PicksCompose(f[..|f| - 1], keep, keep2, n - 1);
      PicksComposeKept(f[..|f| - 1], keep2, n - 1);
      assert f == f[..|f| - 1] + [n - 1];
    } else {
      PicksCompose(f, keep, keep2, n - 1);
      PullBackBelow(f, keep2, n - 1);
    }
  }

  lemma {:induction false} FollowsPrefix(s: seq<Edge>, edges: seq<Edge>, more: seq<Edge>, n: nat, f: seq<nat>,
                                         size: nat, keep: set<int>, edgeOk: Edge -> bool)
    requires n <= |edges|
    ensures EdgesFollow(s, edges + more, n, f, size, keep, edgeOk) <==> EdgesFollow(s, edges, n, f, size, keep, edgeOk)
  {
    if n > 0 {
      assert (edges + more)[n - 1] == edges[n - 1];
      FollowsPrefix(s, edges, more, n - 1, f, size, keep, edgeOk);
      if s != [] {
        FollowsPrefix(s[..|s| - 1], edges, more, n - 1, f, size, keep, edgeOk);
      }
    }
  }

  /** `both` passes the edges of the first graph that pass `edgeOk` there and, renumbered, `edgeOk2`. */
  ghost predicate PassBoth(both: Edge -> bool, edgeOk: Edge -> bool, edgeOk2: Edge -> bool, f: seq<nat>) {
    forall e :: EndsIn(e, |f|) ==> (both(Through(e, f)) <==> edgeOk(Through(e, f)) && edgeOk2(e))
  }

  lemma {:induction false} PulledBack(f: seq<nat>, keep: set<int>, j: nat)
    requires Ascending(f) && j < |f|
    ensures f[j] in PullBack(f, keep) <==> j in keep
  {
    PullBackMember(f, keep, f[j]);
  }

  lemma {:induction false} PullBackInRange(f: seq<nat>, keep: set<int>, x: int) returns (j: nat)
    requires x in PullBack(f, keep)
    ensures j < |f| && f[j] == x && j in keep
  {
    PullBackMember(f, keep, x);
    j :| 0 <= j < |f| && j in keep && f[j] == x;
  }

  /** A kept edge passes both steps in one exactly when its renumbered form passes the second. */
  lemma {:induction false} KeptThrough(e: Edge, e1: Edge, f: seq<nat>, size: nat, edgeOk: Edge -> bool,
                                       keep2: set<int>, edgeOk2: Edge -> bool, both: Edge -> bool)
    requires Ascending(f) && edgeOk(e) && PassBoth(both, edgeOk, edgeOk2, f) && Renumbers(e1, e, f, size)
    requires forall i :: 0 <= i < |f| ==> f[i] < size
    requires EdgeKept(e1, keep2, edgeOk2) ==> EndsIn(e1, |f|)
    ensures EdgeKept(e, PullBack(f, keep2), both) <==> EdgeKept(e1, keep2, edgeOk2)
  {
    if EndsIn(e1, |f|) {
      assert Through(e1, f) == e;
      PulledBack(f, keep2, e1.source);
      PulledBack(f, keep2, e1.target);
    } else if EdgeKept(e, PullBack(f, keep2), both) {
      var i := PullBackInRange(f, keep2, e.source);
      var j := PullBackInRange(f, keep2, e.target);
      assert false;
    }
  }

  lemma {:induction false} DroppedThrough(e: Edge, f: seq<nat>, keep: set<int>, edgeOk: Edge -> bool,
                                          keep2: set<int>, edgeOk2: Edge -> bool, both: Edge -> bool)
    requires !EdgeKept(e, keep, edgeOk) && PassBoth(both, edgeOk, edgeOk2, f)
    requires forall p :: 0 <= p < |f| ==> f[p] in keep
    ensures !EdgeKept(e, PullBack(f, keep2), both)
  {
    if e.source in PullBack(f, keep2) && e.target in PullBack(f, keep2) {
      var i := PullBackInRange(f, keep2, e.source);
      var j := PullBackInRange(f, keep2, e.target);
      assert Through(e.(source := i, target := j), f) == e;
    }
  }

  /** The second renumbering after the first is the renumbering of both steps. */
  lemma {:induction false} RenumbersCompose(e2: Edge, e1: Edge, e: Edge, f: seq<nat>, h: seq<nat>, size: nat)
    requires forall i :: 0 <= i < |h| ==> h[i] < |f|
    requires Renumbers(e1, e, f, size) && Renumbers(e2, e1, h, |f|) && EndsIn(e1, |f|)
    ensures Renumbers(e2, e, Compose(f, h), size)
  {
  }

  lemma {:induction false} FollowCompose(s2: seq<Edge>, s1: seq<Edge>, edges: seq<Edge>, n: nat, m: nat, keep: set<int>,
                                         edgeOk: Edge -> bool, keep2: set<int>, edgeOk2: Edge -> bool,
                                         both: Edge -> bool)
    requires n <= |edges|
    requires PassBoth(both, edgeOk, edgeOk2, Picks(keep, m))
    requires forall i :: 0 <= i < |s1| && EdgeKept(s1[i], keep2, edgeOk2) ==> EndsIn(s1[i], |Picks(keep, m)|)
    requires EdgesFollow(s1, edges, n, Picks(keep, m), m, keep, edgeOk)
    requires EdgesFollow(s2, s1, |s1|, Picks(keep2, |Picks(keep, m)|), |Picks(keep, m)|, keep2, edgeOk2)
    ensures var f := Picks(keep, m);
            EdgesFollow(s2, edges, n, Compose(f, Picks(keep2, |f|)), m, PullBack(f, keep2), both)
  {
    if n > 0 {
      var f := Picks(keep, m);
      var h := Picks(keep2, |f|);
      var e := edges[n - 1];
      if EdgeKept(e, keep, edgeOk) {
        var e1, rest := s1[|s1| - 1], s1[..|s1| - 1];
        assert s1 == rest + [e1];
        PicksAscend(keep, m);
        KeptThrough(e, e1, f, m, edgeOk, keep2, edgeOk2, both);
        var s := if EdgeKept(e1, keep2, edgeOk2) then s2[..|s2| - 1] else s2;
        FollowsPrefix(s, rest, [e1], |rest|, h, |f|, keep2, edgeOk2);
        FollowCompose(s, rest, edges, n - 1, m, keep, edgeOk, keep2, edgeOk2, both);
        if EdgeKept(e1, keep2, edgeOk2) {
          RenumbersCompose(s2[|s2| - 1], e1, e, f, h, m);
        }
      } else {
        DroppedThrough(e, f, keep, edgeOk, keep2, edgeOk2, both);
        FollowCompose(s2, s1, edges, n - 1, m, keep, edgeOk, keep2, edgeOk2, both);
      }
    }
  }

  /** One subgraph step for two, when the second keeps no edge that lost an end in the first. */
  lemma {:induction false} TwoStepsInOne(g: Graph, keep: set<int>, edgeOk: Edge -> bool, keep2: set<int>,
                                         edgeOk2: Edge -> bool, both: Edge -> bool)
    requires Dense(g) && PassBoth(both, edgeOk, edgeOk2, Picks(keep, |g.nodes|))
    requires KeptInRange(Induced(g, keep, edgeOk), keep2, edgeOk2)
    ensures Induced(Induced(g, keep, edgeOk), keep2, edgeOk2)
         == Induced(g, PullBack(Picks(keep, |g.nodes|), keep2), both)
  {
    var n := |g.nodes|;
    var f := Picks(keep, n);
    var s := Induced(g, keep, edgeOk);
    var t := Induced(s, keep2, edgeOk2);
    InducedNodes(g, keep, edgeOk);
    InducedEdges(g, keep, edgeOk);
    InducedNodes(s, keep2, edgeOk2);
    InducedEdges(s, keep2, edgeOk2);
    PicksCompose(f, keep, keep2, n);
    FollowCompose(t.edges, s.edges, g.edges, |g.edges|, n, keep, edgeOk, keep2, edgeOk2, both);
    NodesArePicks(s, keep2, |s.nodes|);
    NoPicks(|s.nodes|);
    InducedDetermined(g, PullBack(f, keep2), PullBack(f, keep2), both, t);
  }

  lemma {:induction false} PulledBackInRange(g: Graph, f: seq<nat>, keep: set<int>, edgeOk: Edge -> bool)
    requires forall i :: 0 <= i < |f| ==> f[i] < |g.nodes|
    ensures KeptInRange(g, PullBack(f, keep), edgeOk)
  {
    forall i | 0 <= i < |g.edges| && EdgeKept(g.edges[i], PullBack(f, keep), edgeOk)
      ensures EndsIn(g.edges[i], |g.nodes|)
    {
      var p := PullBackInRange(f, keep, g.edges[i].source);
      var q := PullBackInRange(f, keep, g.edges[i].target);
    }
  }

  /** Main result: taking a subgraph of a subgraph is taking one subgraph, on the nodes and edges both keep,
      exactly when the second step keeps no edge that the first left with an undefined end. */
  lemma {:induction false} SubgraphOfSubgraph(g: Graph, keep: set<int>, edgeOk: Edge -> bool, keep2: set<int>,
                                              edgeOk2: Edge -> bool, both: Edge -> bool)
    requires Dense(g) && PassBoth(both, edgeOk, edgeOk2, Picks(keep, |g.nodes|))
    ensures Induced(Induced(g, keep, edgeOk), keep2, edgeOk2)
         == Induced(g, PullBack(Picks(keep, |g.nodes|), keep2), both)
       <==> KeptInRange(Induced(g, keep, edgeOk), keep2, edgeOk2)
  {
    var f := Picks(keep, |g.nodes|);
    var s := Induced(g, keep, edgeOk);
    if KeptInRange(s, keep2, edgeOk2) {
      TwoStepsInOne(g, keep, edgeOk, keep2, edgeOk2, both);
    }
    PulledBackInRange(g, f, keep2, both);
    InducedInRangeExactlyWhen(g, PullBack(f, keep2), both);
    InducedNodes(g, keep, edgeOk);
    InducedInRangeExactlyWhen(s, keep2, edgeOk2);
  }

  // ----- hiding nodes by the visibility mask

  /** Whether a node is drawn. `focused` says that its emphasis is "selected" or "dossier". */
  predicate NodeVisible(node: Node, mask: seq<u8>, nodeKinds: map<string, bool>, focused: bool) {
    if MaskIndex(node) >= |mask| || mask[MaskIndex(node)] != 1 then false
    else if node.data.isCluster then true
    else if node.data.kind !in nodeKinds || nodeKinds[node.data.kind] then true
    else focused
  }

  function VisibleTo(nodes: seq<Node>, visible: Node -> bool, n: nat): set<int>
    requires n <= |nodes|
  {
    if n == 0 then {}
    else VisibleTo(nodes, visible, n - 1) + (if visible(nodes[n - 1]) then {nodes[n - 1].index} else {})
  }

  function Filtered(g: Graph, visible: Node -> bool): Graph {
    var keep := VisibleTo(g.nodes, visible, |g.nodes|);
    if |keep| == 0 || |keep| == |g.nodes| then g else Induced(g, keep, AnyEdge())
  }

  function AnyEdge(): Edge -> bool {
    _ => true
  }

  method FilterGraphByVisibility(g: Graph, visible: Node -> bool) returns (r: Graph)
    ensures r == Filtered(g, visible)
  {
    var keep: set<int> := {};
    for i := 0 to |g.nodes|
      invariant keep == VisibleTo(g.nodes, visible, i)
    {
      if visible(g.nodes[i]) {
        keep := keep + {g.nodes[i].index};
      }
    }
    if |keep| == 0 || |keep| == |g.nodes| {
      return g;
    }
    r := SubgraphFromIndexes(g, keep, AnyEdge());
  }

  lemma {:induction false} VisibleMembers(g: Graph, visible: Node -> bool, n: nat)
    requires Dense(g) && n <= |g.nodes|
    ensures forall i :: i in VisibleTo(g.nodes, visible, n) <==> 0 <= i < n && visible(g.nodes[i])
  {
    if n > 0 {
      VisibleMembers(g, visible, n - 1);
    }
  }

  lemma {:induction false} VisibleCount(g: Graph, visible: Node -> bool, n: nat)
    requires Dense(g) && n <= |g.nodes|
    ensures |VisibleTo(g.nodes, visible, n)| <= n
    ensures |VisibleTo(g.nodes, visible, n)| == n ==> forall i :: 0 <= i < n ==> visible(g.nodes[i])
  {
    if n > 0 {
      var before := VisibleTo(g.nodes, visible, n - 1);
      VisibleCount(g, visible, n - 1);
      assert |before + {n - 1}| <= |before| + 1;
    }
  }

  /** Keeping every node of a subgraph gives the same subgraph, if its edges have two ends. */
  lemma {:induction false} AllShown(g: Graph, keep: set<int>, edgeOk: Edge -> bool, vis: set<int>)
    requires Dense(g) && KeptInRange(g, keep, edgeOk)
    requires forall p :: 0 <= p < |Picks(keep, |g.nodes|)| ==> p in vis
    ensures Induced(g, keep, edgeOk) == Induced(g, PullBack(Picks(keep, |g.nodes|), vis), edgeOk)
  {
    var s, shown := Induced(g, keep, edgeOk), PullBack(Picks(keep, |g.nodes|), vis);
    AllPulledBack(g, keep, vis);
    PulledBackInRange(g, Picks(keep, |g.nodes|), vis, edgeOk);
    NodesArePicks(g, keep, |g.nodes|);
    InducedEdges(g, keep, edgeOk);
    InducedNodes(g, keep, edgeOk);
    NoPicks(|g.nodes|);
    forall i | 0 <= i < |g.edges|
      ensures EdgeKept(g.edges[i], keep, edgeOk) <==> EdgeKept(g.edges[i], shown, edgeOk)
    {
    }
    InducedDetermined(g, keep, shown, edgeOk, s);
  }

  lemma {:induction false} SomeShown(g: Graph, keep: set<int>, s: Graph, visible: Node -> bool)
    requires Dense(s) && |s.nodes| == |Picks(keep, |g.nodes|)|
    ensures PullBack(Picks(keep, |g.nodes|), VisibleTo(s.nodes, visible, |s.nodes|)) == {} <==>
              VisibleTo(s.nodes, visible, |s.nodes|) == {}
  {
    var f, vis := Picks(keep, |g.nodes|), VisibleTo(s.nodes, visible, |s.nodes|);
    if vis == {} {
      NonePulledBack(f);
    } else {
      var i := SomeVisible(s, visible, |s.nodes|);
      VisibleMembers(s, visible, |s.nodes|);
      PicksAscend(keep, |g.nodes|);
      PulledBack(f, vis, i);
    }
  }

  /** The filter keeps positions only, and so no edge with an undefined end. */
  lemma {:induction false} VisibleInRange(g: Graph, visible: Node -> bool, edgeOk: Edge -> bool)
    requires Dense(g)
    ensures KeptInRange(g, VisibleTo(g.nodes, visible, |g.nodes|), edgeOk)
  {
    VisibleMembers(g, visible, |g.nodes|);
  }

  /** Main result: after the filter every edge joins two nodes exactly when it did before or the filter hides
      some nodes and not all. */
  lemma {:induction false} FilterInRangeExactlyWhen(g: Graph, visible: Node -> bool)
    requires Dense(g)
    ensures InRange(Filtered(g, visible)) <==>
              InRange(g) || ((exists i :: 0 <= i < |g.nodes| && visible(g.nodes[i])) &&
                             (exists i :: 0 <= i < |g.nodes| && !visible(g.nodes[i])))
  {
    var vis := VisibleTo(g.nodes, visible, |g.nodes|);
    VisibleMembers(g, visible, |g.nodes|);
    VisibleCount(g, visible, |g.nodes|);
    forall i | 0 <= i < |g.nodes| ensures visible(g.nodes[i]) <==> i in vis {
    }
    if vis != {} {
      var i := SomeVisible(g, visible, |g.nodes|);
      if |vis| != |g.nodes| {
        SomeHidden(g, visible);
        VisibleInRange(g, visible, AnyEdge());
        InducedInRangeExactlyWhen(g, vis, AnyEdge());
      }
    }
  }

  /** Main result: a subgraph filtered by visibility is one subgraph of the original graph, on the kept
      nodes that are visible there, or unchanged when none is; with one exception, a subgraph that has an
      edge with an undefined end and hides nothing. */
  lemma {:induction false} FilterAfterSubgraph(g: Graph, keep: set<int>, edgeOk: Edge -> bool, visible: Node -> bool)
    requires Dense(g)
    ensures var s := Induced(g, keep, edgeOk);
            var shown := PullBack(Picks(keep, |g.nodes|), VisibleTo(s.nodes, visible, |s.nodes|));
            Filtered(s, visible) == (if shown == {} then s else Induced(g, shown, edgeOk)) <==>
              InRange(s) || s.nodes == [] || exists i :: 0 <= i < |s.nodes| && !visible(s.nodes[i])
  {
    var s := Induced(g, keep, edgeOk);
    var vis := VisibleTo(s.nodes, visible, |s.nodes|);
    var shown := PullBack(Picks(keep, |g.nodes|), vis);
    InducedNodes(g, keep, edgeOk);
    SomeShown(g, keep, s, visible);
    VisibleMembers(s, visible, |s.nodes|);
    VisibleCount(s, visible, |s.nodes|);
    if vis != {} {
      if |vis| == |s.nodes| {
        InducedInRangeExactlyWhen(g, keep, edgeOk);
        PulledBackInRange(g, Picks(keep, |g.nodes|), vis, edgeOk);
        InducedInRangeExactlyWhen(g, shown, edgeOk);
        if InRange(s) {
          AllShown(g, keep, edgeOk, vis);
        }
      } else {
        VisibleInRange(s, visible, AnyEdge());
        TwoStepsInOne(g, keep, edgeOk, vis, AnyEdge(), edgeOk);
        SomeHidden(s, visible);
      }
    } else if s.nodes != [] {
      assert !visible(s.nodes[0]);
    }
  }

  lemma {:induction false} SomeHidden(g: Graph, visible: Node -> bool)
    requires Dense(g) && |VisibleTo(g.nodes, visible, |g.nodes|)| != |g.nodes|
    ensures exists i :: 0 <= i < |g.nodes| && !visible(g.nodes[i])
  {
    if forall i :: 0 <= i < |g.nodes| ==> visible(g.nodes[i]) {
      AllVisible(g, visible, |g.nodes|);
    }
  }

  lemma {:induction false} AllVisible(g: Graph, visible: Node -> bool, n: nat)
    requires Dense(g) && n <= |g.nodes| && forall i :: 0 <= i < n ==> visible(g.nodes[i])
    ensures |VisibleTo(g.nodes, visible, n)| == n
  {
    if n > 0 {
      AllVisible(g, visible, n - 1);
      VisibleMembers(g, visible, n - 1);
    }
  }

  lemma {:induction false} SomeVisible(g: Graph, visible: Node -> bool, n: nat) returns (i: nat)
    requires Dense(g) && n <= |g.nodes| && VisibleTo(g.nodes, visible, n) != {}
    ensures i < n && i in VisibleTo(g.nodes, visible, n)
  {
    if visible(g.nodes[n - 1]) {
      i := n - 1;
    } else {
      i := SomeVisible(g, visible, n - 1);
    }
  }

  lemma {:induction false} NonePulledBack(f: seq<nat>)
    ensures PullBack(f, {}) == {}
  {
    if f != [] {
      NonePulledBack(f[..|f| - 1]);
    }
  }

  lemma {:induction false} AllPulledBack(g: Graph, keep: set<int>, vis: set<int>)
    requires forall p :: 0 <= p < |Picks(keep, |g.nodes|)| ==> p in vis
    ensures forall i :: 0 <= i < |g.nodes| ==> (i in keep <==> i in PullBack(Picks(keep, |g.nodes|), vis))
  {
    forall i | 0 <= i < |g.nodes| && i in keep ensures i in PullBack(Picks(keep, |g.nodes|), vis) {
      var p := PicksAll(keep, |g.nodes|, i);
      PicksAscend(keep, |g.nodes|);
      PulledBack(Picks(keep, |g.nodes|), vis, p);
    }
    forall i | 0 <= i < |g.nodes| && i in PullBack(Picks(keep, |g.nodes|), vis) ensures i in keep {
      PullBackMember(Picks(keep, |g.nodes|), vis, i);
    }
  }

  /** The filter leaves exactly the visible nodes when there are any, and everything when there are none. */
  lemma {:induction false} FilterShows(g: Graph, visible: Node -> bool)
    requires Dense(g)
    ensures var r, shown := Filtered(g, visible), Picks(VisibleTo(g.nodes, visible, |g.nodes|), |g.nodes|);
            if exists i :: 0 <= i < |g.nodes| && visible(g.nodes[i]) then
              |r.nodes| == |shown| &&
              forall i :: 0 <= i < |r.nodes| ==>
                visible(g.nodes[shown[i]]) && r.nodes[i].data == g.nodes[shown[i]].data &&
                MaskIndex(r.nodes[i]) == MaskIndex(g.nodes[shown[i]])
            else r == g
  {
    var n := |g.nodes|;
    var vis := VisibleTo(g.nodes, visible, n);
    VisibleMembers(g, visible, n);
    VisibleCount(g, visible, n);
    InducedNodes(g, vis, AnyEdge());
    if exists i :: 0 <= i < n && visible(g.nodes[i]) {
      var i :| 0 <= i < n && visible(g.nodes[i]);
      assert i in vis;
      if |vis| == n {
        PicksOfAll(vis, n);
      }
    } else if vis != {} {
      var i := SomeVisible(g, visible, n);
    }
  }

  lemma {:induction false} PicksOfAll(keep: set<int>, n: nat)
    requires forall i :: 0 <= i < n ==> i in keep
    ensures |Picks(keep, n)| == n && forall i :: 0 <= i < n ==> Picks(keep, n)[i] == i
  {
    if n > 0 {
      PicksOfAll(keep, n - 1);
    }
  }
}
