/** The WebAssembly kernel that marks every node within a few hops of a start node. */
module HopMask {
  import opened MachineInts

  // ----- the graph the kernel is given, and what "within k hops" means

  datatype Graph = Graph(nodeCount: nat, src: seq<u32>, dst: seq<u32>) {
    ghost predicate Valid() {
      |src| == |dst|
    }

    /** One of the first `m` edges runs, in either direction, between the in-range nodes `u` and `v`. */
    ghost predicate JoinedBy(u: nat, v: nat, m: nat)
      requires Valid() && m <= |src|
    {
      u < nodeCount && v < nodeCount &&
      exists i :: 0 <= i < m && EdgeJoins(i, u, v)
    }

    ghost predicate EdgeJoins(i: nat, u: nat, v: nat)
      requires Valid() && i < |src|
    {
      (src[i] as nat == u && dst[i] as nat == v) || (src[i] as nat == v && dst[i] as nat == u)
    }

    ghost predicate Joined(u: nat, v: nat)
      requires Valid()
    {
      JoinedBy(u, v, |src|)
    }
  }

  /** A walk visits in-range nodes only, each joined to the next by an edge taken in either direction. */
  ghost predicate Walk(g: Graph, p: seq<nat>)
    requires g.Valid()
  {
    |p| > 0 &&
    (forall i :: 0 <= i < |p| ==> p[i] < g.nodeCount) &&
    (forall i, j :: 0 <= i && j == i + 1 && j < |p| ==> g.Joined(p[i], p[j]))
  }

  ghost predicate WalkBetween(g: Graph, u: nat, v: nat, hops: nat, p: seq<nat>)
    requires g.Valid()
  {
    Walk(g, p) && p[0] == u && p[|p| - 1] == v && |p| <= hops + 1
  }

  ghost predicate WithinHops(g: Graph, u: nat, v: nat, hops: nat)
    requires g.Valid()
  {
    exists p :: WalkBetween(g, u, v, hops, p)
  }

  // ----- the layers of the search

  ghost function Neighbours(g: Graph, s: set<nat>): set<nat>
    requires g.Valid()
  {
    set v: nat | v < g.nodeCount && NextTo(g, s, v)
  }

  /** One of the first `m` edges joins `v` to a member of `s`. */
  ghost predicate NextToBy(g: Graph, s: set<nat>, v: nat, m: nat)
    requires g.Valid() && m <= |g.src|
  {
    m > 0 &&
    (var a, b := g.src[m - 1] as nat, g.dst[m - 1] as nat;
     (a < g.nodeCount && b < g.nodeCount && ((a in s && b == v) || (b in s && a == v))) || NextToBy(g, s, v, m - 1))
  }

  ghost predicate NextTo(g: Graph, s: set<nat>, v: nat)
    requires g.Valid()
  {
    NextToBy(g, s, v, |g.src|)
  }

  lemma {:induction false} JoinedIsNextTo(g: Graph, s: set<nat>, u: nat, v: nat, m: nat)
    requires g.Valid() && m <= |g.src| && u in s && g.JoinedBy(u, v, m)
    ensures NextToBy(g, s, v, m)
  {
    if !g.EdgeJoins(m - 1, u, v) {
      JoinedIsNextTo(g, s, u, v, m - 1);
    }
  }

  lemma {:induction false} NextToIsJoined(g: Graph, s: set<nat>, v: nat, m: nat) returns (u: nat)
    requires g.Valid() && m <= |g.src| && NextToBy(g, s, v, m)
    ensures u in s && g.JoinedBy(u, v, m)
  {
    var a, b := g.src[m - 1] as nat, g.dst[m - 1] as nat;
    if a < g.nodeCount && b < g.nodeCount && ((a in s && b == v) || (b in s && a == v)) {
      u := if a in s && b == v then a else b;
      assert g.EdgeJoins(m - 1, u, v);
    } else {
      u := NextToIsJoined(g, s, v, m - 1);
    }
  }

  /** The neighbours of a set, told edge by edge, are the nodes joined to one of its members. */
  lemma {:induction false} NeighboursAreJoined(g: Graph, s: set<nat>, v: nat)
    requires g.Valid() && v < g.nodeCount
    ensures v in Neighbours(g, s) <==> exists u :: u in s && g.Joined(u, v)
  {
    if v in Neighbours(g, s) {
      var u := NextToIsJoined(g, s, v, |g.src|);
    }
    if u :| u in s && g.Joined(u, v) {
      JoinedIsNextTo(g, s, u, v, |g.src|);
    }
  }

  lemma {:induction false} NextToUnion(g: Graph, a: set<nat>, b: set<nat>, v: nat, m: nat)
    requires g.Valid() && m <= |g.src|
    ensures NextToBy(g, a + b, v, m) <==> NextToBy(g, a, v, m) || NextToBy(g, b, v, m)
  {
    if m > 0 {
      NextToUnion(g, a, b, v, m - 1);
    }
  }

  lemma {:induction false} NeighboursUnion(g: Graph, a: set<nat>, b: set<nat>)
    requires g.Valid()
    ensures Neighbours(g, a + b) == Neighbours(g, a) + Neighbours(g, b)
  {
    forall v: nat ensures v in Neighbours(g, a + b) <==> v in Neighbours(g, a) + Neighbours(g, b) {
      NextToUnion(g, a, b, v, |g.src|);
    }
  }

  lemma {:induction false} NothingNextToNone(g: Graph, v: nat, m: nat)
    requires g.Valid() && m <= |g.src|
    ensures !NextToBy(g, {}, v, m)
  {
    if m > 0 {
      NothingNextToNone(g, v, m - 1);
    }
  }

  lemma {:induction false} NoNeighboursOfNone(g: Graph)
    requires g.Valid()
    ensures Neighbours(g, {}) == {}
  {
    forall v: nat ensures v !in Neighbours(g, {}) {
      NothingNextToNone(g, v, |g.src|);
    }
  }

  ghost function Ball(g: Graph, start: nat, hops: nat): set<nat>
    requires g.Valid()
  {
    if hops == 0 then {start} else Grow(g, Ball(g, start, hops - 1))
  }

  ghost function Grow(g: Graph, s: set<nat>): set<nat>
    requires g.Valid()
  {
    s + Neighbours(g, s)
  }

  lemma {:induction false} BallHasWalks(g: Graph, start: nat, hops: nat, v: nat)
    requires g.Valid() && start < g.nodeCount && v in Ball(g, start, hops)
    ensures WithinHops(g, start, v, hops)
  {
    if hops == 0 {
      assert WalkBetween(g, start, v, hops, [start]);
    } else if v in Ball(g, start, hops - 1) {
      BallHasWalks(g, start, hops - 1, v);
      var p :| WalkBetween(g, start, v, hops - 1, p);
      assert WalkBetween(g, start, v, hops, p);
    } else {
      var u := NextToIsJoined(g, Ball(g, start, hops - 1), v, |g.src|);
      BallHasWalks(g, start, hops - 1, u);
      var p :| WalkBetween(g, start, u, hops - 1, p);
      assert WalkBetween(g, start, v, hops, p + [v]);
    }
  }

  lemma {:induction false} WalksStayInBall(g: Graph, start: nat, hops: nat, p: seq<nat>, v: nat)
    requires g.Valid() && WalkBetween(g, start, v, hops, p)
    ensures v in Ball(g, start, hops)
    decreases hops
  {
    if |p| == 1 {
      if hops > 0 {
        WalksStayInBall(g, start, hops - 1, p, v);
      }
    } else {
      var u := p[|p| - 2];
      assert WalkBetween(g, start, u, hops - 1, p[..|p| - 1]);
      WalksStayInBall(g, start, hops - 1, p[..|p| - 1], u);
      assert g.Joined(p[|p| - 2], p[|p| - 1]);
      NeighboursAreJoined(g, Ball(g, start, hops - 1), v);
    }
  }

  /** The layers built by the search are exactly the nodes that some short walk reaches. */
  lemma {:induction false} BallIsWithinHops(g: Graph, start: nat, hops: nat, v: nat)
    requires g.Valid() && start < g.nodeCount
    ensures v in Ball(g, start, hops) <==> WithinHops(g, start, v, hops)
  {
    if v in Ball(g, start, hops) {
      BallHasWalks(g, start, hops, v);
    }
    if p :| WalkBetween(g, start, v, hops, p) {
      WalksStayInBall(g, start, hops, p, v);
    }
  }

  function Reverse(p: seq<nat>): (r: seq<nat>)
    ensures |r| == |p|
    ensures forall i :: 0 <= i < |p| ==> r[i] == p[|p| - 1 - i]
  {
    if p == [] then [] else Reverse(p[1..]) + [p[0]]
  }

  /** Marking is symmetric: `v` is marked from `u` exactly when `u` is marked from `v`. */
  lemma {:induction false} WithinHopsSymmetric(g: Graph, u: nat, v: nat, hops: nat)
    requires g.Valid() && WithinHops(g, u, v, hops)
    ensures WithinHops(g, v, u, hops)
  {
    var p :| WalkBetween(g, u, v, hops, p);
    var r := Reverse(p);
    forall i, j | 0 <= i && j == i + 1 && j < |r| ensures g.Joined(r[i], r[j]) {
      var k, l := |p| - 1 - j, |p| - 1 - i;
      assert g.Joined(p[k], p[l]);
      var e :| 0 <= e < |g.src| && g.EdgeJoins(e, p[k], p[l]);
      assert g.EdgeJoins(e, r[i], r[j]);
    }
    assert WalkBetween(g, v, u, hops, r);
  }

  lemma {:induction false} BallStaysInside(g: Graph, start: nat, hops: nat, s: set<nat>)
    requires g.Valid() && start in s && Neighbours(g, s) <= s
    ensures Ball(g, start, hops) <= s
  {
    if hops > 0 {
      var smaller := Ball(g, start, hops - 1);
      BallStaysInside(g, start, hops - 1, s);
      assert smaller + s == s;
      NeighboursUnion(g, smaller, s);
    }
  }

  lemma {:induction false} BallGrows(g: Graph, start: nat, h: nat, more: nat)
    requires g.Valid()
    ensures Ball(g, start, h) <= Ball(g, start, h + more)
    ensures start in Ball(g, start, h)
    decreases h + more
  {
    if more > 0 {
      BallGrows(g, start, h, more - 1);
    } else if h > 0 {
      BallGrows(g, start, h - 1, 0);
    }
  }

  lemma {:induction false} BallInRange(g: Graph, start: nat, hops: nat)
    requires g.Valid() && start < g.nodeCount
    ensures forall v :: v in Ball(g, start, hops) ==> v < g.nodeCount
  {
    if hops > 0 {
      BallInRange(g, start, hops - 1);
    }
  }

  lemma {:induction false} BoundedCardinality(s: set<nat>, n: nat)
    requires forall v :: v in s ==> v < n
    ensures |s| <= n
  {
    if n == 0 {
      assert s == {};
    } else {
      BoundedCardinality(s - {n - 1}, n - 1);
    }
  }

  // ----- the kernel

  ghost function Elements(s: seq<nat>): set<nat> {
    set x | x in s
  }

  ghost predicate Distinct(s: seq<nat>) {
    forall i, j :: 0 <= i < j < |s| ==> s[i] != s[j]
  }

  ghost function Marked(mask: seq<u8>): set<nat> {
    set v: nat | v < |mask| && mask[v] != 0
  }

  ghost predicate IsMask(mask: seq<u8>) {
    forall v :: 0 <= v < |mask| ==> mask[v] == 0 || mask[v] == 1
  }

  /** Counts the edges looked at, each time one is looked at. */
  class Meter {
    ghost var steps: nat
  }

  /** How many looks it takes to go through `edges` edges for each of `nodes` nodes. */
  ghost function Looks(nodes: nat, edges: nat): nat {
    if nodes == 0 then 0 else Looks(nodes - 1, edges) + edges
  }

  lemma {:induction false} LooksAddUp(a: nat, b: nat, edges: nat)
    ensures Looks(a + b, edges) == Looks(a, edges) + Looks(b, edges)
  {
    if b > 0 {
      LooksAddUp(a, b - 1, edges);
    }
  }

  lemma {:induction false} LooksBound(nodes: nat, most: nat, edges: nat)
    requires nodes <= most
    ensures Looks(nodes, edges) == nodes * edges <= most * edges
    decreases nodes
  {
    if nodes > 0 {
      LooksBound(nodes - 1, most - 1, edges);
      assert nodes * edges == (nodes - 1) * edges + edges && most * edges == (most - 1) * edges + edges;
    }
  }

  /** One round of the innermost loop: looks at the edge from `a` to `b` and marks its other end. */
  method LookAtEdge(a: nat, b: nat, nodeCount: nat, node: nat, out: array<u8>, next: seq<nat>, ghost meter: Meter)
    returns (next': seq<nat>)
    requires out.Length == nodeCount && node < nodeCount && IsMask(out[..]) && out[node] == 1
    requires Distinct(next) && forall v :: v in next ==> v < nodeCount && out[v] != 0
    modifies out, meter
    ensures meter.steps == old(meter.steps) + 1 && IsMask(out[..])
    ensures forall v :: 0 <= v < nodeCount ==>
              (out[v] != 0 <==> old(out[v]) != 0 || (a == node && b == v) || (b == node && a == v))
    ensures Distinct(next') && forall v :: v in next' ==> v < nodeCount && out[v] != 0
    ensures forall v :: 0 <= v < nodeCount ==> (v in next' <==> v in next || (old(out[v]) == 0 && out[v] != 0))
  {
    meter.steps := meter.steps + 1;
    next' := next;
    if a == node && b < nodeCount && out[b] == 0 {
      out[b] := 1;
      next' := next' + [b];
    } else if b == node && a < nodeCount && out[a] == 0 {
      out[a] := 1;
      next' := next' + [a];
    }
  }

  /** The innermost loop: marks the unmarked neighbours of `node` and appends them to `next`. */
  method ExpandNode(src: array<u32>, dst: array<u32>, nodeCount: nat, node: nat, out: array<u8>, next: seq<nat>,
                    ghost meter: Meter)
    returns (next': seq<nat>)
    requires src.Length == dst.Length && out.Length == nodeCount && node < nodeCount
    requires IsMask(out[..]) && out[node] == 1
    requires Distinct(next) && Elements(next) <= Marked(out[..])
    modifies out, meter
    ensures IsMask(out[..]) && meter.steps == old(meter.steps) + src.Length
    ensures var g := Graph(nodeCount, src[..], dst[..]);
            Marked(out[..]) == old(Marked(out[..])) + Neighbours(g, {node})
    ensures Distinct(next') && Elements(next') == Elements(next) + (Marked(out[..]) - old(Marked(out[..])))
  {
    next' := next;
    ghost var g := Graph(nodeCount, src[..], dst[..]);
    assert forall v :: v in next ==> v in Elements(next) && v in Marked(out[..]);
    for i := 0 to src.Length
      invariant IsMask(out[..]) && meter.steps == old(meter.steps) + i
      invariant forall v :: 0 <= v < nodeCount ==> (out[v] != 0 <==> old(out[v]) != 0 || g.JoinedBy(node, v, i))
      invariant Distinct(next')
      invariant forall v :: v in next' ==> v < nodeCount && out[v] != 0
      invariant forall v :: 0 <= v < nodeCount ==> (v in next' <==> v in next || (old(out[v]) == 0 && out[v] != 0))
    {
      next' := LookAtEdge(src[i] as nat, dst[i] as nat, nodeCount, node, out, next', meter);
      OneMoreEdge(g, node, i);
    }
    forall v | 0 <= v < nodeCount ensures v in Neighbours(g, {node}) <==> g.Joined(node, v) {
      NeighboursAreJoined(g, {node}, v);
    }
  }

  lemma {:induction false} OneMoreEdge(g: Graph, node: nat, i: nat)
    requires g.Valid() && node < g.nodeCount && i < |g.src|
    ensures forall v :: 0 <= v < g.nodeCount ==>
              (g.JoinedBy(node, v, i + 1) <==> g.JoinedBy(node, v, i) || g.EdgeJoins(i, node, v))
  {
  }

  /** The middle loop: one layer of the search. */
  method ExpandFrontier(src: array<u32>, dst: array<u32>, nodeCount: nat, frontier: seq<nat>, out: array<u8>,
                        ghost meter: Meter)
    returns (next: seq<nat>)
    requires src.Length == dst.Length && out.Length == nodeCount
    requires IsMask(out[..]) && Elements(frontier) <= Marked(out[..])
    modifies out, meter
    ensures IsMask(out[..]) && meter.steps == old(meter.steps) + Looks(|frontier|, src.Length)
    ensures var g := Graph(nodeCount, src[..], dst[..]);
            Marked(out[..]) == old(Marked(out[..])) + Neighbours(g, Elements(frontier))
    ensures Distinct(next) && Elements(next) == Marked(out[..]) - old(Marked(out[..]))
  {
    next := [];
    NoNeighboursOfNone(Graph(nodeCount, src[..], dst[..]));
    assert Elements(frontier[..0]) == {};
    ghost var g := Graph(nodeCount, src[..], dst[..]);
    for k := 0 to |frontier|
      invariant IsMask(out[..]) && meter.steps == old(meter.steps) + Looks(k, src.Length)
      invariant Marked(out[..]) == old(Marked(out[..])) + Neighbours(g, Elements(frontier[..k]))
      invariant Distinct(next) && Elements(next) == Marked(out[..]) - old(Marked(out[..]))
    {
      assert frontier[k] in Elements(frontier);
      assert Elements(frontier[..k + 1]) == Elements(frontier[..k]) + {frontier[k]};
      NeighboursUnion(g, Elements(frontier[..k]), {frontier[k]});
      next := ExpandNode(src, dst, nodeCount, frontier[k], out, next, meter);
    }
    assert frontier[..|frontier|] == frontier;
  }

  /** The nodes whose neighbours are looked at. */
  ghost function Expanded(g: Graph, start: nat, hops: nat): set<nat>
    requires g.Valid()
  {
    if hops == 0 then {} else Ball(g, start, hops - 1)
  }

  ghost predicate Runs(nodeCount: nat, src: array?<u32>, dst: array?<u32>, start: nat, out: array?<u8>) {
    src != null && dst != null && out != null && start < nodeCount
  }

  lemma {:induction false} MaskIsReach(g: Graph, start: nat, hops: nat, mask: seq<u8>)
    requires g.Valid() && start < g.nodeCount == |mask|
    requires IsMask(mask) && Marked(mask) == Ball(g, start, hops)
    ensures forall v :: 0 <= v < g.nodeCount ==> mask[v] == if WithinHops(g, start, v, hops) then 1 else 0
  {
    forall v | 0 <= v < g.nodeCount ensures mask[v] == if WithinHops(g, start, v, hops) then 1 else 0 {
      BallIsWithinHops(g, start, hops, v);
      assert v in Marked(mask) <==> mask[v] == 1;
    }
  }

  /** No node is expanded twice, so no more than `nodeCount` are expanded. */
  lemma {:induction false} ExpandedAtMostOnce(g: Graph, start: nat, hops: nat, expanded: seq<nat>)
    requires g.Valid() && start < g.nodeCount
    requires Distinct(expanded) && Elements(expanded) == Expanded(g, start, hops)
    ensures |expanded| == |Expanded(g, start, hops)| <= g.nodeCount
  {
    if hops > 0 {
      BallInRange(g, start, hops - 1);
    }
    DistinctCardinality(expanded);
    BoundedCardinality(Expanded(g, start, hops), g.nodeCount);
  }

  lemma {:induction false} DistinctCardinality(s: seq<nat>)
    requires Distinct(s)
    ensures |Elements(s)| == |s|
  {
    if s != [] {
      DistinctCardinality(s[1..]);
      assert Elements(s) == {s[0]} + Elements(s[1..]);
    }
  }

  /** The state between two layers: what is marked, what was expanded, and what is still to be. */
  ghost predicate Layered(g: Graph, start: nat, hop: nat, marked: set<nat>, expanded: set<nat>, frontier: set<nat>)
    requires g.Valid()
  {
    marked == Ball(g, start, hop) &&
    expanded == Expanded(g, start, hop) &&
    frontier == marked - expanded && expanded <= marked &&
    Neighbours(g, expanded) <= marked
  }

  lemma {:induction false} LayerStep(g: Graph, start: nat, hop: nat, marked: set<nat>, expanded: set<nat>,
                                     frontier: set<nat>)
    requires g.Valid() && Layered(g, start, hop, marked, expanded, frontier)
    ensures var marked' := marked + Neighbours(g, frontier);
            Layered(g, start, hop + 1, marked', expanded + frontier, marked' - marked)
  {
    assert marked == expanded + frontier;
    NeighboursUnion(g, expanded, frontier);
    assert Grow(g, marked) == marked + Neighbours(g, frontier);
  }

  /** An empty frontier ends the search: later layers add nothing. */
  lemma {:induction false} LayersEnd(g: Graph, start: nat, hop: nat, hops: nat, marked: set<nat>, expanded: set<nat>)
    requires g.Valid() && hop <= hops && Layered(g, start, hop, marked, expanded, {})
    ensures Ball(g, start, hops) == marked == expanded
  {
    forall v | v in marked ensures v in expanded {
      assert v in marked - expanded || v in expanded;
    }
    assert marked == expanded;
    BallGrows(g, start, hop, hops - hop);
    BallStaysInside(g, start, hops, marked);
  }

  lemma {:induction false} DistinctAppend(a: seq<nat>, b: seq<nat>)
    requires Distinct(a) && Distinct(b) && Elements(a) !! Elements(b)
    ensures Distinct(a + b) && Elements(a + b) == Elements(a) + Elements(b)
  {
    forall i, j | 0 <= i < j < |a + b| ensures (a + b)[i] != (a + b)[j] {
      assert (a + b)[i] in Elements(if i < |a| then a else b);
      assert (a + b)[j] in Elements(if j < |a| then a else b);
    }
  }

  /** The outer loop, over layers, entered with only `start` marked. `expanded` lists the nodes whose
      edges were scanned. */
  method Search(nodeCount: nat, src: array<u32>, dst: array<u32>, start: nat, out: array<u8>, hops: nat,
                ghost meter: Meter)
    returns (ghost expanded: seq<nat>)
    requires src.Length == dst.Length && out.Length == nodeCount && start < nodeCount
    requires IsMask(out[..]) && Marked(out[..]) == {start}
    modifies out, meter
    ensures meter.steps == old(meter.steps) + Looks(|expanded|, src.Length)
    ensures var g := Graph(nodeCount, src[..], dst[..]);
            IsMask(out[..]) && Marked(out[..]) == Ball(g, start, hops) &&
            Distinct(expanded) && Elements(expanded) == Expanded(g, start, hops)
  {
    ghost var g := Graph(nodeCount, src[..], dst[..]);
    var frontier := [start];
    expanded := [];
    var hop := 0;
    NoNeighboursOfNone(g);
    assert Layered(g, start, 0, {start}, {}, {start});
    assert Elements(frontier) == {start} && Elements(expanded) == {};
    while hop < hops && frontier != []
      invariant 0 <= hop <= hops
      invariant src[..] == g.src && dst[..] == g.dst
      invariant meter.steps == old(meter.steps) + Looks(|expanded|, src.Length)
      invariant IsMask(out[..]) && Distinct(frontier) && Distinct(expanded)
      invariant Layered(g, start, hop, Marked(out[..]), Elements(expanded), Elements(frontier))
      decreases hops - hop
    {
      LayerStep(g, start, hop, Marked(out[..]), Elements(expanded), Elements(frontier));
      DistinctAppend(expanded, frontier);
      LooksAddUp(|expanded|, |frontier|, src.Length);
      expanded := expanded + frontier;
      frontier := ExpandFrontier(src, dst, nodeCount, frontier, out, meter);
      hop := hop + 1;
    }
    if hop < hops {
      LayersEnd(g, start, hop, hops, Marked(out[..]), Elements(expanded));
      LayersEnd(g, start, hop, hops - 1, Marked(out[..]), Elements(expanded));
    }
  }

  /** The kernel for any hop bound. Main result: a node is marked exactly when a walk of at most `hops`
      edges reaches it; each node closer than that is expanded exactly once, at the cost of one look at
      every edge, so there are at most `nodeCount` times as many looks as edges. */
  method ComputeHopMask(nodeCount: nat, src: array?<u32>, dst: array?<u32>, start: nat, out: array?<u8>, hops: nat,
                        ghost meter: Meter)
    returns (ghost expanded: seq<nat>)
    requires src != null && dst != null ==> src.Length == dst.Length
    requires out != null ==> out.Length == nodeCount
    modifies out, meter
    ensures !Runs(nodeCount, src, dst, start, out) ==>
              meter.steps == old(meter.steps) && (out != null ==> out[..] == old(out[..]))
    ensures Runs(nodeCount, src, dst, start, out) ==>
              var g := Graph(nodeCount, src[..], dst[..]);
              (forall v :: 0 <= v < nodeCount ==> out[v] == if WithinHops(g, start, v, hops) then 1 else 0) &&
              Distinct(expanded) && Elements(expanded) == Expanded(g, start, hops)
    ensures Runs(nodeCount, src, dst, start, out) ==>
              meter.steps - old(meter.steps) == |expanded| * src.Length <= nodeCount * src.Length
  {
    expanded := [];
    if src == null || dst == null || out == null {
      return;
    }
    if start >= nodeCount {
      return;
    }
    for v := 0 to nodeCount
      invariant meter.steps == old(meter.steps)
      invariant forall w :: 0 <= w < v ==> out[w] == 0
    {
      out[v] := 0;
    }
    out[start] := 1;
    expanded := Search(nodeCount, src, dst, start, out, hops, meter);
    MaskIsReach(Graph(nodeCount, src[..], dst[..]), start, hops, out[..]);
    ExpandedAtMostOnce(Graph(nodeCount, src[..], dst[..]), start, hops, expanded);
    LooksBound(|expanded|, nodeCount, src.Length);
  }

  /** The exported entry point. */
  method ComputeThreeHopMask(nodeCount: nat, src: array?<u32>, dst: array?<u32>, start: nat, out: array?<u8>,
                             ghost meter: Meter)
    requires src != null && dst != null ==> src.Length == dst.Length
    requires out != null ==> out.Length == nodeCount
    modifies out, meter
    ensures !Runs(nodeCount, src, dst, start, out) ==> out != null ==> out[..] == old(out[..])
    ensures Runs(nodeCount, src, dst, start, out) ==>
              forall v :: 0 <= v < nodeCount ==>
                out[v] == if WithinHops(Graph(nodeCount, src[..], dst[..]), start, v, 3) then 1 else 0
    ensures Runs(nodeCount, src, dst, start, out) ==> meter.steps - old(meter.steps) <= nodeCount * src.Length
  {
    ghost var expanded := ComputeHopMask(nodeCount, src, dst, start, out, 3, meter);
  }
}
