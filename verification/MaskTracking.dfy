/** Rendering takes subgraphs of subgraphs and filters them, but computes the visibility mask once, for
    the whole graph. After any number of such steps every node still finds its own bit in that mask. */
module MaskTracking {
  import opened Options
  import opened MachineInts
  import opened Subgraph
  import StateMask

  datatype Step = Take(keep: set<int>, edgeOk: Edge -> bool) | Hide(visible: Node -> bool)

  function Apply(g: Graph, step: Step): Graph {
    match step
    case Take(keep, edgeOk) => Induced(g, keep, edgeOk)
    case Hide(visible) => Filtered(g, visible)
  }

  function Run(g: Graph, steps: seq<Step>): Graph {
    if steps == [] then g else Apply(Run(g, steps[..|steps| - 1]), steps[|steps| - 1])
  }

  /** A graph as the decoder builds it from any snapshot. */
  predicate IsDecoded(g: Graph) {
    Dense(g) && forall i :: 0 <= i < |g.nodes| ==> g.nodes[i].originalIndex == None
  }

  function Rooted(g: Graph, e: Edge): Edge
    requires EndsIn(e, |g.nodes|)
  {
    e.(source := MaskIndex(g.nodes[e.source]), target := MaskIndex(g.nodes[e.target]))
  }

  ghost predicate NodeTracks(node: Node, root: Graph) {
    MaskIndex(node) < |root.nodes| && root.nodes[MaskIndex(node)].data == node.data
  }

  /** Every node is the root node at its mask index, different nodes are different root nodes in the same
      order, and every edge with two ends is an edge of the root between those nodes. */
  ghost predicate TracksRoot(g: Graph, root: Graph) {
    Dense(g) &&
    (forall i :: 0 <= i < |g.nodes| ==> NodeTracks(g.nodes[i], root)) &&
    (forall i, j :: 0 <= i < j < |g.nodes| ==> MaskIndex(g.nodes[i]) < MaskIndex(g.nodes[j])) &&
    (forall e :: e in g.edges && EndsIn(e, |g.nodes|) ==> Rooted(g, e) in root.edges)
  }

  lemma {:induction false} RootTracksItself(g: Graph)
    requires IsDecoded(g)
    ensures TracksRoot(g, g)
  {
    forall e | e in g.edges && EndsIn(e, |g.nodes|) ensures Rooted(g, e) in g.edges {
      assert Rooted(g, e) == e;
    }
  }

  lemma {:induction false} InducedTracks(g: Graph, keep: set<int>, edgeOk: Edge -> bool, root: Graph)
    requires TracksRoot(g, root)
    ensures TracksRoot(Induced(g, keep, edgeOk), root)
    ensures InRange(g) ==> InRange(Induced(g, keep, edgeOk))
  {
    var r, f := Induced(g, keep, edgeOk), Picks(keep, |g.nodes|);
    InducedNodes(g, keep, edgeOk);
    InducedEdges(g, keep, edgeOk);
    InducedInRangeExactlyWhen(g, keep, edgeOk);
    PicksAscend(keep, |g.nodes|);
    forall i | 0 <= i < |r.nodes| ensures NodeTracks(r.nodes[i], root) {
      assert NodeTracks(g.nodes[f[i]], root);
    }
    FollowersAreEdges(r.edges, g.edges, |g.edges|, f, |g.nodes|, keep, edgeOk);
    forall e | e in r.edges && EndsIn(e, |r.nodes|) ensures Rooted(r, e) in root.edges {
      assert Through(e, f) in g.edges;
      assert Rooted(r, e) == Rooted(g, Through(e, f));
    }
  }

  /** Main result: the correspondence with the root survives every sequence of steps, and when the edges of
      the root end at its nodes, no edge ever loses an end. */
  lemma {:induction false} RunTracksRoot(root: Graph, steps: seq<Step>)
    requires IsDecoded(root)
    ensures TracksRoot(Run(root, steps), root)
    ensures InRange(root) ==> InRange(Run(root, steps))
  {
    if steps == [] {
      RootTracksItself(root);
    } else {
      var g := Run(root, steps[..|steps| - 1]);
      RunTracksRoot(root, steps[..|steps| - 1]);
      match steps[|steps| - 1]
      case Take(keep, edgeOk) =>
        InducedTracks(g, keep, edgeOk, root);
      case Hide(visible) =>
        InducedTracks(g, VisibleTo(g.nodes, visible, |g.nodes|), AnyEdge(), root);
    }
  }

  function States(g: Graph): seq<nat> {
    seq(|g.nodes|, i requires 0 <= i < |g.nodes| => g.nodes[i].data.state)
  }

  /** Main result: after any steps, the bit a node looks up in the root's mask is the one for its own
      state, whichever way the mask was computed. */
  lemma {:induction false} MaskBitIsOwnState(root: Graph, steps: seq<Step>, filters: StateMask.Filters,
                                             engineRuns: bool, i: nat)
    requires IsDecoded(root) && i < |Run(root, steps).nodes|
    ensures var node := Run(root, steps).nodes[i];
            var mask := StateMask.VisibilityMask(States(root), filters, engineRuns);
            MaskIndex(node) < |mask| &&
            (mask[MaskIndex(node)] == 1 <==> StateMask.On(filters, StateMask.SwitchName(ToU8(node.data.state))))
  {
    RunTracksRoot(root, steps);
    assert NodeTracks(Run(root, steps).nodes[i], root);
  }

  // ----- hiding nodes after any steps

  /** What decides whether a node is drawn: the switches for its state and its kind, and its emphasis. */
  predicate Shown(node: Node, filters: StateMask.Filters, nodeKinds: map<string, bool>, focused: bool) {
    StateMask.On(filters, StateMask.SwitchName(ToU8(node.data.state))) &&
    (node.data.isCluster || node.data.kind !in nodeKinds || nodeKinds[node.data.kind] || focused)
  }

  function Visibility(mask: seq<u8>, nodeKinds: map<string, bool>, focused: Node -> bool): Node -> bool {
    (node: Node) => NodeVisible(node, mask, nodeKinds, focused(node))
  }

  /** The node is still there. */
  ghost predicate Survives(node: Node, r: Graph) {
    exists i :: 0 <= i < |r.nodes| && SameNode(r.nodes[i], node)
  }

  ghost predicate SameNode(a: Node, b: Node) {
    MaskIndex(a) == MaskIndex(b) && a.data == b.data
  }

  lemma {:induction false} VisibleExactlyWhenShown(root: Graph, steps: seq<Step>, filters: StateMask.Filters,
                                                   engineRuns: bool, nodeKinds: map<string, bool>,
                                                   focused: Node -> bool, i: nat)
    requires IsDecoded(root) && i < |Run(root, steps).nodes|
    ensures var node := Run(root, steps).nodes[i];
            var mask := StateMask.VisibilityMask(States(root), filters, engineRuns);
            Visibility(mask, nodeKinds, focused)(node) <==> Shown(node, filters, nodeKinds, focused(node))
  {
    MaskBitIsOwnState(root, steps, filters, engineRuns, i);
  }

  lemma {:induction false} VisiblePlaces(g: Graph, visible: Node -> bool, i: nat) returns (p: nat)
    requires Dense(g) && i < |g.nodes| && visible(g.nodes[i])
    ensures var shown := Picks(VisibleTo(g.nodes, visible, |g.nodes|), |g.nodes|);
            p < |shown| && shown[p] == i
  {
    VisibleMembers(g, visible, |g.nodes|);
    p := PicksAll(VisibleTo(g.nodes, visible, |g.nodes|), |g.nodes|, i);
  }

  /** The p-th node that the filter keeps is the p-th visible one. */
  lemma {:induction false} FilteredPlace(g: Graph, visible: Node -> bool, shown: seq<nat>, j: nat, p: nat)
    requires Dense(g) && j < |g.nodes| && visible(g.nodes[j])
    requires shown == Picks(VisibleTo(g.nodes, visible, |g.nodes|), |g.nodes|)
    ensures |Filtered(g, visible).nodes| == |shown|
    ensures p < |shown| ==> shown[p] < |g.nodes| && SameNode(Filtered(g, visible).nodes[p], g.nodes[shown[p]])
    ensures p < |shown| ==> visible(g.nodes[shown[p]])
  {
    FilterShows(g, visible);
  }

  lemma {:induction false} SurvivorsAreVisible(g: Graph, visible: Node -> bool, i: nat, j: nat)
    requires Dense(g) && i < |g.nodes| && j < |g.nodes| && visible(g.nodes[j])
    requires forall a, b :: 0 <= a < b < |g.nodes| ==> MaskIndex(g.nodes[a]) < MaskIndex(g.nodes[b])
    ensures Survives(g.nodes[i], Filtered(g, visible)) <==> visible(g.nodes[i])
  {
    var r, shown := Filtered(g, visible), Picks(VisibleTo(g.nodes, visible, |g.nodes|), |g.nodes|);
    if visible(g.nodes[i]) {
      var p := VisiblePlaces(g, visible, i);
      FilteredPlace(g, visible, shown, j, p);
      assert SameNode(r.nodes[p], g.nodes[i]);
    }
    if Survives(g.nodes[i], r) {
      var p :| 0 <= p < |r.nodes| && SameNode(r.nodes[p], g.nodes[i]);
      FilteredPlace(g, visible, shown, j, p);
      assert MaskIndex(g.nodes[shown[p]]) == MaskIndex(g.nodes[i]);
      assert shown[p] == i;
    }
  }

  /** Main result: after any steps, filtering by the root's mask and the kind switches leaves exactly the nodes
      whose own state is on and whose kind is on or which are focused; if there are none it leaves all. */
  lemma {:induction false} FilterLeavesExactlyShown(root: Graph, steps: seq<Step>, filters: StateMask.Filters,
                                                    engineRuns: bool, nodeKinds: map<string, bool>,
                                                    focused: Node -> bool, i: nat)
    requires IsDecoded(root) && i < |Run(root, steps).nodes|
    ensures var g := Run(root, steps);
            var mask := StateMask.VisibilityMask(States(root), filters, engineRuns);
            Survives(g.nodes[i], Filtered(g, Visibility(mask, nodeKinds, focused))) <==>
              Shown(g.nodes[i], filters, nodeKinds, focused(g.nodes[i])) ||
              forall j :: 0 <= j < |g.nodes| ==> !Shown(g.nodes[j], filters, nodeKinds, focused(g.nodes[j]))
  {
    var g := Run(root, steps);
    var visible := Visibility(StateMask.VisibilityMask(States(root), filters, engineRuns), nodeKinds, focused);
    RunTracksRoot(root, steps);
    forall j | 0 <= j < |g.nodes|
      ensures visible(g.nodes[j]) <==> Shown(g.nodes[j], filters, nodeKinds, focused(g.nodes[j]))
    {
      VisibleExactlyWhenShown(root, steps, filters, engineRuns, nodeKinds, focused, j);
    }
    if j :| 0 <= j < |g.nodes| && visible(g.nodes[j]) {
      SurvivorsAreVisible(g, visible, i, j);
    } else {
      FilterShows(g, visible);
      assert SameNode(g.nodes[i], g.nodes[i]);
    }
  }
}
