/** The snapshot that carries the graph to the browser: one row per node and then one per edge, in
    thirteen columns, and two constant ones for versions. The decoder replaces missing, zero and empty
    values by defaults. */
module Snapshot {
  import opened Options
  import opened MachineInts
  import opened Subgraph
  import MaskTracking
  import StateMask

  datatype WireNode = WireNode(x: real, y: real, state: u8, caption: string, kind: string, size: real, details: string)

  datatype WireEdge = WireEdge(source: u32, target: u32, weight: u32, relation: string, kind: string)

  datatype Table = Table(
    rowType: seq<int>,
    nodeX: seq<Option<real>>, nodeY: seq<Option<real>>, nodeState: seq<Option<u32>>, nodeLabel: seq<Option<string>>,
    nodeKind: seq<Option<string>>, nodeSize: seq<Option<real>>, nodeDetails: seq<Option<string>>,
    edgeSource: seq<Option<u32>>, edgeTarget: seq<Option<u32>>, edgeWeight: seq<Option<u32>>,
    edgeLabel: seq<Option<string>>, edgeKind: seq<Option<string>>)
  {
    function PushNode(n: WireNode): Table {
      Table(rowType + [0],
            nodeX + [Some(n.x)], nodeY + [Some(n.y)], nodeState + [Some(n.state as u32)], nodeLabel + [Some(n.caption)],
            nodeKind + [Some(n.kind)], nodeSize + [Some(n.size)], nodeDetails + [Some(n.details)],
            edgeSource + [None], edgeTarget + [None], edgeWeight + [None], edgeLabel + [None], edgeKind + [None])
    }

    function PushEdge(e: WireEdge): Table {
      Table(rowType + [1],
            nodeX + [None], nodeY + [None], nodeState + [None], nodeLabel + [None],
            nodeKind + [None], nodeSize + [None], nodeDetails + [None],
            edgeSource + [Some(e.source)], edgeTarget + [Some(e.target)], edgeWeight + [Some(e.weight)],
            edgeLabel + [Some(e.relation)], edgeKind + [Some(e.kind)])
    }

    /** All columns have one cell per row. */
    predicate Rectangular() {
      |rowType| == |nodeX| == |nodeY| == |nodeState| == |nodeLabel| == |nodeKind| == |nodeSize| == |nodeDetails| &&
      |rowType| == |edgeSource| == |edgeTarget| == |edgeWeight| == |edgeLabel| == |edgeKind|
    }
  }

  const NO_ROWS := Table([], [], [], [], [], [], [], [], [], [], [], [], [])

  function NodeRows(nodes: seq<WireNode>, n: nat): (t: Table)
    requires n <= |nodes|
    ensures t.Rectangular() && |t.rowType| == n
  {
    if n == 0 then NO_ROWS else NodeRows(nodes, n - 1).PushNode(nodes[n - 1])
  }

  function Rows(nodes: seq<WireNode>, edges: seq<WireEdge>, m: nat): (t: Table)
    requires m <= |edges|
    ensures t.Rectangular() && |t.rowType| == |nodes| + m
  {
    if m == 0 then NodeRows(nodes, |nodes|) else Rows(nodes, edges, m - 1).PushEdge(edges[m - 1])
  }

  /** `single` rounds a number to 32 bits. */
  function RoundedNode(n: WireNode, single: real -> real): WireNode {
    n.(x := single(n.x), y := single(n.y), size := single(n.size))
  }

  function Rounded(nodes: seq<WireNode>, single: real -> real): (r: seq<WireNode>)
    ensures |r| == |nodes| && forall i :: 0 <= i < |r| ==> r[i] == RoundedNode(nodes[i], single)
  {
    seq(|nodes|, i requires 0 <= i < |nodes| => RoundedNode(nodes[i], single))
  }

  function Encoded(nodes: seq<WireNode>, edges: seq<WireEdge>, single: real -> real): (t: Table)
    ensures t.Rectangular() && |t.rowType| == |nodes| + |edges|
  {
    Rows(Rounded(nodes, single), edges, |edges|)
  }

  /** The two last columns repeat the schema version and the low 32 bits of the revision in every row. */
  method EncodeSnapshot(schemaVersion: u32, revision: nat, nodes: seq<WireNode>, edges: seq<WireEdge>,
                        single: real -> real)
    returns (t: Table, schemaVersions: seq<u32>, revisions: seq<u32>)
    ensures t == Encoded(nodes, edges, single)
    ensures |schemaVersions| == |revisions| == |t.rowType|
    ensures forall i :: 0 <= i < |schemaVersions| ==> schemaVersions[i] == schemaVersion
    ensures forall i :: 0 <= i < |revisions| ==> revisions[i] as nat == revision % U32_SPAN
  {
    t := NO_ROWS;
    for i := 0 to |nodes|
      invariant t == NodeRows(Rounded(nodes, single), i)
    {
      t := t.PushNode(RoundedNode(nodes[i], single));
    }
    for i := 0 to |edges|
      invariant t == Rows(Rounded(nodes, single), edges, i)
    {
      t := t.PushEdge(edges[i]);
    }
    var rows := |nodes| + |edges|;
    schemaVersions := seq(rows, _ => schemaVersion);
    revisions := seq(rows, _ => ToU32(revision));
  }

  // ----- the decoder

  datatype NodeOut<J> = NodeOut(index: nat, x: real, y: real, state: nat, caption: string, kind: string, size: real,
                                details: J)

  datatype EdgeOut = EdgeOut(source: nat, target: nat, weight: nat, relation: string, kind: string)

  datatype GraphOut<J> = GraphOut(nodes: seq<NodeOut<J>>, edges: seq<EdgeOut>,
                                  edgeSourceIndex: seq<u32>, edgeTargetIndex: seq<u32>)

  /** `column.get(i) || otherwise`: null, zero and the empty string all give way to the default. */
  function RealOr(v: Option<real>, otherwise: real): real {
    if v == None || v.value == 0.0 then otherwise else v.value
  }

  function IntOr(v: Option<u32>, otherwise: nat): nat {
    if v == None || v.value == 0 then otherwise else v.value as nat
  }

  function TextOr(v: Option<string>, otherwise: string): string {
    if v == None || v.value == "" then otherwise else v.value
  }

  /** `number` renders the position in a default label; `read` is what reading a details cell as JSON gives. */
  function NodeFrom<J>(t: Table, i: nat, index: nat, number: nat -> string, read: Option<string> -> J): NodeOut<J>
    requires t.Rectangular() && i < |t.rowType|
  {
    NodeOut(index, RealOr(t.nodeX[i], 0.0), RealOr(t.nodeY[i], 0.0), IntOr(t.nodeState[i], 3),
            TextOr(t.nodeLabel[i], "node-" + number(index + 1)), TextOr(t.nodeKind[i], "other"),
            RealOr(t.nodeSize[i], 12.0), read(t.nodeDetails[i]))
  }

  function EdgeFrom(t: Table, i: nat): EdgeOut
    requires t.Rectangular() && i < |t.rowType|
  {
    EdgeOut(IntOr(t.edgeSource[i], 0), IntOr(t.edgeTarget[i], 0), IntOr(t.edgeWeight[i], 1),
            TextOr(t.edgeLabel[i], ""), TextOr(t.edgeKind[i], "relationship"))
  }

  function DecodedTo<J>(t: Table, n: nat, number: nat -> string, read: Option<string> -> J): GraphOut<J>
    requires t.Rectangular() && n <= |t.rowType|
  {
    if n == 0 then GraphOut([], [], [], [])
    else
      var g := DecodedTo(t, n - 1, number, read);
      if t.rowType[n - 1] == 0 then
        g.(nodes := g.nodes + [NodeFrom(t, n - 1, |g.nodes|, number, read)])
      else if t.rowType[n - 1] == 1 then
        var e := EdgeFrom(t, n - 1);
        g.(edges := g.edges + [e], edgeSourceIndex := g.edgeSourceIndex + [ToU32(e.source)],
           edgeTargetIndex := g.edgeTargetIndex + [ToU32(e.target)])
      else g
  }

  function Decoded<J>(t: Table, number: nat -> string, read: Option<string> -> J): GraphOut<J>
    requires t.Rectangular()
  {
    DecodedTo(t, |t.rowType|, number, read)
  }

  method DecodeGraph<J>(t: Table, number: nat -> string, read: Option<string> -> J) returns (g: GraphOut<J>)
    requires t.Rectangular()
    ensures g == Decoded(t, number, read)
  {
    var nodes: seq<NodeOut<J>> := [];
    var edges: seq<EdgeOut> := [];
    var edgeSourceIndex: seq<u32> := [];
    var edgeTargetIndex: seq<u32> := [];
    for i := 0 to |t.rowType|
      invariant GraphOut(nodes, edges, edgeSourceIndex, edgeTargetIndex) == DecodedTo(t, i, number, read)
    {
      if t.rowType[i] == 0 {
        nodes := nodes + [NodeFrom(t, i, |nodes|, number, read)];
      } else if t.rowType[i] == 1 {
        var e := EdgeFrom(t, i);
        edges := edges + [e];
        edgeSourceIndex := edgeSourceIndex + [ToU32(e.source)];
        edgeTargetIndex := edgeTargetIndex + [ToU32(e.target)];
      }
    }
    g := GraphOut(nodes, edges, edgeSourceIndex, edgeTargetIndex);
  }

  /** Main result: whatever the table, nodes are numbered by position and the two index arrays are the
      edges' endpoints. */
  lemma {:induction false} DecodedIsDense<J>(t: Table, n: nat, number: nat -> string, read: Option<string> -> J)
    requires t.Rectangular() && n <= |t.rowType|
    ensures var g := DecodedTo(t, n, number, read);
            (forall i :: 0 <= i < |g.nodes| ==> g.nodes[i].index == i) &&
            |g.edgeSourceIndex| == |g.edgeTargetIndex| == |g.edges| &&
            forall i :: 0 <= i < |g.edges| ==>
              g.edgeSourceIndex[i] as nat == g.edges[i].source && g.edgeTargetIndex[i] as nat == g.edges[i].target
  {
    if n > 0 {
      DecodedIsDense(t, n - 1, number, read);
    }
  }

  // ----- round trips

  function NodeBack<J>(n: WireNode, index: nat, number: nat -> string, read: Option<string> -> J): NodeOut<J> {
    NodeOut(index, n.x, n.y, if n.state == 0 then 3 else n.state as nat,
            if n.caption == "" then "node-" + number(index + 1) else n.caption,
            if n.kind == "" then "other" else n.kind,
            if n.size == 0.0 then 12.0 else n.size, read(Some(n.details)))
  }

  function EdgeBack(e: WireEdge): EdgeOut {
    EdgeOut(e.source as nat, e.target as nat, if e.weight == 0 then 1 else e.weight as nat, e.relation,
            if e.kind == "" then "relationship" else e.kind)
  }

  function Expected<J>(nodes: seq<WireNode>, edges: seq<WireEdge>, number: nat -> string,
                       read: Option<string> -> J): (g: GraphOut<J>)
    ensures |g.nodes| == |nodes| && |g.edges| == |edges|
  {
    GraphOut(seq(|nodes|, i requires 0 <= i < |nodes| => NodeBack(nodes[i], i, number, read)),
             seq(|edges|, i requires 0 <= i < |edges| => EdgeBack(edges[i])),
             seq(|edges|, i requires 0 <= i < |edges| => edges[i].source),
             seq(|edges|, i requires 0 <= i < |edges| => edges[i].target))
  }

  /** The first `n` rows of the two tables are the same. */
  ghost predicate SameRows(t: Table, u: Table, n: nat)
    requires t.Rectangular() && u.Rectangular() && n <= |t.rowType| <= |u.rowType|
  {
    forall i :: 0 <= i < n ==> SameRow(t, u, i)
  }

  ghost predicate SameRow(t: Table, u: Table, i: nat)
    requires t.Rectangular() && u.Rectangular() && i < |t.rowType| <= |u.rowType|
  {
    t.rowType[i] == u.rowType[i] &&
    t.nodeX[i] == u.nodeX[i] && t.nodeY[i] == u.nodeY[i] && t.nodeState[i] == u.nodeState[i] &&
    t.nodeLabel[i] == u.nodeLabel[i] && t.nodeKind[i] == u.nodeKind[i] && t.nodeSize[i] == u.nodeSize[i] &&
    t.nodeDetails[i] == u.nodeDetails[i] && t.edgeSource[i] == u.edgeSource[i] && t.edgeTarget[i] == u.edgeTarget[i] &&
    t.edgeWeight[i] == u.edgeWeight[i] && t.edgeLabel[i] == u.edgeLabel[i] && t.edgeKind[i] == u.edgeKind[i]
  }

  lemma {:induction false} SameRowsDecode<J>(t: Table, u: Table, n: nat, number: nat -> string,
                                             read: Option<string> -> J)
    requires t.Rectangular() && u.Rectangular() && n <= |t.rowType| <= |u.rowType| && SameRows(t, u, n)
    ensures DecodedTo(u, n, number, read) == DecodedTo(t, n, number, read)
  {
    if n > 0 {
      SameRowsDecode(t, u, n - 1, number, read);
      assert SameRow(t, u, n - 1);
    }
  }

  function WithNode<J>(g: GraphOut<J>, node: WireNode, number: nat -> string, read: Option<string> -> J): GraphOut<J> {
    g.(nodes := g.nodes + [NodeBack(node, |g.nodes|, number, read)])
  }

  function WithEdge<J>(g: GraphOut<J>, edge: WireEdge): GraphOut<J> {
    g.(edges := g.edges + [EdgeBack(edge)],
       edgeSourceIndex := g.edgeSourceIndex + [edge.source], edgeTargetIndex := g.edgeTargetIndex + [edge.target])
  }

  lemma {:induction false} PushNodeDecodes<J>(t: Table, node: WireNode, number: nat -> string,
                                              read: Option<string> -> J)
    requires t.Rectangular()
    ensures Decoded(t.PushNode(node), number, read) == WithNode(Decoded(t, number, read), node, number, read)
  {
    var u, n := t.PushNode(node), |t.rowType|;
    SameRowsDecode(t, u, n, number, read);
    assert NodeFrom(u, n, |Decoded(t, number, read).nodes|, number, read)
        == NodeBack(node, |Decoded(t, number, read).nodes|, number, read);
  }

  lemma {:induction false} PushEdgeDecodes<J>(t: Table, edge: WireEdge, number: nat -> string,
                                              read: Option<string> -> J)
    requires t.Rectangular()
    ensures Decoded(t.PushEdge(edge), number, read) == WithEdge(Decoded(t, number, read), edge)
  {
    var u, n := t.PushEdge(edge), |t.rowType|;
    SameRowsDecode(t, u, n, number, read);
    assert EdgeFrom(u, n) == EdgeBack(edge);
  }

  /** `Expected`, one row after another. */
  function NodesBack<J>(nodes: seq<WireNode>, n: nat, number: nat -> string, read: Option<string> -> J): GraphOut<J>
    requires n <= |nodes|
  {
    if n == 0 then GraphOut([], [], [], [])
    else WithNode(NodesBack(nodes, n - 1, number, read), nodes[n - 1], number, read)
  }

  function RowsBack<J>(nodes: seq<WireNode>, edges: seq<WireEdge>, m: nat, number: nat -> string,
                       read: Option<string> -> J): GraphOut<J>
    requires m <= |edges|
  {
    if m == 0 then NodesBack(nodes, |nodes|, number, read)
    else WithEdge(RowsBack(nodes, edges, m - 1, number, read), edges[m - 1])
  }

  lemma {:induction false} NodesBackAre<J>(nodes: seq<WireNode>, n: nat, number: nat -> string,
                                           read: Option<string> -> J)
    requires n <= |nodes|
    ensures var g := NodesBack(nodes, n, number, read);
            |g.nodes| == n && (forall i :: 0 <= i < n ==> g.nodes[i] == NodeBack(nodes[i], i, number, read)) &&
            g.edges == [] && g.edgeSourceIndex == [] && g.edgeTargetIndex == []
  {
    if n > 0 {
      NodesBackAre(nodes, n - 1, number, read);
    }
  }

  lemma {:induction false} NodeRowsDecode<J>(nodes: seq<WireNode>, number: nat -> string, read: Option<string> -> J)
    ensures Decoded(NodeRows(nodes, |nodes|), number, read) == NodesBack(nodes, |nodes|, number, read)
  {
    var t, g := NO_ROWS, NodesBack(nodes, 0, number, read);
    for n := 0 to |nodes|
      invariant t == NodeRows(nodes, n) && g == NodesBack(nodes, n, number, read)
      invariant Decoded(t, number, read) == g
    {
      PushNodeDecodes(t, nodes[n], number, read);
      t, g := t.PushNode(nodes[n]), WithNode(g, nodes[n], number, read);
    }
  }

  lemma {:induction false} RowsDecode<J>(nodes: seq<WireNode>, edges: seq<WireEdge>, number: nat -> string,
                                         read: Option<string> -> J)
    ensures Decoded(Rows(nodes, edges, |edges|), number, read) == RowsBack(nodes, edges, |edges|, number, read)
  {
    NodeRowsDecode(nodes, number, read);
    var t, g := Rows(nodes, edges, 0), RowsBack(nodes, edges, 0, number, read);
    for m := 0 to |edges|
      invariant t == Rows(nodes, edges, m) && g == RowsBack(nodes, edges, m, number, read)
      invariant Decoded(t, number, read) == g
    {
      PushEdgeDecodes(t, edges[m], number, read);
      t, g := t.PushEdge(edges[m]), WithEdge(g, edges[m]);
    }
  }

  /** The edges of a graph, and its two index arrays, are those of the first `m` rows for edges. */
  ghost predicate HasEdges<J>(g: GraphOut<J>, edges: seq<WireEdge>, m: nat)
    requires m <= |edges|
  {
    |g.edges| == |g.edgeSourceIndex| == |g.edgeTargetIndex| == m &&
    (forall i :: 0 <= i < m ==> g.edges[i] == EdgeBack(edges[i])) &&
    (forall i :: 0 <= i < m ==> g.edgeSourceIndex[i] == edges[i].source) &&
    (forall i :: 0 <= i < m ==> g.edgeTargetIndex[i] == edges[i].target)
  }

  lemma {:induction false} WithEdgeHasEdges<J>(g: GraphOut<J>, edges: seq<WireEdge>, m: nat)
    requires m < |edges| && HasEdges(g, edges, m)
    ensures HasEdges(WithEdge(g, edges[m]), edges, m + 1) && WithEdge(g, edges[m]).nodes == g.nodes
  {
  }

  lemma {:induction false} RowsHaveEdges<J>(nodes: seq<WireNode>, edges: seq<WireEdge>, start: GraphOut<J>,
                                            number: nat -> string, read: Option<string> -> J)
    requires start == RowsBack(nodes, edges, 0, number, read) && HasEdges(start, edges, 0)
    ensures RowsBack(nodes, edges, |edges|, number, read).nodes == start.nodes
    ensures HasEdges(RowsBack(nodes, edges, |edges|, number, read), edges, |edges|)
  {
    var g := start;
    for m := 0 to |edges|
      invariant g == RowsBack(nodes, edges, m, number, read)
      invariant g.nodes == start.nodes && HasEdges(g, edges, m)
    {
      WithEdgeHasEdges(g, edges, m);
      g := WithEdge(g, edges[m]);
    }
  }

  lemma {:induction false} HasAll<J>(nodes: seq<WireNode>, edges: seq<WireEdge>, g: GraphOut<J>, number: nat -> string,
                                     read: Option<string> -> J)
    requires |g.nodes| == |nodes| && forall i :: 0 <= i < |nodes| ==> g.nodes[i] == NodeBack(nodes[i], i, number, read)
    requires HasEdges(g, edges, |edges|)
    ensures g == Expected(nodes, edges, number, read)
  {
    var e := Expected(nodes, edges, number, read);
    assert g.nodes == e.nodes && g.edges == e.edges;
    assert g.edgeSourceIndex == e.edgeSourceIndex && g.edgeTargetIndex == e.edgeTargetIndex;
  }

  lemma {:induction false} RowsBackAreExpected<J>(nodes: seq<WireNode>, edges: seq<WireEdge>, number: nat -> string,
                                                  read: Option<string> -> J)
    ensures RowsBack(nodes, edges, |edges|, number, read) == Expected(nodes, edges, number, read)
  {
    NodesBackAre(nodes, |nodes|, number, read);
    RowsHaveEdges(nodes, edges, RowsBack(nodes, edges, 0, number, read), number, read);
    HasAll(nodes, edges, RowsBack(nodes, edges, |edges|, number, read), number, read);
  }

  /** Main result: decoding an encoded snapshot gives the nodes and edges back in order, up to rounding and the
      decoder's defaults. */
  lemma {:induction false} RoundTrip<J>(nodes: seq<WireNode>, edges: seq<WireEdge>, single: real -> real,
                                        number: nat -> string, read: Option<string> -> J)
    ensures Decoded(Encoded(nodes, edges, single), number, read) ==
            Expected(Rounded(nodes, single), edges, number, read)
  {
    var rounded := Rounded(nodes, single);
    RowsDecode(rounded, edges, number, read);
    RowsBackAreExpected(rounded, edges, number, read);
  }

  /** What rounding to 32 bits does: it keeps what is rounded, and zero and twelve are. */
  ghost predicate Rounding(single: real -> real) {
    single(0.0) == 0.0 && single(12.0) == 12.0 && forall v :: single(single(v)) == single(v)
  }

  /** The node has no value that the encoder rounds or the decoder takes for a missing one. */
  predicate NodePlain(n: WireNode, single: real -> real) {
    n.state != 0 && n.caption != "" && n.kind != "" && n.size != 0.0 && RoundedNode(n, single) == n
  }

  predicate EdgePlain(e: WireEdge) {
    e.weight != 0 && e.kind != ""
  }

  ghost predicate NodeKept<J>(n: WireNode, out: NodeOut<J>, read: Option<string> -> J) {
    out.x == n.x && out.y == n.y && out.state == n.state as nat && out.caption == n.caption && out.kind == n.kind &&
    out.size == n.size && out.details == read(Some(n.details))
  }

  ghost predicate EdgeKeptWhole(e: WireEdge, out: EdgeOut) {
    out == EdgeOut(e.source as nat, e.target as nat, e.weight as nat, e.relation, e.kind)
  }

  ghost predicate KeptWhole<J>(nodes: seq<WireNode>, edges: seq<WireEdge>, g: GraphOut<J>, read: Option<string> -> J) {
    |g.nodes| == |nodes| && (forall i :: 0 <= i < |nodes| ==> NodeKept(nodes[i], g.nodes[i], read)) &&
    |g.edges| == |edges| && (forall i :: 0 <= i < |edges| ==> EdgeKeptWhole(edges[i], g.edges[i]))
  }

  lemma {:induction false} NodeKeptExactlyWhenPlain<J>(n: WireNode, i: nat, single: real -> real, number: nat -> string,
                                                       read: Option<string> -> J)
    requires Rounding(single)
    ensures NodeKept(n, NodeBack(RoundedNode(n, single), i, number, read), read) <==> NodePlain(n, single)
  {
    assert |"node-" + number(i + 1)| >= 5;
  }

  /** Main result: the trip is lossless exactly when no state, size or weight is zero, no label or kind of a
      node or kind of an edge is empty, and coordinates and sizes fit in 32 bits. */
  lemma {:induction false} LosslessExactlyWhenPlain<J>(nodes: seq<WireNode>, edges: seq<WireEdge>, single: real -> real,
                                                       number: nat -> string, read: Option<string> -> J)
    requires Rounding(single)
    ensures KeptWhole(nodes, edges, Decoded(Encoded(nodes, edges, single), number, read), read) <==>
              (forall i :: 0 <= i < |nodes| ==> NodePlain(nodes[i], single)) &&
              (forall i :: 0 <= i < |edges| ==> EdgePlain(edges[i]))
  {
    RoundTrip(nodes, edges, single, number, read);
    var g := Expected(Rounded(nodes, single), edges, number, read);
    forall i | 0 <= i < |nodes| ensures NodeKept(nodes[i], g.nodes[i], read) <==> NodePlain(nodes[i], single) {
      NodeKeptExactlyWhenPlain(nodes[i], i, single, number, read);
    }
    forall i | 0 <= i < |edges| ensures EdgeKeptWhole(edges[i], g.edges[i]) <==> EdgePlain(edges[i]) {
      assert "relationship" != "";
    }
  }

  function NodeRewired<J>(n: NodeOut<J>, write: J -> string): WireNode {
    WireNode(n.x, n.y, ToU8(n.state), n.caption, n.kind, n.size, write(n.details))
  }

  function EdgeRewired(e: EdgeOut): WireEdge {
    WireEdge(ToU32(e.source), ToU32(e.target), ToU32(e.weight), e.relation, e.kind)
  }

  /** The nodes of a decoded graph written back to the wire; `write` renders details. */
  function NodesRewired<J>(g: GraphOut<J>, write: J -> string): (r: seq<WireNode>)
    ensures |r| == |g.nodes| && forall i :: 0 <= i < |r| ==> r[i] == NodeRewired(g.nodes[i], write)
  {
    seq(|g.nodes|, i requires 0 <= i < |g.nodes| => NodeRewired(g.nodes[i], write))
  }

  function EdgesRewired<J>(g: GraphOut<J>): (r: seq<WireEdge>)
    ensures |r| == |g.edges| && forall i :: 0 <= i < |r| ==> r[i] == EdgeRewired(g.edges[i])
  {
    seq(|g.edges|, i requires 0 <= i < |g.edges| => EdgeRewired(g.edges[i]))
  }

  lemma {:induction false} NodeBackTwice<J(!new)>(node: WireNode, i: nat, single: real -> real,
                                                  number: nat -> string, read: Option<string> -> J,
                                                  write: J -> string)
    requires Rounding(single) && forall j :: read(Some(write(j))) == j
    ensures var once := NodeBack(RoundedNode(node, single), i, number, read);
            NodeBack(RoundedNode(NodeRewired(once, write), single), i, number, read) == once
  {
    assert |"node-" + number(i + 1)| >= 5;
  }

  lemma {:induction false} ExpectedTwice<J(!new)>(nodes: seq<WireNode>, edges: seq<WireEdge>, g: GraphOut<J>,
                                                  single: real -> real, number: nat -> string,
                                                  read: Option<string> -> J, write: J -> string)
    requires Rounding(single) && forall j :: read(Some(write(j))) == j
    requires g == Expected(Rounded(nodes, single), edges, number, read)
    ensures Expected(Rounded(NodesRewired(g, write), single), EdgesRewired(g), number, read) == g
  {
    var h := Expected(Rounded(NodesRewired(g, write), single), EdgesRewired(g), number, read);
    forall i | 0 <= i < |nodes| ensures h.nodes[i] == g.nodes[i] {
      NodeBackTwice(nodes[i], i, single, number, read, write);
    }
    forall i | 0 <= i < |edges| ensures h.edges[i] == g.edges[i] {
      assert EdgeBack(EdgeRewired(EdgeBack(edges[i]))) == EdgeBack(edges[i]);
    }
  }

  /** Main result: a second trip changes nothing, provided details survive being written and read. */
  lemma {:induction false} SecondTripIsIdentity<J(!new)>(nodes: seq<WireNode>, edges: seq<WireEdge>,
                                                         single: real -> real, number: nat -> string,
                                                         read: Option<string> -> J, write: J -> string)
    requires Rounding(single) && forall j :: read(Some(write(j))) == j
    ensures var g := Decoded(Encoded(nodes, edges, single), number, read);
            Decoded(Encoded(NodesRewired(g, write), EdgesRewired(g), single), number, read) == g
  {
    var g := Decoded(Encoded(nodes, edges, single), number, read);
    RoundTrip(nodes, edges, single, number, read);
    RoundTrip(NodesRewired(g, write), EdgesRewired(g), single, number, read);
    ExpectedTwice(nodes, edges, g, single, number, read, write);
  }

  // ----- the decoded graph in the rendering pipeline

  /** The decoded graph as the renderer takes it; `idOf` and `clustered` read a node's details. */
  function Rendered<J>(g: GraphOut<J>, idOf: J -> string, clustered: J -> bool): Graph {
    Graph(seq(|g.nodes|, i requires 0 <= i < |g.nodes| => RenderedNode(g.nodes[i], idOf, clustered)),
          seq(|g.edges|, i requires 0 <= i < |g.edges| => RenderedEdge(g.edges[i])))
  }

  function RenderedNode<J>(n: NodeOut<J>, idOf: J -> string, clustered: J -> bool): Node {
    Node(n.index, None, NodeData(n.kind, idOf(n.details), clustered(n.details), n.state, n.caption))
  }

  function RenderedEdge(e: EdgeOut): Edge {
    Edge(e.source, e.target, e.kind, e.relation, e.weight)
  }

  /** Every decoded snapshot, whatever its rows, is a graph that rendering can start from. */
  lemma {:induction false} RenderedIsDecoded<J>(t: Table, number: nat -> string, read: Option<string> -> J,
                                                idOf: J -> string, clustered: J -> bool)
    requires t.Rectangular()
    ensures MaskTracking.IsDecoded(Rendered(Decoded(t, number, read), idOf, clustered))
  {
    DecodedIsDense(t, |t.rowType|, number, read);
  }

  function States<J>(g: GraphOut<J>): seq<nat> {
    seq(|g.nodes|, i requires 0 <= i < |g.nodes| => g.nodes[i].state)
  }

  /** Main result: for every snapshot and any steps, each node finds in the mask of the decoded states the bit
      for its own state. */
  lemma {:induction false} DecodedMaskBitIsOwnState<J>(t: Table, number: nat -> string, read: Option<string> -> J,
                                                       idOf: J -> string, clustered: J -> bool,
                                                       steps: seq<MaskTracking.Step>, filters: StateMask.Filters,
                                                       engineRuns: bool, i: nat)
    requires t.Rectangular()
    requires i < |MaskTracking.Run(Rendered(Decoded(t, number, read), idOf, clustered), steps).nodes|
    ensures var g := Decoded(t, number, read);
            var node := MaskTracking.Run(Rendered(g, idOf, clustered), steps).nodes[i];
            var mask := StateMask.VisibilityMask(States(g), filters, engineRuns);
            MaskIndex(node) < |mask| &&
            (mask[MaskIndex(node)] == 1 <==> StateMask.On(filters, StateMask.SwitchName(ToU8(node.data.state))))
  {
    var g := Decoded(t, number, read);
    var root := Rendered(g, idOf, clustered);
    RenderedIsDecoded(t, number, read, idOf, clustered);
    MaskTracking.MaskBitIsOwnState(root, steps, filters, engineRuns, i);
    assert MaskTracking.States(root) == States(g);
  }

  /** Main result: the edges of a decoded snapshot all end at its nodes, which is what keeps their ends
      through any steps, exactly when each was written with endpoints below the number of nodes. */
  lemma {:induction false} DecodedInRangeExactlyWhen<J>(nodes: seq<WireNode>, edges: seq<WireEdge>,
                                                        single: real -> real, number: nat -> string,
                                                        read: Option<string> -> J, idOf: J -> string,
                                                        clustered: J -> bool)
    ensures InRange(Rendered(Decoded(Encoded(nodes, edges, single), number, read), idOf, clustered)) <==>
              forall i :: 0 <= i < |edges| ==> edges[i].source as nat < |nodes| && edges[i].target as nat < |nodes|
  {
    RoundTrip(nodes, edges, single, number, read);
    var g := Rendered(Expected(Rounded(nodes, single), edges, number, read), idOf, clustered);
    assert |g.nodes| == |nodes| && |g.edges| == |edges|;
    forall i | 0 <= i < |edges|
      ensures g.edges[i].source == edges[i].source as int && g.edges[i].target == edges[i].target as int
      ensures g.edges[i] in g.edges
    {
    }
  }

  /** Main result: the "root_cause" switch has no effect on any decoded snapshot, because state 0 never
      comes through. */
  lemma {:induction false} RootCauseSwitchIsDead<J>(nodes: seq<WireNode>, edges: seq<WireEdge>, single: real -> real,
                                                    number: nat -> string, read: Option<string> -> J,
                                                    filters: StateMask.Filters, engineRuns: bool)
    ensures var states := States(Decoded(Encoded(nodes, edges, single), number, read));
            var on := StateMask.VisibilityMask(states, filters["root_cause" := true], engineRuns);
            var off := StateMask.VisibilityMask(states, filters["root_cause" := false], engineRuns);
            on == off
  {
    RoundTrip(nodes, edges, single, number, read);
    var states := States(Expected(Rounded(nodes, single), edges, number, read));
    forall i | 0 <= i < |states| ensures ToU8(states[i]) != 0 {
      assert states[i] == if nodes[i].state == 0 then 3 else nodes[i].state as nat;
    }
    var on := StateMask.VisibilityMask(states, filters["root_cause" := true], engineRuns);
    var off := StateMask.VisibilityMask(states, filters["root_cause" := false], engineRuns);
    forall i | 0 <= i < |states| ensures on[i] == off[i] {
      assert ToU8(states[i]) != 0;
    }
  }
}
