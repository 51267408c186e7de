/** Clustering the nodes of a graph by the cell of a square grid they lie in. */
module GridClusters {
  import opened Options
  import opened Subgraph
  import opened Text
  import opened Contraction
  import opened Tally

  const CELL := 180.0

  datatype Placed = Placed(x: real, y: real, state: nat, kind: string, caption: string)

  /** How many nodes, and their coordinates added up. */
  datatype Mass = Mass(count: nat, x: real, y: real) {
    function Plus(m: Mass): Mass {
      Mass(count + m.count, x + m.x, y + m.y)
    }
  }

  const NO_MASS := Mass(0, 0.0, 0.0)

  function NodeMass(node: Placed): Mass {
    Mass(1, node.x, node.y)
  }

  /** What else a cluster records about its nodes. */
  datatype Profile = Profile(stateCounts: map<nat, nat>, kindCounts: seq<Count>, kind: string, sample: Option<Placed>) {
    function With(node: Placed): Profile {
      var kindCounts' := AddTo(kindCounts, node.kind, 1);
      Profile(stateCounts[node.state := StateCount(stateCounts, node.state) + 1],
              kindCounts', Leader(kindCounts', "other"),
              if sample.None? then Some(node) else sample)
    }
  }

  const NO_PROFILE := Profile(map[0 := 0, 1 := 0, 2 := 0, 3 := 0], [], "other", None)

  datatype Cluster = Cluster(id: string, mass: Mass, profile: Profile)

  function EmptyCluster(id: string): Cluster {
    Cluster(id, NO_MASS, NO_PROFILE)
  }

  function StateCount(counts: map<nat, nat>, state: nat): nat {
    if state in counts then counts[state] else 0
  }

  function Merged(c: Cluster, node: Placed): Cluster {
    Cluster(c.id, c.mass.Plus(NodeMass(node)), c.profile.With(node))
  }

  /** A cluster while it is built up: the source's mutable record. */
  class ClusterRecord {
    const id: string
    var sumX: real
    var sumY: real
    var count: nat
    var stateCounts: map<nat, nat>
    var kindCounts: seq<Count>
    var kind: string
    var sample: Option<Placed>

    function Value(): Cluster
      reads this
    {
      Cluster(id, Mass(count, sumX, sumY), Profile(stateCounts, kindCounts, kind, sample))
    }

    constructor (id: string)
      ensures this.id == id && Value() == EmptyCluster(id)
    {
      this.id := id;
      sumX, sumY, count := 0.0, 0.0, 0;
      stateCounts := map[0 := 0, 1 := 0, 2 := 0, 3 := 0];
      kindCounts, kind, sample := [], "other", None;
    }

    method MergeNode(node: Placed)
      modifies this
      ensures Value() == Merged(old(Value()), node)
    {
      sumX := sumX + node.x;
      sumY := sumY + node.y;
      count := count + 1;
      stateCounts := stateCounts[node.state := StateCount(stateCounts, node.state) + 1];
      kindCounts := AddTo(kindCounts, node.kind, 1);
      kind := Leader(kindCounts, "other");
      if sample.None? {
        sample := Some(node);
      }
    }
  }

  // ----- grouping by key, in order of first appearance

  function FindFrom(clusters: seq<Cluster>, id: string, from: nat): (p: nat)
    requires from <= |clusters|
    ensures from <= p <= |clusters|
    ensures p < |clusters| ==> clusters[p].id == id
    ensures forall i :: from <= i < p ==> clusters[i].id != id
    decreases |clusters| - from
  {
    if from == |clusters| || clusters[from].id == id then from else FindFrom(clusters, id, from + 1)
  }

  /** The place of the cluster with an id, or the end. */
  function FindCluster(clusters: seq<Cluster>, id: string): (p: nat)
    ensures p <= |clusters|
    ensures p < |clusters| ==> clusters[p].id == id
    ensures forall i :: 0 <= i < p ==> clusters[i].id != id
  {
    FindFrom(clusters, id, 0)
  }

  lemma {:induction false} SamePlace(clusters: seq<Cluster>, p: nat, key: string)
    requires p <= |clusters| && (p < |clusters| ==> clusters[p].id == key)
    requires forall i :: 0 <= i < p ==> clusters[i].id != key
    ensures FindCluster(clusters, key) == p
  {
    var q := FindCluster(clusters, key);
    assert !(q < p) && !(p < q);
  }

  function AddNode(clusters: seq<Cluster>, node: Placed, key: string): seq<Cluster> {
    var p := FindCluster(clusters, key);
    if p < |clusters| then clusters[p := Merged(clusters[p], node)]
    else clusters + [Merged(EmptyCluster(key), node)]
  }

  /** The first `n` nodes, one after another. */
  lemma {:induction false} GroupStep(nodes: seq<Placed>, keys: seq<string>, n: nat)
    requires n < |nodes| == |keys|
    ensures GroupTo(nodes, keys, n + 1) == AddNode(GroupTo(nodes, keys, n), nodes[n], keys[n])
  {
  }

  /** The clusters of the first `n` nodes, for any assignment of keys. */
  function GroupTo(nodes: seq<Placed>, keys: seq<string>, n: nat): seq<Cluster>
    requires n <= |nodes| == |keys|
  {
    if n == 0 then [] else AddNode(GroupTo(nodes, keys, n - 1), nodes[n - 1], keys[n - 1])
  }

  function Group(nodes: seq<Placed>, keys: seq<string>): seq<Cluster>
    requires |nodes| == |keys|
  {
    GroupTo(nodes, keys, |nodes|)
  }

  /** The cell of a coordinate: Math.floor(v / cell). */
  function CellOf(v: real): int {
    (v / CELL).Floor
  }

  function CellKey(gx: int, gy: int): string {
    "grid:" + IntText(gx) + ":" + IntText(gy)
  }

  function GridKey(node: Placed): string {
    CellKey(CellOf(node.x), CellOf(node.y))
  }

  function GridKeys(nodes: seq<Placed>): (r: seq<string>)
    ensures |r| == |nodes| && forall i :: 0 <= i < |r| ==> r[i] == GridKey(nodes[i])
  {
    seq(|nodes|, i requires 0 <= i < |nodes| => GridKey(nodes[i]))
  }

  function Values(records: seq<ClusterRecord>): (r: seq<Cluster>)
    reads records
    ensures |r| == |records| && forall i :: 0 <= i < |r| ==> r[i] == records[i].Value()
  {
    seq(|records|, i requires 0 <= i < |records| reads records => records[i].Value())
  }

  ghost predicate DistinctRecords(records: seq<ClusterRecord>) {
    forall j, k :: 0 <= j < k < |records| ==> records[j] != records[k]
  }

  /** Looks the key up, makes a record for it if there is none, and merges the node into the record. */
  method MergeInto(records: seq<ClusterRecord>, node: Placed, key: string) returns (records': seq<ClusterRecord>)
    requires DistinctRecords(records)
    modifies records
    ensures DistinctRecords(records')
    ensures |records'| >= |records| && forall i :: 0 <= i < |records| ==> records'[i] == records[i]
    ensures forall i :: |records| <= i < |records'| ==> fresh(records'[i])
    ensures Values(records') == AddNode(old(Values(records)), node, key)
  {
    var before := Values(records);
    var p := FindCluster(before, key);
    if p < |records| {
      records' := records;
      records[p].MergeNode(node);
      forall i | 0 <= i < |records| ensures records[i].Value() == before[p := Merged(before[p], node)][i] {
        assert i != p ==> records[i] != records[p];
      }
      assert Values(records') == before[p := Merged(before[p], node)];
    } else {
      var existing := new ClusterRecord(key);
      existing.MergeNode(node);
      records' := records + [existing];
      assert forall i :: 0 <= i < |records| ==> records'[i].Value() == before[i];
      assert Values(records') == before + [Merged(EmptyCluster(key), node)];
    }
  }

  /** The loop over the nodes; the Map keeps its records in insertion order. */
  method BuildClusters(nodes: seq<Placed>, keys: seq<string>) returns (records: seq<ClusterRecord>)
    requires |keys| == |nodes|
    ensures forall i :: 0 <= i < |records| ==> fresh(records[i])
    ensures Values(records) == Group(nodes, keys)
  {
    records := [];
    for i := 0 to |nodes|
      invariant DistinctRecords(records) && forall i :: 0 <= i < |records| ==> fresh(records[i])
      invariant Values(records) == GroupTo(nodes, keys, i)
    {
      GroupStep(nodes, keys, i);
      records := MergeInto(records, nodes[i], keys[i]);
    }
  }

  // ----- from clusters to nodes

  datatype ClusterNode = ClusterNode(id: string, index: nat, x: real, y: real, state: nat, kind: string,
                                     size: real, caption: string, count: nat)

  function Commoner(counts: map<nat, nat>, a: nat, b: nat): nat {
    if StateCount(counts, b) > StateCount(counts, a) then b else a
  }

  /** The first of the states 0 to 3 in a stable sort by descending count. */
  function DominantState(counts: map<nat, nat>): nat {
    Commoner(counts, Commoner(counts, Commoner(counts, 0, 1), 2), 3)
  }

  function KindDisplayName(kind: string): string {
    if kind == "actor" then "Actor" else if kind == "channel" then "Channel" else if kind == "message" then "Message"
    else "Graph"
  }

  function Caption(p: Profile): string {
    if p.sample.Some? && p.sample.value.caption != "" then p.sample.value.caption
    else KindDisplayName(p.kind) + " cluster"
  }

  /** A sum of coordinates divided by max(1, count). */
  function Average(sum: real, count: nat): real {
    if count > 1 then sum / count as real else sum / 1.0
  }

  function SizeFor(count: nat): real {
    var grown := 12.0 + (count as real - 1.0) * 0.75;
    if grown < 34.0 then grown else 34.0
  }

  function ToNode(c: Cluster, index: nat): ClusterNode {
    ClusterNode(c.id, index, Average(c.mass.x, c.mass.count), Average(c.mass.y, c.mass.count),
                DominantState(c.profile.stateCounts), c.profile.kind, SizeFor(c.mass.count), Caption(c.profile),
                c.mass.count)
  }

  function ClusterNodes(clusters: seq<Cluster>): (r: seq<ClusterNode>)
    ensures |r| == |clusters| && forall i :: 0 <= i < |r| ==> r[i] == ToNode(clusters[i], i)
  {
    seq(|clusters|, i requires 0 <= i < |clusters| => ToNode(clusters[i], i))
  }

  function IndexTo(clusters: seq<Cluster>, n: nat): map<string, nat>
    requires n <= |clusters|
  {
    if n == 0 then map[] else IndexTo(clusters, n - 1)[clusters[n - 1].id := n - 1]
  }

  method LayOut(clusters: seq<Cluster>) returns (clusterNodes: seq<ClusterNode>, indexByCluster: map<string, nat>)
    ensures clusterNodes == ClusterNodes(clusters) && indexByCluster == IndexTo(clusters, |clusters|)
  {
    clusterNodes := ClusterNodes(clusters);
    indexByCluster := map[];
    for i := 0 to |clusterNodes|
      invariant indexByCluster == IndexTo(clusters, i)
    {
      indexByCluster := indexByCluster[clusterNodes[i].id := i];
    }
  }

  method ReclusterByGrid(nodes: seq<Placed>, edges: seq<Edge>)
    returns (clusterNodes: seq<ClusterNode>, clusterEdges: seq<ClusterEdge>)
    ensures clusterNodes == ClusterNodes(Group(nodes, GridKeys(nodes)))
    ensures var clusters := Group(nodes, GridKeys(nodes));
            clusterEdges == Located(Contracted(edges, GridKeys(nodes), IndexTo(clusters, |clusters|)))
  {
    var clusterByNode := GridKeys(nodes);
    var records := BuildClusters(nodes, clusterByNode);
    var indexByCluster;
    clusterNodes, indexByCluster := LayOut(Values(records));
    clusterEdges := ClusterEdges(edges, clusterByNode, indexByCluster);
  }

  // ----- clustering is a partition that conserves mass

  function TotalMass(clusters: seq<Cluster>): Mass {
    if clusters == [] then NO_MASS else clusters[0].mass.Plus(TotalMass(clusters[1..]))
  }

  function MassOf(nodes: seq<Placed>, n: nat): Mass
    requires n <= |nodes|
  {
    if n == 0 then NO_MASS else MassOf(nodes, n - 1).Plus(NodeMass(nodes[n - 1]))
  }

  /** The mass of the nodes among the first `n` with the given key. */
  function MassFor(nodes: seq<Placed>, keys: seq<string>, key: string, n: nat): Mass
    requires n <= |nodes| == |keys|
  {
    if n == 0 then NO_MASS
    else if keys[n - 1] == key then MassFor(nodes, keys, key, n - 1).Plus(NodeMass(nodes[n - 1]))
    else MassFor(nodes, keys, key, n - 1)
  }

  lemma {:induction false} TotalMassUpdate(clusters: seq<Cluster>, p: nat, c: Cluster, more: Mass)
    requires p < |clusters| && c.mass == clusters[p].mass.Plus(more)
    ensures TotalMass(clusters[p := c]) == TotalMass(clusters).Plus(more)
  {
    if p == 0 {
      assert clusters[p := c][1..] == clusters[1..];
    } else {
      assert clusters[p := c][1..] == clusters[1..][p - 1 := c];
      TotalMassUpdate(clusters[1..], p - 1, c, more);
    }
  }

  lemma {:induction false} TotalMassAppend(clusters: seq<Cluster>, c: Cluster)
    ensures TotalMass(clusters + [c]) == TotalMass(clusters).Plus(c.mass)
  {
    if clusters == [] {
      assert clusters + [c] == [c];
    } else {
      assert (clusters + [c])[1..] == clusters[1..] + [c];
      TotalMassAppend(clusters[1..], c);
    }
  }

  lemma {:induction false} AddNodeMass(clusters: seq<Cluster>, node: Placed, key: string)
    ensures TotalMass(AddNode(clusters, node, key)) == TotalMass(clusters).Plus(NodeMass(node))
  {
    var p := FindCluster(clusters, key);
    if p < |clusters| {
      TotalMassUpdate(clusters, p, Merged(clusters[p], node), NodeMass(node));
    } else {
      TotalMassAppend(clusters, Merged(EmptyCluster(key), node));
    }
  }

  ghost predicate DistinctIds(clusters: seq<Cluster>) {
    forall i, j :: 0 <= i < j < |clusters| ==> clusters[i].id != clusters[j].id
  }

  lemma {:induction false} AddNodeDistinct(clusters: seq<Cluster>, node: Placed, key: string)
    requires DistinctIds(clusters)
    ensures DistinctIds(AddNode(clusters, node, key))
  {
  }

  lemma {:induction false} GroupDistinct(nodes: seq<Placed>, keys: seq<string>, n: nat)
    requires n <= |nodes| == |keys|
    ensures DistinctIds(GroupTo(nodes, keys, n))
  {
    if n > 0 {
      GroupDistinct(nodes, keys, n - 1);
      AddNodeDistinct(GroupTo(nodes, keys, n - 1), nodes[n - 1], keys[n - 1]);
    }
  }

  function MassAt(clusters: seq<Cluster>, key: string): Mass {
    var p := FindCluster(clusters, key);
    if p < |clusters| then clusters[p].mass else NO_MASS
  }

  lemma {:induction false} AddNodeMassAt(clusters: seq<Cluster>, node: Placed, key: string, sought: string)
    ensures MassAt(AddNode(clusters, node, key), sought)
         == if key == sought then MassAt(clusters, sought).Plus(NodeMass(node)) else MassAt(clusters, sought)
  {
    var after := AddNode(clusters, node, key);
    var p := FindCluster(clusters, sought);
    if key == sought || p < |clusters| {
      SamePlace(after, p, sought);
    } else {
      SamePlace(after, |after|, sought);
    }
  }

  lemma {:induction false} GroupMassAt(nodes: seq<Placed>, keys: seq<string>, key: string, n: nat)
    requires n <= |nodes| == |keys|
    ensures MassAt(GroupTo(nodes, keys, n), key) == MassFor(nodes, keys, key, n)
  {
    if n > 0 {
      var before := GroupTo(nodes, keys, n - 1);
      GroupMassAt(nodes, keys, key, n - 1);
      AddNodeMassAt(before, nodes[n - 1], keys[n - 1], key);
      assert GroupTo(nodes, keys, n) == AddNode(before, nodes[n - 1], keys[n - 1]);
    }
  }

  predicate HasCluster(clusters: seq<Cluster>, key: string) {
    exists p :: 0 <= p < |clusters| && clusters[p].id == key
  }

  lemma {:induction false} AddNodeHas(clusters: seq<Cluster>, node: Placed, key: string, sought: string)
    ensures HasCluster(AddNode(clusters, node, key), sought) <==> key == sought || HasCluster(clusters, sought)
  {
    var after := AddNode(clusters, node, key);
    var q := FindCluster(clusters, key);
    assert after[q].id == key;
    assert forall p :: 0 <= p < |clusters| ==> after[p].id == clusters[p].id;
  }

  lemma {:induction false} GroupHas(nodes: seq<Placed>, keys: seq<string>, key: string, n: nat, clusters: seq<Cluster>)
    requires n <= |nodes| == |keys| && clusters == GroupTo(nodes, keys, n)
    ensures HasCluster(clusters, key) <==> exists i :: 0 <= i < n && keys[i] == key
  {
    if n > 0 {
      var before := GroupTo(nodes, keys, n - 1);
      GroupHas(nodes, keys, key, n - 1, before);
      GroupStep(nodes, keys, n - 1);
      AddNodeHas(before, nodes[n - 1], keys[n - 1], key);
    }
  }

  /** Main result: clustering partitions the nodes. Ids are distinct, the ids are exactly the nodes' keys,
      each cluster has the mass of the nodes with its key, and together they have the mass of all nodes. */
  lemma {:induction false} GroupPartitions(nodes: seq<Placed>, keys: seq<string>)
    requires |nodes| == |keys|
    ensures DistinctIds(Group(nodes, keys)) && TotalMass(Group(nodes, keys)) == MassOf(nodes, |nodes|)
    ensures forall i :: 0 <= i < |keys| ==> HasCluster(Group(nodes, keys), keys[i])
    ensures forall p :: 0 <= p < |Group(nodes, keys)| ==>
              Group(nodes, keys)[p].mass == MassFor(nodes, keys, Group(nodes, keys)[p].id, |nodes|) &&
              Group(nodes, keys)[p].id in keys
  {
    var clusters := Group(nodes, keys);
    GroupDistinct(nodes, keys, |nodes|);
    GroupMass(nodes, keys, |nodes|);
    forall i | 0 <= i < |keys| ensures HasCluster(clusters, keys[i]) {
      GroupHas(nodes, keys, keys[i], |nodes|, clusters);
    }
    forall p | 0 <= p < |clusters|
      ensures clusters[p].mass == MassFor(nodes, keys, clusters[p].id, |nodes|) && clusters[p].id in keys
    {
      GroupMassAt(nodes, keys, clusters[p].id, |nodes|);
      GroupHas(nodes, keys, clusters[p].id, |nodes|, clusters);
      SamePlace(clusters, p, clusters[p].id);
    }
  }

  lemma {:induction false} GroupMass(nodes: seq<Placed>, keys: seq<string>, n: nat)
    requires n <= |nodes| == |keys|
    ensures TotalMass(GroupTo(nodes, keys, n)) == MassOf(nodes, n)
  {
    if n > 0 {
      GroupMass(nodes, keys, n - 1);
      AddNodeMass(GroupTo(nodes, keys, n - 1), nodes[n - 1], keys[n - 1]);
    }
  }

  // ----- each centroid lies in its own cell

  lemma {:induction false} CellKeyInjective(gx: int, gy: int, gx': int, gy': int)
    requires CellKey(gx, gy) == CellKey(gx', gy')
    ensures gx == gx' && gy == gy'
  {
    LastCutUnique("grid:" + IntText(gx), IntText(gy), "grid:" + IntText(gx'), IntText(gy'), ':');
    assert ("grid:" + IntText(gx))[5..] == IntText(gx);
    assert ("grid:" + IntText(gx'))[5..] == IntText(gx');
    IntTextInjective(gx, gx');
    IntTextInjective(gy, gy');
  }

  /** A sum of `count` values, all in the cell `g`, lies between `count` times the cell's two borders. */
  predicate SumInCell(sum: real, count: nat, g: int) {
    (g as real * CELL) * count as real <= sum < (g as real * CELL + CELL) * count as real
  }

  lemma {:induction false} SumInCellAdd(sum: real, count: nat, v: real, g: int)
    requires (count == 0 && sum == 0.0) || SumInCell(sum, count, g)
    requires CellOf(v) == g
    ensures SumInCell(sum + v, count + 1, g)
  {
    var lo := g as real * CELL;
    assert lo <= v < lo + CELL;
    assert lo * (count + 1) as real == lo * count as real + lo;
    assert (lo + CELL) * (count + 1) as real == (lo + CELL) * count as real + (lo + CELL);
  }

  /** The average of a cluster's coordinates lies in the cell `g`, and weighs as much as their sum. */
  predicate AverageInCell(sum: real, count: nat, g: int) {
    count > 0 && CellOf(Average(sum, count)) == g && Average(sum, count) * count as real == sum
  }

  lemma {:induction false} CentroidOfSum(sum: real, count: nat, g: int)
    requires count > 0 && SumInCell(sum, count, g)
    ensures AverageInCell(sum, count, g)
  {
    var n, lo := count as real, g as real * CELL;
    var hi := lo + CELL;
    var c := sum / n;
    assert c == Average(sum, count);
    assert c * n == sum;
    if c < lo {
      MulLess(c, lo, n);
    }
    if hi <= c {
      MulLeq(hi, c, n);
    }
    FloorInCell(c, g);
  }

  lemma {:induction false} FloorInCell(c: real, g: int)
    requires g as real * CELL <= c < g as real * CELL + CELL
    ensures CellOf(c) == g
  {
    assert g as real <= c / CELL < g as real + 1.0;
  }

  lemma {:induction false} MulLess(a: real, b: real, n: real)
    requires a < b && n > 0.0
    ensures a * n < b * n
  {
  }

  lemma {:induction false} MulLeq(a: real, b: real, n: real)
    requires a <= b && n > 0.0
    ensures a * n <= b * n
  {
  }

  ghost predicate InCell(c: Cluster, gx: int, gy: int) {
    c.id == CellKey(gx, gy) && c.mass.count > 0 &&
    SumInCell(c.mass.x, c.mass.count, gx) && SumInCell(c.mass.y, c.mass.count, gy)
  }

  /** The cluster's first node tells which cell it is for. */
  ghost predicate InSampleCell(c: Cluster) {
    c.profile.sample.Some? && InCell(c, CellOf(c.profile.sample.value.x), CellOf(c.profile.sample.value.y))
  }

  lemma {:induction false} MergedInCell(c: Cluster, node: Placed)
    requires c == EmptyCluster(GridKey(node)) || (InSampleCell(c) && c.id == GridKey(node))
    ensures InSampleCell(Merged(c, node))
  {
    var gx, gy := CellOf(node.x), CellOf(node.y);
    if InSampleCell(c) {
      var sample := c.profile.sample.value;
      CellKeyInjective(gx, gy, CellOf(sample.x), CellOf(sample.y));
    }
    SumInCellAdd(c.mass.x, c.mass.count, node.x, gx);
    SumInCellAdd(c.mass.y, c.mass.count, node.y, gy);
    assert InCell(Merged(c, node), gx, gy);
  }

  /** Merging the node into a cluster with its key, or into a new one, gives a cluster that is `ok`. */
  ghost predicate MergeGives(ok: Cluster -> bool, node: Placed, key: string) {
    forall c {:trigger Merged(c, node)} :: c == EmptyCluster(key) || (ok(c) && c.id == key) ==> ok(Merged(c, node))
  }

  lemma {:induction false} AddNodeKeeps(clusters: seq<Cluster>, node: Placed, key: string, ok: Cluster -> bool)
    requires forall p :: 0 <= p < |clusters| ==> ok(clusters[p])
    requires MergeGives(ok, node, key)
    ensures forall p :: 0 <= p < |AddNode(clusters, node, key)| ==> ok(AddNode(clusters, node, key)[p])
  {
  }

  /** What holds of a cluster after each merge holds of every cluster. */
  lemma {:induction false} GroupKeeps(nodes: seq<Placed>, keys: seq<string>, ok: Cluster -> bool)
    requires |nodes| == |keys|
    requires forall i :: 0 <= i < |nodes| ==> MergeGives(ok, nodes[i], keys[i])
    ensures forall p :: 0 <= p < |Group(nodes, keys)| ==> ok(Group(nodes, keys)[p])
  {
    var clusters := [];
    for i := 0 to |nodes|
      invariant clusters == GroupTo(nodes, keys, i)
      invariant forall p :: 0 <= p < |clusters| ==> ok(clusters[p])
    {
      AddNodeKeeps(clusters, nodes[i], keys[i], ok);
      clusters := AddNode(clusters, nodes[i], keys[i]);
    }
  }

  lemma {:induction false} GroupInCells(nodes: seq<Placed>, p: nat)
    requires p < |Group(nodes, GridKeys(nodes))|
    ensures InSampleCell(Group(nodes, GridKeys(nodes))[p])
  {
    var ok := (c: Cluster) => InSampleCell(c);
    var keys := GridKeys(nodes);
    forall i | 0 <= i < |nodes| ensures MergeGives(ok, nodes[i], keys[i]) {
      forall c | c == EmptyCluster(keys[i]) || (ok(c) && c.id == keys[i]) ensures ok(Merged(c, nodes[i])) {
        MergedInCell(c, nodes[i]);
      }
    }
    GroupKeeps(nodes, keys, ok);
  }

  /** Main result: every grid cluster is named after a cell, and its centroid lies in that cell. */
  lemma {:induction false} CentroidInOwnCell(nodes: seq<Placed>, p: nat) returns (gx: int, gy: int)
    requires p < |Group(nodes, GridKeys(nodes))|
    ensures var c := Group(nodes, GridKeys(nodes))[p];
            c.id == CellKey(gx, gy) &&
            AverageInCell(c.mass.x, c.mass.count, gx) && AverageInCell(c.mass.y, c.mass.count, gy)
  {
    var c := Group(nodes, GridKeys(nodes))[p];
    GroupInCells(nodes, p);
    gx, gy := CellOf(c.profile.sample.value.x), CellOf(c.profile.sample.value.y);
    CentroidOfSum(c.mass.x, c.mass.count, gx);
    CentroidOfSum(c.mass.y, c.mass.count, gy);
  }

  // ----- the centroids stand for all the nodes

  /** A cluster node's count, and its position weighted by it. */
  function NodeWeight(n: ClusterNode): Mass {
    Mass(n.count, n.count as real * n.x, n.count as real * n.y)
  }

  function NodesMass(nodes: seq<ClusterNode>): Mass {
    if nodes == [] then NO_MASS else NodeWeight(nodes[0]).Plus(NodesMass(nodes[1..]))
  }

  lemma {:induction false} AverageTimesCount(sum: real, count: nat)
    requires count > 0
    ensures count as real * Average(sum, count) == sum
  {
  }

  lemma {:induction false} CentroidWeighsAll(c: Cluster, index: nat)
    requires c.mass.count > 0
    ensures NodeWeight(ToNode(c, index)) == c.mass
  {
    AverageTimesCount(c.mass.x, c.mass.count);
    AverageTimesCount(c.mass.y, c.mass.count);
  }

  lemma {:induction false} NodesMassIsTotal(clusters: seq<Cluster>, nodes: seq<ClusterNode>)
    requires |nodes| == |clusters|
    requires forall i :: 0 <= i < |nodes| ==> NodeWeight(nodes[i]) == clusters[i].mass
    ensures NodesMass(nodes) == TotalMass(clusters)
  {
    if nodes != [] {
      NodesMassIsTotal(clusters[1..], nodes[1..]);
    }
  }

  /** Main result: the counts of the cluster nodes add up to the number of nodes, and their positions,
      weighted by count, to the nodes' coordinates. */
  lemma {:induction false} CentroidsBalance(nodes: seq<Placed>, keys: seq<string>)
    requires |nodes| == |keys|
    ensures NodesMass(ClusterNodes(Group(nodes, keys))) == MassOf(nodes, |nodes|)
    ensures MassOf(nodes, |nodes|).count == |nodes|
  {
    var clusters := Group(nodes, keys);
    GroupKeeps(nodes, keys, (c: Cluster) => c.mass.count > 0);
    forall i | 0 <= i < |clusters| ensures NodeWeight(ClusterNodes(clusters)[i]) == clusters[i].mass {
      CentroidWeighsAll(clusters[i], i);
    }
    NodesMassIsTotal(clusters, ClusterNodes(clusters));
    GroupMass(nodes, keys, |nodes|);
    MassCounts(nodes, |nodes|);
  }

  lemma {:induction false} MassCounts(nodes: seq<Placed>, n: nat)
    requires n <= |nodes|
    ensures MassOf(nodes, n).count == n
  {
    if n > 0 {
      MassCounts(nodes, n - 1);
    }
  }

  // ----- clustering the clusters

  function AsPlaced(nodes: seq<ClusterNode>): (r: seq<Placed>)
    ensures |r| == |nodes|
    ensures forall i :: 0 <= i < |r| ==>
              r[i] == Placed(nodes[i].x, nodes[i].y, nodes[i].state, nodes[i].kind, nodes[i].caption)
  {
    seq(|nodes|, i requires 0 <= i < |nodes| =>
      Placed(nodes[i].x, nodes[i].y, nodes[i].state, nodes[i].kind, nodes[i].caption))
  }

  lemma {:induction false} GroupOfDistinct(nodes: seq<Placed>, keys: seq<string>, n: nat)
    requires n <= |nodes| == |keys|
    requires forall i, j :: 0 <= i < j < |keys| ==> keys[i] != keys[j]
    ensures GroupTo(nodes, keys, n) == Singletons(nodes, keys, n)
  {
    if n > 0 {
      var before := GroupTo(nodes, keys, n - 1);
      GroupOfDistinct(nodes, keys, n - 1);
      SingletonIds(nodes, keys, n - 1);
      SamePlace(before, n - 1, keys[n - 1]);
    }
  }

  /** Each of the first `n` nodes in a cluster of its own. */
  function Singletons(nodes: seq<Placed>, keys: seq<string>, n: nat): (r: seq<Cluster>)
    requires n <= |nodes| == |keys|
    ensures |r| == n
  {
    if n == 0 then [] else Singletons(nodes, keys, n - 1) + [Merged(EmptyCluster(keys[n - 1]), nodes[n - 1])]
  }

  lemma {:induction false} SingletonIds(nodes: seq<Placed>, keys: seq<string>, n: nat)
    requires n <= |nodes| == |keys|
    ensures forall i :: 0 <= i < n ==>
              Singletons(nodes, keys, n)[i].id == keys[i] && Singletons(nodes, keys, n)[i].mass == NodeMass(nodes[i])
  {
    if n > 0 {
      SingletonIds(nodes, keys, n - 1);
    }
  }

  /** Main result: clustering the clusters again merges nothing and moves nothing. */
  lemma {:induction false} ReclusteringIsStable(nodes: seq<Placed>)
    ensures var once := ClusterNodes(Group(nodes, GridKeys(nodes)));
            var twice := ClusterNodes(Group(AsPlaced(once), GridKeys(AsPlaced(once))));
            |twice| == |once| &&
            forall i :: 0 <= i < |once| ==>
              twice[i].id == once[i].id && twice[i].x == once[i].x && twice[i].y == once[i].y && twice[i].count == 1
  {
    var clusters := Group(nodes, GridKeys(nodes));
    var once := ClusterNodes(clusters);
    var placed := AsPlaced(once);
    var keys := GridKeys(placed);
    GroupDistinct(nodes, GridKeys(nodes), |nodes|);
    forall i | 0 <= i < |once| ensures keys[i] == clusters[i].id {
      var gx, gy := CentroidInOwnCell(nodes, i);
    }
    GroupOfDistinct(placed, keys, |placed|);
    SingletonIds(placed, keys, |placed|);
  }

  // ----- the clustered graph as a whole

  lemma {:induction false} IndexIsPlace(clusters: seq<Cluster>, n: nat, name: string)
    requires n <= |clusters| && DistinctIds(clusters)
    ensures name in IndexTo(clusters, n) <==> FindCluster(clusters, name) < n
    ensures name in IndexTo(clusters, n) ==> IndexTo(clusters, n)[name] == FindCluster(clusters, name)
  {
    if n > 0 {
      IndexIsPlace(clusters, n - 1, name);
      SamePlace(clusters, n - 1, clusters[n - 1].id);
    }
  }

  lemma {:induction false} GridKeysBarFree(nodes: seq<Placed>)
    ensures BarFree(GridKeys(nodes))
  {
    forall i | 0 <= i < |nodes| ensures '|' !in GridKeys(nodes)[i] {
      var a, b := IntText(CellOf(nodes[i].x)), IntText(CellOf(nodes[i].y));
      assert GridKeys(nodes)[i] == "grid:" + a + ":" + b;
    }
  }

  /** Main result: the weight stored for two cells and a kind is that of the edges of the kind between them. */
  lemma {:induction false} GridWeightPerPair(nodes: seq<Placed>, edges: seq<Edge>, indexByCluster: map<string, nat>,
                                             left: string, right: string, kind: string)
    requires left in GridKeys(nodes) && right in GridKeys(nodes) && TextLess(left, right)
    ensures WeightAt(Contracted(edges, GridKeys(nodes), indexByCluster), PairKey(left, right, kind))
         == WeightBetween(edges, GridKeys(nodes), left, right, kind, |edges|)
  {
    GridKeysBarFree(nodes);
    forall i | 0 <= i < |nodes| ensures GridKeys(nodes)[i] != "" {
      assert |GridKeys(nodes)[i]| >= |"grid:"|;
    }
    BarFreeWeights(edges, GridKeys(nodes), indexByCluster, left, right, kind);
  }

  /** Main result: grid clustering meets what contraction needs, so the clustered graph keeps the total
      weight between different cells, has no loops, and its edges end at its own nodes. */
  lemma {:induction false} GridContractionConserves(nodes: seq<Placed>, edges: seq<Edge>)
    ensures var clusters := Group(nodes, GridKeys(nodes));
            var r := Located(Contracted(edges, GridKeys(nodes), IndexTo(clusters, |clusters|)));
            WeightSum(r) == CrossingWeight(edges, GridKeys(nodes), |edges|) &&
            forall i :: 0 <= i < |r| ==>
              0 <= r[i].source < |clusters| && 0 <= r[i].target < |clusters| && r[i].source != r[i].target
  {
    var keys := GridKeys(nodes);
    var clusters := Group(nodes, keys);
    var index := IndexTo(clusters, |clusters|);
    GroupPartitions(nodes, keys);
    forall i | 0 <= i < |keys| ensures keys[i] in index {
      assert HasCluster(clusters, keys[i]);
      IndexIsPlace(clusters, |clusters|, keys[i]);
    }
    forall a, b | a in index && b in index && index[a] == index[b] ensures a == b {
      IndexIsPlace(clusters, |clusters|, a);
      IndexIsPlace(clusters, |clusters|, b);
    }
    ContractionConserves(edges, keys, index);
    ContractOk(edges, keys, index, |edges|);
    EdgesEndAtClusters(Contracted(edges, keys, index), keys, clusters);
  }

  lemma {:induction false} EdgesEndAtClusters(acc: seq<Entry>, keys: seq<string>, clusters: seq<Cluster>)
    requires DistinctIds(clusters) && Indexed(keys, IndexTo(clusters, |clusters|))
    requires AccOk(acc, keys, IndexTo(clusters, |clusters|))
    ensures var r := Located(acc);
            forall i :: 0 <= i < |r| ==> 0 <= r[i].source < |clusters| && 0 <= r[i].target < |clusters|
  {
    forall i | 0 <= i < |acc|
      ensures 0 <= acc[i].edge.source < |clusters| && 0 <= acc[i].edge.target < |clusters|
    {
      var left, right := Ends(acc, keys, IndexTo(clusters, |clusters|), i);
      IndexIsPlace(clusters, |clusters|, left);
      IndexIsPlace(clusters, |clusters|, right);
    }
    LocatedAll(acc);
  }
}
