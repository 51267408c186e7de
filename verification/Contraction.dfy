/** Contracting the edges of a graph whose nodes were put into named clusters: edges between different
    clusters are added up per pair of clusters and kind. */
module Contraction {
  import opened Subgraph
  import opened Sorting
  import opened Tally
  import opened Text

  // ----- tallies: JavaScript objects used as counters, with their entries in insertion order

  function AddTo(tally: seq<Count>, name: string, amount: nat): seq<Count> {
    if tally == [] then [Count(name, amount)]
    else if tally[0].name == name then [Count(name, tally[0].count + amount)] + tally[1..]
    else [tally[0]] + AddTo(tally[1..], name, amount)
  }

  lemma {:induction false} AddToTotal(tally: seq<Count>, name: string, amount: nat)
    ensures Total(AddTo(tally, name, amount)) == Total(tally) + amount
  {
    if tally != [] && tally[0].name != name {
      AddToTotal(tally[1..], name, amount);
    }
  }

  function ByCount(): (Count, Count) -> bool {
    (x: Count, y: Count) => x.count >= y.count
  }

  /** The name with the highest count, the earliest one on a tie; `otherwise` when there is none or it is empty. */
  function Leader(tally: seq<Count>, otherwise: string): string {
    var sorted := Sort(tally, ByCount());
    if sorted == [] || sorted[0].name == "" then otherwise else sorted[0].name
  }

  lemma {:induction false} LeaderLeads(tally: seq<Count>, otherwise: string)
    requires tally != []
    ensures exists top :: top in tally && (forall c :: c in tally ==> top.count >= c.count) &&
              Leader(tally, otherwise) == if top.name == "" then otherwise else top.name
  {
    var sorted := Sort(tally, ByCount());
    SortSorts(tally, ByCount());
    SortedMembers(tally, ByCount());
    var top := sorted[0];
    assert top in sorted;
    forall c | c in tally ensures top.count >= c.count {
      assert c in sorted;
      var i :| 0 <= i < |sorted| && sorted[i] == c;
      assert i == 0 || ByCount()(sorted[0], sorted[i]);
    }
  }

  // ----- contraction

  datatype ClusterEdge = ClusterEdge(source: int, target: int, weight: nat, relation: string, kind: string,
                                     tally: seq<Count>)

  /** An entry of the accumulator, a Map in insertion order. */
  datatype Entry = Entry(key: string, edge: ClusterEdge)

  /** `clusterByNode[i]`, "" when there is none. */
  function ClusterOf(clusterByNode: seq<string>, i: int): string {
    if 0 <= i < |clusterByNode| then clusterByNode[i] else ""
  }

  predicate Crosses(e: Edge, clusterByNode: seq<string>) {
    var s, t := ClusterOf(clusterByNode, e.source), ClusterOf(clusterByNode, e.target);
    s != "" && t != "" && s != t
  }

  function Lesser(s: string, t: string): string {
    if TextLess(s, t) then s else t
  }

  function Greater(s: string, t: string): string {
    if TextLess(s, t) then t else s
  }

  function LeftOf(e: Edge, clusterByNode: seq<string>): string {
    Lesser(ClusterOf(clusterByNode, e.source), ClusterOf(clusterByNode, e.target))
  }

  function RightOf(e: Edge, clusterByNode: seq<string>): string {
    Greater(ClusterOf(clusterByNode, e.source), ClusterOf(clusterByNode, e.target))
  }

  function PairKey(left: string, right: string, kind: string): string {
    left + "|" + right + "|" + kind
  }

  function KeyOf(e: Edge, clusterByNode: seq<string>): string {
    PairKey(LeftOf(e, clusterByNode), RightOf(e, clusterByNode), e.kind)
  }

  function EffectiveWeight(e: Edge): nat {
    if e.weight == 0 then 1 else e.weight
  }

  function IndexOf(indexByCluster: map<string, nat>, name: string): int {
    if name in indexByCluster then indexByCluster[name] else UNDEFINED
  }

  function Find(acc: seq<Entry>, key: string): (p: nat)
    ensures p <= |acc|
    ensures p < |acc| ==> acc[p].key == key
    ensures forall i :: 0 <= i < p ==> acc[i].key != key
  {
    if acc == [] || acc[0].key == key then 0 else 1 + Find(acc[1..], key)
  }

  function Fresh(e: Edge, clusterByNode: seq<string>, indexByCluster: map<string, nat>): ClusterEdge {
    ClusterEdge(IndexOf(indexByCluster, LeftOf(e, clusterByNode)), IndexOf(indexByCluster, RightOf(e, clusterByNode)),
                0, e.kind, e.kind, [])
  }

  function Absorb(current: ClusterEdge, e: Edge): ClusterEdge {
    var tally := AddTo(current.tally, e.relation, EffectiveWeight(e));
    current.(weight := current.weight + EffectiveWeight(e), tally := tally, relation := Leader(tally, e.kind))
  }

  function AddEdge(acc: seq<Entry>, e: Edge, clusterByNode: seq<string>, indexByCluster: map<string, nat>): seq<Entry> {
    if !Crosses(e, clusterByNode) then acc
    else
      var key := KeyOf(e, clusterByNode);
      var p := Find(acc, key);
      if p < |acc| then acc[p := Entry(key, Absorb(acc[p].edge, e))]
      else acc + [Entry(key, Absorb(Fresh(e, clusterByNode, indexByCluster), e))]
  }

  function ContractTo(edges: seq<Edge>, clusterByNode: seq<string>, indexByCluster: map<string, nat>,
                      n: nat): seq<Entry>
    requires n <= |edges|
  {
    if n == 0 then []
    else AddEdge(ContractTo(edges, clusterByNode, indexByCluster, n - 1), edges[n - 1], clusterByNode, indexByCluster)
  }

  function Contracted(edges: seq<Edge>, clusterByNode: seq<string>, indexByCluster: map<string, nat>): seq<Entry> {
    ContractTo(edges, clusterByNode, indexByCluster, |edges|)
  }

  /** The entries whose two ends have a node index, without their keys. */
  function Located(acc: seq<Entry>): seq<ClusterEdge> {
    if acc == [] then []
    else
      var x := acc[0].edge;
      (if x.source != UNDEFINED && x.target != UNDEFINED then [x] else []) + Located(acc[1..])
  }

  lemma {:induction false} LocatedAppend(acc: seq<Entry>, x: Entry)
    ensures Located(acc + [x]) == Located(acc) + Located([x])
  {
    if acc == [] {
      assert [] + [x] == [x];
    } else {
      LocatedAppend(acc[1..], x);
      assert (acc + [x])[1..] == acc[1..] + [x];
    }
  }

  /** One round of the loop. */
  method AccumulateEdge(acc: seq<Entry>, e: Edge, clusterByNode: seq<string>, indexByCluster: map<string, nat>)
    returns (acc': seq<Entry>)
    ensures acc' == AddEdge(acc, e, clusterByNode, indexByCluster)
  {
    var s, t := ClusterOf(clusterByNode, e.source), ClusterOf(clusterByNode, e.target);
    if s == "" || t == "" || s == t {
      return acc;
    }
    var left := if TextLess(s, t) then s else t;
    var right := if TextLess(s, t) then t else s;
    var key := PairKey(left, right, e.kind);
    var p := Find(acc, key);
    var current;
    if p < |acc| {
      current := acc[p].edge;
    } else {
      current := ClusterEdge(IndexOf(indexByCluster, left), IndexOf(indexByCluster, right), 0, e.kind, e.kind, []);
    }
    var weight := if e.weight == 0 then 1 else e.weight;
    var tally := AddTo(current.tally, e.relation, weight);
    current := current.(weight := current.weight + weight, tally := tally, relation := Leader(tally, e.kind));
    acc' := if p < |acc| then acc[p := Entry(key, current)] else acc + [Entry(key, current)];
  }

  method ClusterEdges(edges: seq<Edge>, clusterByNode: seq<string>, indexByCluster: map<string, nat>)
    returns (r: seq<ClusterEdge>)
    ensures r == Located(Contracted(edges, clusterByNode, indexByCluster))
  {
    var acc: seq<Entry> := [];
    for i := 0 to |edges|
      invariant acc == ContractTo(edges, clusterByNode, indexByCluster, i)
    {
      acc := AccumulateEdge(acc, edges[i], clusterByNode, indexByCluster);
    }
    r := KeepLocated(acc);
  }

  method KeepLocated(acc: seq<Entry>) returns (r: seq<ClusterEdge>)
    ensures r == Located(acc)
  {
    r := [];
    for i := 0 to |acc|
      invariant r == Located(acc[..i])
    {
      assert acc[..i + 1] == acc[..i] + [acc[i]];
      LocatedAppend(acc[..i], acc[i]);
      if acc[i].edge.source != UNDEFINED && acc[i].edge.target != UNDEFINED {
        r := r + [acc[i].edge];
      }
    }
    assert acc[..|acc|] == acc;
  }

  // ----- weight is conserved

  function CrossingWeight(edges: seq<Edge>, clusterByNode: seq<string>, n: nat): nat
    requires n <= |edges|
  {
    if n == 0 then 0
    else
      var e := edges[n - 1];
      CrossingWeight(edges, clusterByNode, n - 1) + (if Crosses(e, clusterByNode) then EffectiveWeight(e) else 0)
  }

  function AccWeight(acc: seq<Entry>): nat {
    if acc == [] then 0 else AccWeight(acc[..|acc| - 1]) + acc[|acc| - 1].edge.weight
  }

  lemma {:induction false} AccWeightUpdate(acc: seq<Entry>, p: nat, x: Entry)
    requires p < |acc|
    ensures AccWeight(acc[p := x]) == AccWeight(acc) - acc[p].edge.weight + x.edge.weight
  {
    var last := |acc| - 1;
    if p == last {
      assert acc[p := x][..last] == acc[..last];
    } else {
      assert acc[p := x][..last] == acc[..last][p := x];
      AccWeightUpdate(acc[..last], p, x);
    }
  }

  lemma {:induction false} AddEdgeWeight(acc: seq<Entry>, e: Edge, clusterByNode: seq<string>,
                                         indexByCluster: map<string, nat>)
    ensures AccWeight(AddEdge(acc, e, clusterByNode, indexByCluster))
         == AccWeight(acc) + (if Crosses(e, clusterByNode) then EffectiveWeight(e) else 0)
  {
    if Crosses(e, clusterByNode) {
      var key := KeyOf(e, clusterByNode);
      var p := Find(acc, key);
      if p < |acc| {
        AccWeightUpdate(acc, p, Entry(key, Absorb(acc[p].edge, e)));
      } else {
        var x := Entry(key, Absorb(Fresh(e, clusterByNode, indexByCluster), e));
        assert (acc + [x])[..|acc|] == acc;
      }
    }
  }

  lemma {:induction false} ContractConserves(edges: seq<Edge>, clusterByNode: seq<string>,
                                             indexByCluster: map<string, nat>, n: nat)
    requires n <= |edges|
    ensures AccWeight(ContractTo(edges, clusterByNode, indexByCluster, n)) == CrossingWeight(edges, clusterByNode, n)
  {
    if n > 0 {
      ContractConserves(edges, clusterByNode, indexByCluster, n - 1);
      var acc := ContractTo(edges, clusterByNode, indexByCluster, n - 1);
      AddEdgeWeight(acc, edges[n - 1], clusterByNode, indexByCluster);
    }
  }

  // ----- what each entry is

  /** The total weight between two clusters, counting edges of the given kind in either direction. */
  function WeightBetween(edges: seq<Edge>, clusterByNode: seq<string>, left: string, right: string, kind: string,
                         n: nat): nat
    requires n <= |edges|
  {
    if n == 0 then 0
    else
      var e := edges[n - 1];
      var s, t := ClusterOf(clusterByNode, e.source), ClusterOf(clusterByNode, e.target);
      WeightBetween(edges, clusterByNode, left, right, kind, n - 1)
      + (if e.kind == kind && ((s == left && t == right) || (s == right && t == left)) then EffectiveWeight(e) else 0)
  }

  predicate BarFree(names: seq<string>) {
    forall i :: 0 <= i < |names| ==> '|' !in names[i]
  }

  /** Without a bar in the cluster names a key gives back its three parts. */
  lemma {:induction false} PairKeyDetermines(left: string, right: string, kind: string, left': string, right': string,
                                             kind': string)
    requires '|' !in left && '|' !in left' && '|' !in right && '|' !in right'
    requires PairKey(left, right, kind) == PairKey(left', right', kind')
    ensures left == left' && right == right' && kind == kind'
  {
    assert PairKey(left, right, kind) == left + ['|'] + (right + ['|'] + kind);
    assert PairKey(left', right', kind') == left' + ['|'] + (right' + ['|'] + kind');
    FirstCutUnique(left, right + ['|'] + kind, left', right' + ['|'] + kind', '|');
    FirstCutUnique(right, kind, right', kind', '|');
  }

  /** Two names are a canonical pair of clusters when they are real and in order. */
  ghost predicate Canonical(left: string, right: string) {
    left != "" && right != "" && TextLess(left, right)
  }

  lemma {:induction false} CrossingIsCanonical(e: Edge, clusterByNode: seq<string>)
    requires Crosses(e, clusterByNode)
    ensures Canonical(LeftOf(e, clusterByNode), RightOf(e, clusterByNode))
  {
    var s, t := ClusterOf(clusterByNode, e.source), ClusterOf(clusterByNode, e.target);
    TextLeqTotal(s, t);
  }

  lemma {:induction false} CanonicalPairOf(e: Edge, clusterByNode: seq<string>, left: string, right: string)
    requires Canonical(left, right)
    ensures var s, t := ClusterOf(clusterByNode, e.source), ClusterOf(clusterByNode, e.target);
            (s == left && t == right) || (s == right && t == left) <==>
              Crosses(e, clusterByNode) && LeftOf(e, clusterByNode) == left && RightOf(e, clusterByNode) == right
  {
    if TextLeq(right, left) {
      TextLeqAntisymmetric(left, right);
    }
  }

  /** What the accumulator says about one pair and kind: its weight when an entry has its key, else nothing. */
  function WeightAt(acc: seq<Entry>, key: string): nat {
    if Find(acc, key) < |acc| then acc[Find(acc, key)].edge.weight else 0
  }

  lemma {:induction false} FindAfterUpdate(acc: seq<Entry>, p: nat, x: Entry, key: string)
    requires p < |acc| && x.key == acc[p].key
    ensures Find(acc[p := x], key) == Find(acc, key)
  {
    if p == 0 {
      assert acc[p := x][1..] == acc[1..];
    } else {
      assert acc[p := x][1..] == acc[1..][p - 1 := x];
      FindAfterUpdate(acc[1..], p - 1, x, key);
    }
  }

  lemma {:induction false} FindAfterAppend(acc: seq<Entry>, x: Entry, key: string)
    requires Find(acc, x.key) == |acc|
    ensures Find(acc + [x], key)
         == if x.key == key then |acc| else if Find(acc, key) < |acc| then Find(acc, key) else |acc| + 1
  {
    if acc != [] {
      assert (acc + [x])[1..] == acc[1..] + [x];
      FindAfterAppend(acc[1..], x, key);
    }
  }

  lemma {:induction false} AddEdgeWeightAt(acc: seq<Entry>, e: Edge, clusterByNode: seq<string>,
                                           indexByCluster: map<string, nat>, sought: string)
    ensures WeightAt(AddEdge(acc, e, clusterByNode, indexByCluster), sought)
         == WeightAt(acc, sought)
          + (if Crosses(e, clusterByNode) && KeyOf(e, clusterByNode) == sought then EffectiveWeight(e) else 0)
  {
    if Crosses(e, clusterByNode) {
      var key := KeyOf(e, clusterByNode);
      var p := Find(acc, key);
      if p < |acc| {
        FindAfterUpdate(acc, p, Entry(key, Absorb(acc[p].edge, e)), sought);
      } else {
        FindAfterAppend(acc, Entry(key, Absorb(Fresh(e, clusterByNode, indexByCluster), e)), sought);
      }
    }
  }

  /** The edge is entered under the key of another pair or kind than its own. */
  predicate Strays(e: Edge, clusterByNode: seq<string>, left: string, right: string, kind: string) {
    Crosses(e, clusterByNode) && KeyOf(e, clusterByNode) == PairKey(left, right, kind) &&
    !(LeftOf(e, clusterByNode) == left && RightOf(e, clusterByNode) == right && e.kind == kind)
  }

  function StrayWeight(edges: seq<Edge>, clusterByNode: seq<string>, left: string, right: string, kind: string,
                       n: nat): nat
    requires n <= |edges|
  {
    if n == 0 then 0
    else
      StrayWeight(edges, clusterByNode, left, right, kind, n - 1) +
      (if Strays(edges[n - 1], clusterByNode, left, right, kind) then EffectiveWeight(edges[n - 1]) else 0)
  }

  lemma {:induction false} NoStrayWeight(edges: seq<Edge>, clusterByNode: seq<string>, left: string, right: string,
                                         kind: string, n: nat)
    requires n <= |edges|
    ensures StrayWeight(edges, clusterByNode, left, right, kind, n) == 0 <==>
              forall i :: 0 <= i < n ==> !Strays(edges[i], clusterByNode, left, right, kind)
  {
    if n > 0 {
      NoStrayWeight(edges, clusterByNode, left, right, kind, n - 1);
    }
  }

  /** What is stored under a key is the weight of its pair and kind, and the weight of the strays. */
  lemma {:induction false} WeightWithStrays(edges: seq<Edge>, clusterByNode: seq<string>,
                                            indexByCluster: map<string, nat>, left: string, right: string, kind: string,
                                            n: nat)
    requires n <= |edges| && Canonical(left, right)
    ensures WeightAt(ContractTo(edges, clusterByNode, indexByCluster, n), PairKey(left, right, kind))
         == WeightBetween(edges, clusterByNode, left, right, kind, n)
          + StrayWeight(edges, clusterByNode, left, right, kind, n)
  {
    if n > 0 {
      var acc, e := ContractTo(edges, clusterByNode, indexByCluster, n - 1), edges[n - 1];
      WeightWithStrays(edges, clusterByNode, indexByCluster, left, right, kind, n - 1);
      AddEdgeWeightAt(acc, e, clusterByNode, indexByCluster, PairKey(left, right, kind));
      CanonicalPairOf(e, clusterByNode, left, right);
    }
  }

  /** Main result: the weight stored for a pair of clusters and a kind is the total effective weight of the
      input edges of that kind between the two clusters, exactly when no edge of another pair or kind has
      the same key. */
  lemma {:induction false} WeightPerPair(edges: seq<Edge>, clusterByNode: seq<string>, indexByCluster: map<string, nat>,
                                         left: string, right: string, kind: string)
    requires Canonical(left, right)
    ensures (WeightAt(Contracted(edges, clusterByNode, indexByCluster), PairKey(left, right, kind))
          == WeightBetween(edges, clusterByNode, left, right, kind, |edges|))
            <==> (forall i :: 0 <= i < |edges| ==> !Strays(edges[i], clusterByNode, left, right, kind))
  {
    WeightWithStrays(edges, clusterByNode, indexByCluster, left, right, kind, |edges|);
    NoStrayWeight(edges, clusterByNode, left, right, kind, |edges|);
  }

  /** Main result: without a bar in a cluster name no edge strays, so every stored weight is right. */
  lemma {:induction false} BarFreeWeights(edges: seq<Edge>, clusterByNode: seq<string>,
                                          indexByCluster: map<string, nat>, left: string, right: string, kind: string)
    requires Canonical(left, right) && BarFree(clusterByNode) && '|' !in left && '|' !in right
    ensures WeightAt(Contracted(edges, clusterByNode, indexByCluster), PairKey(left, right, kind))
         == WeightBetween(edges, clusterByNode, left, right, kind, |edges|)
  {
    forall i | 0 <= i < |edges| ensures !Strays(edges[i], clusterByNode, left, right, kind) {
      var e := edges[i];
      if Crosses(e, clusterByNode) && KeyOf(e, clusterByNode) == PairKey(left, right, kind) {
        PairKeyDetermines(LeftOf(e, clusterByNode), RightOf(e, clusterByNode), e.kind, left, right, kind);
      }
    }
    WeightPerPair(edges, clusterByNode, indexByCluster, left, right, kind);
  }

  const BARRED := ["a", "b|c", "a|b", "c"]
  const BARRED_EDGES := [Edge(0, 1, "k", "x", 1), Edge(2, 3, "k", "x", 1)]

  /** With bars the weight can be wrong: of two edges between four different clusters both count for the
      first pair, though only one of them joins it. */
  lemma {:induction false} BarsMergeWeights(indexByCluster: map<string, nat>)
    ensures WeightAt(Contracted(BARRED_EDGES, BARRED, indexByCluster), PairKey("a", "b|c", "k")) == 2
    ensures WeightBetween(BARRED_EDGES, BARRED, "a", "b|c", "k", |BARRED_EDGES|) == 1
  {
    var first, second := BARRED_EDGES[0], BARRED_EDGES[1];
    assert "a"[0] == 'a' && "b|c"[0] == 'b' && "a|b"[0] == 'a' && "c"[0] == 'c';
    assert KeyOf(first, BARRED) == "a|b|c|k" && KeyOf(second, BARRED) == "a|b|c|k";
    assert PairKey("a", "b|c", "k") == "a|b|c|k" && |"a|b"| == 3;
    assert Strays(second, BARRED, "a", "b|c", "k") && !Strays(first, BARRED, "a", "b|c", "k");
    assert StrayWeight(BARRED_EDGES, BARRED, "a", "b|c", "k", 1) == 0;
    assert WeightBetween(BARRED_EDGES, BARRED, "a", "b|c", "k", 1) == 1;
    WeightWithStrays(BARRED_EDGES, BARRED, indexByCluster, "a", "b|c", "k", 2);
  }

  /** An entry carries the key of its pair and kind, points at the two clusters, and its label counts add
      up to its weight. */
  ghost predicate EntryOk(x: Entry, left: string, right: string, indexByCluster: map<string, nat>) {
    x.key == PairKey(left, right, x.edge.kind) && Canonical(left, right) &&
    x.edge.source == IndexOf(indexByCluster, left) && x.edge.target == IndexOf(indexByCluster, right) &&
    Total(x.edge.tally) == x.edge.weight && x.edge.weight > 0
  }

  ghost predicate NamedIn(names: seq<string>, name: string) {
    name in names
  }

  ghost predicate NamedEntry(x: Entry, names: seq<string>, indexByCluster: map<string, nat>) {
    exists left, right :: EntryOk(x, left, right, indexByCluster) && NamedIn(names, left) && NamedIn(names, right)
  }

  ghost predicate AccOk(acc: seq<Entry>, names: seq<string>, indexByCluster: map<string, nat>) {
    (forall i :: 0 <= i < |acc| ==> NamedEntry(acc[i], names, indexByCluster)) &&
    (forall i, j :: 0 <= i < j < |acc| ==> acc[i].key != acc[j].key)
  }

  lemma {:induction false} AbsorbKeepsOk(current: ClusterEdge, e: Edge)
    requires Total(current.tally) == current.weight
    ensures Total(Absorb(current, e).tally) == Absorb(current, e).weight > 0
  {
    AddToTotal(current.tally, e.relation, EffectiveWeight(e));
  }

  lemma {:induction false} AbsorbedEntryOk(x: Entry, e: Edge, names: seq<string>, indexByCluster: map<string, nat>)
    requires NamedEntry(x, names, indexByCluster)
    ensures NamedEntry(Entry(x.key, Absorb(x.edge, e)), names, indexByCluster)
  {
    var l, r :| EntryOk(x, l, r, indexByCluster) && NamedIn(names, l) && NamedIn(names, r);
    AbsorbKeepsOk(x.edge, e);
    assert EntryOk(Entry(x.key, Absorb(x.edge, e)), l, r, indexByCluster);
  }

  lemma {:induction false} FreshEntryOk(e: Edge, names: seq<string>, indexByCluster: map<string, nat>)
    requires Crosses(e, names)
    ensures NamedEntry(Entry(KeyOf(e, names), Absorb(Fresh(e, names, indexByCluster), e)), names, indexByCluster)
  {
    var left, right := LeftOf(e, names), RightOf(e, names);
    CrossingIsCanonical(e, names);
    AbsorbKeepsOk(Fresh(e, names, indexByCluster), e);
    assert NamedIn(names, left) && NamedIn(names, right);
    assert EntryOk(Entry(KeyOf(e, names), Absorb(Fresh(e, names, indexByCluster), e)), left, right, indexByCluster);
  }

  lemma {:induction false} AddEdgeOk(acc: seq<Entry>, e: Edge, clusterByNode: seq<string>,
                                     indexByCluster: map<string, nat>)
    requires AccOk(acc, clusterByNode, indexByCluster)
    ensures AccOk(AddEdge(acc, e, clusterByNode, indexByCluster), clusterByNode, indexByCluster)
  {
    if Crosses(e, clusterByNode) {
      var p := Find(acc, KeyOf(e, clusterByNode));
      if p < |acc| {
        AbsorbedEntryOk(acc[p], e, clusterByNode, indexByCluster);
      } else {
        FreshEntryOk(e, clusterByNode, indexByCluster);
      }
    }
  }

  lemma {:induction false} ContractOk(edges: seq<Edge>, clusterByNode: seq<string>, indexByCluster: map<string, nat>,
                                      n: nat)
    requires n <= |edges|
    ensures AccOk(ContractTo(edges, clusterByNode, indexByCluster, n), clusterByNode, indexByCluster)
  {
    if n > 0 {
      ContractOk(edges, clusterByNode, indexByCluster, n - 1);
      AddEdgeOk(ContractTo(edges, clusterByNode, indexByCluster, n - 1), edges[n - 1], clusterByNode, indexByCluster);
    }
  }

  /** Every cluster has a node index of its own. */
  ghost predicate Indexed(names: seq<string>, indexByCluster: map<string, nat>) {
    (forall i :: 0 <= i < |names| ==> names[i] in indexByCluster) &&
    (forall a, b :: a in indexByCluster && b in indexByCluster && indexByCluster[a] == indexByCluster[b] ==> a == b)
  }

  lemma {:induction false} LocatedAll(acc: seq<Entry>)
    requires forall i :: 0 <= i < |acc| ==> acc[i].edge.source != UNDEFINED && acc[i].edge.target != UNDEFINED
    ensures |Located(acc)| == |acc| && forall i :: 0 <= i < |acc| ==> Located(acc)[i] == acc[i].edge
  {
    if acc != [] {
      LocatedAll(acc[1..]);
    }
  }

  function WeightSum(edges: seq<ClusterEdge>): nat {
    if edges == [] then 0 else WeightSum(edges[..|edges| - 1]) + edges[|edges| - 1].weight
  }

  lemma {:induction false} WeightSumIsAccWeight(acc: seq<Entry>, edges: seq<ClusterEdge>)
    requires |edges| == |acc| && forall i :: 0 <= i < |acc| ==> edges[i] == acc[i].edge
    ensures WeightSum(edges) == AccWeight(acc)
  {
    if acc != [] {
      WeightSumIsAccWeight(acc[..|acc| - 1], edges[..|edges| - 1]);
    }
  }

  /** Main result: contraction conserves weight. Nothing is dropped at the end, the weights add up to the
      weight of the crossing edges, each edge's label counts add up to its weight, none is a loop, and no
      two join the same clusters with the same kind. */
  lemma {:induction false} ContractionConserves(edges: seq<Edge>, clusterByNode: seq<string>,
                                                indexByCluster: map<string, nat>)
    requires Indexed(clusterByNode, indexByCluster)
    ensures var r := Located(Contracted(edges, clusterByNode, indexByCluster));
            |r| == |Contracted(edges, clusterByNode, indexByCluster)| &&
            WeightSum(r) == CrossingWeight(edges, clusterByNode, |edges|) &&
            (forall i :: 0 <= i < |r| ==> Total(r[i].tally) == r[i].weight && r[i].source != r[i].target) &&
            (forall i, j :: 0 <= i < j < |r| && r[i].kind == r[j].kind ==>
               {r[i].source, r[i].target} != {r[j].source, r[j].target})
  {
    var acc := Contracted(edges, clusterByNode, indexByCluster);
    ContractOk(edges, clusterByNode, indexByCluster, |edges|);
    ContractConserves(edges, clusterByNode, indexByCluster, |edges|);
    forall i | 0 <= i < |acc|
      ensures acc[i].edge.source != UNDEFINED && acc[i].edge.target != UNDEFINED
      ensures Total(acc[i].edge.tally) == acc[i].edge.weight && acc[i].edge.source != acc[i].edge.target
    {
      var left, right := Ends(acc, clusterByNode, indexByCluster, i);
    }
    LocatedAll(acc);
    WeightSumIsAccWeight(acc, Located(acc));
    forall i, j | 0 <= i < j < |acc| && acc[i].edge.kind == acc[j].edge.kind
      ensures {acc[i].edge.source, acc[i].edge.target} != {acc[j].edge.source, acc[j].edge.target}
    {
      DifferentPairs(acc, clusterByNode, indexByCluster, i, j);
    }
  }

  lemma {:induction false} Ends(acc: seq<Entry>, names: seq<string>, indexByCluster: map<string, nat>, i: nat)
    returns (left: string, right: string)
    requires AccOk(acc, names, indexByCluster) && Indexed(names, indexByCluster) && i < |acc|
    ensures EntryOk(acc[i], left, right, indexByCluster)
    ensures left in indexByCluster && right in indexByCluster && left != right
    ensures acc[i].edge.source == indexByCluster[left] && acc[i].edge.target == indexByCluster[right]
    ensures indexByCluster[left] != indexByCluster[right]
  {
    left, right :| EntryOk(acc[i], left, right, indexByCluster) && NamedIn(names, left) && NamedIn(names, right);
  }

  lemma {:induction false} DifferentPairs(acc: seq<Entry>, names: seq<string>, indexByCluster: map<string, nat>, i: nat,
                                          j: nat)
    requires AccOk(acc, names, indexByCluster) && Indexed(names, indexByCluster) && i < j < |acc|
    requires acc[i].edge.kind == acc[j].edge.kind
    ensures {acc[i].edge.source, acc[i].edge.target} != {acc[j].edge.source, acc[j].edge.target}
  {
    var l, r := Ends(acc, names, indexByCluster, i);
    var l', r' := Ends(acc, names, indexByCluster, j);
    assert acc[i].key != acc[j].key;
    if {acc[i].edge.source, acc[i].edge.target} == {acc[j].edge.source, acc[j].edge.target} {
      assert acc[i].edge.source in {acc[j].edge.source, acc[j].edge.target};
      assert acc[i].edge.target in {acc[j].edge.source, acc[j].edge.target};
      if l == r' && r == l' {
        TextLeqAntisymmetric(l, r);
      }
    }
  }

  // ----- direction does not matter

  function Reversed(e: Edge): Edge {
    e.(source := e.target, target := e.source)
  }

  lemma {:induction false} ReversedAddsTheSame(acc: seq<Entry>, e: Edge, clusterByNode: seq<string>,
                                               indexByCluster: map<string, nat>)
    ensures AddEdge(acc, Reversed(e), clusterByNode, indexByCluster) == AddEdge(acc, e, clusterByNode, indexByCluster)
  {
    var s, t := ClusterOf(clusterByNode, e.source), ClusterOf(clusterByNode, e.target);
    TextLeqTotal(s, t);
    if TextLeq(s, t) && TextLeq(t, s) {
      TextLeqAntisymmetric(s, t);
    }
  }

  /** Main result: reversing any of the input edges changes nothing in the output. */
  lemma {:induction false} DirectionIgnored(edges: seq<Edge>, edges': seq<Edge>, clusterByNode: seq<string>,
                                            indexByCluster: map<string, nat>, n: nat)
    requires n <= |edges| == |edges'|
    requires forall i :: 0 <= i < |edges| ==> edges'[i] == edges[i] || edges'[i] == Reversed(edges[i])
    ensures ContractTo(edges', clusterByNode, indexByCluster, n) == ContractTo(edges, clusterByNode, indexByCluster, n)
  {
    if n > 0 {
      DirectionIgnored(edges, edges', clusterByNode, indexByCluster, n - 1);
      var acc := ContractTo(edges, clusterByNode, indexByCluster, n - 1);
      ReversedAddsTheSame(acc, edges[n - 1], clusterByNode, indexByCluster);
    }
  }
}
