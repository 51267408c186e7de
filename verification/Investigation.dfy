/** Which edges are drawn: every edge that is no relationship, and the best few relationships, those that
    touch the focus first and the highest scores first among each kind. */
module Investigation {
  import opened Options
  import opened Subgraph
  import opened Sorting
  import Text

  const RELATIONSHIP := "relationship"

  /** The selected node's id ("" when it has none), its index, and whether only the neighbourhood shows. */
  datatype Selected = Selected(nodeId: string, nodeIndex: Option<nat>, neighborhoodOnly: bool)

  /** What is emphasised around the selection. */
  datatype Emphasis = Emphasis(selectedId: string, focusIds: set<string>, directNeighborIds: set<string>)

  /** The scene an edge is judged in; without a selection there is no emphasis. */
  datatype Scene = Scene(nodes: seq<Node>, selected: Selected, emphasis: Option<Emphasis>)

  datatype Grade = Normal | SelectedNode | Dossier | Dim

  function NodeAt(nodes: seq<Node>, i: int): Option<Node> {
    if 0 <= i < |nodes| then Some(nodes[i]) else None
  }

  predicate IsSelected(node: Node, selected: Selected) {
    if selected.nodeId != "" && node.data.id != "" then selected.nodeId == node.data.id
    else selected.nodeIndex == Some(node.index)
  }

  function NodeEmphasis(node: Option<Node>, scene: Scene): Grade {
    if scene.emphasis.None? || node.None? then Normal
    else if IsSelected(node.value, scene.selected) then SelectedNode
    else
      var id := node.value.data.id;
      if id != "" && (id in scene.emphasis.value.focusIds || id in scene.emphasis.value.directNeighborIds) then Dossier
      else Dim
  }

  function GradeScore(grade: Grade): nat {
    match grade
    case SelectedNode => 8
    case Dossier => 6
    case _ => 0
  }

  /** Twice the source's score, which is a multiple of one half. */
  function Score(e: Edge, scene: Scene): nat {
    var weight := if e.weight == 0 then 1 else e.weight;
    var grades := GradeScore(NodeEmphasis(NodeAt(scene.nodes, e.source), scene))
                + GradeScore(NodeEmphasis(NodeAt(scene.nodes, e.target), scene));
    var bonus := if e.relation == "MENTIONED" then 6 else if e.relation == "CO_MENTIONED" then 3 else 1;
    8 * weight + 2 * grades + bonus
  }

  predicate InFocus(node: Option<Node>, emphasis: Emphasis) {
    node.Some? && node.value.data.id != "" &&
    (node.value.data.id in emphasis.focusIds || node.value.data.id == emphasis.selectedId)
  }

  predicate Preserve(e: Edge, scene: Scene) {
    scene.emphasis.Some? &&
    (InFocus(NodeAt(scene.nodes, e.source), scene.emphasis.value) ||
     InFocus(NodeAt(scene.nodes, e.target), scene.emphasis.value))
  }

  function TargetCount(total: nat, scene: Scene): (r: nat)
    ensures r <= total
  {
    var cap := if scene.emphasis.None? then 18 else if scene.selected.neighborhoodOnly then 24 else 36;
    if total < cap then total else cap
  }

  // ----- the key by which preserved edges are taken out of the ranking

  function EndpointText(i: int): string {
    if i == UNDEFINED then "undefined" else Text.IntText(i)
  }

  function EdgeKey(e: Edge): string {
    e.kind + ":" + e.relation + ":" + EndpointText(e.source) + "->" + EndpointText(e.target)
  }

  lemma {:induction false} EndpointTextInjective(i: int, j: int)
    requires EndpointText(i) == EndpointText(j)
    ensures i == j
  {
    assert "undefined"[0] == 'u';
    assert |Text.IntText(i)| > 0 ==> Text.IntText(i)[0] in Text.IntText(i);
    assert |Text.IntText(j)| > 0 ==> Text.IntText(j)[0] in Text.IntText(j);
    if i != UNDEFINED && j != UNDEFINED {
      Text.IntTextInjective(i, j);
    }
  }

  /** The key of an edge gives back its label and both endpoints, whatever characters the label holds. */
  lemma {:induction false} EdgeKeyDetermines(d: Edge, e: Edge)
    requires d.kind == e.kind && EdgeKey(d) == EdgeKey(e)
    ensures d.relation == e.relation && d.source == e.source && d.target == e.target
  {
    var s, t := EndpointText(d.source), EndpointText(d.target);
    var s', t' := EndpointText(e.source), EndpointText(e.target);
    var a, a' := d.kind + ":" + d.relation, e.kind + ":" + e.relation;
    assert EdgeKey(d) == (a + ":" + s + "-") + ['>'] + t;
    assert EdgeKey(e) == (a' + ":" + s' + "-") + ['>'] + t';
    Text.LastCutUnique(a + ":" + s + "-", t, a' + ":" + s' + "-", t', '>');
    assert a + [':'] + s == (a + ":" + s + "-")[..|a| + |s| + 1];
    assert a' + [':'] + s' == (a' + ":" + s' + "-")[..|a'| + |s'| + 1];
    Text.LastCutUnique(a, s, a', s', ':');
    assert a[|d.kind| + 1..] == d.relation && a'[|e.kind| + 1..] == e.relation;
    EndpointTextInjective(d.source, e.source);
    EndpointTextInjective(d.target, e.target);
  }

  // ----- the selection of edges

  datatype Scored = Scored(edge: Edge, score: nat, preserve: bool)

  function ScoreAll(edges: seq<Edge>, scene: Scene): (r: seq<Scored>)
    ensures |r| == |edges|
    ensures forall i :: 0 <= i < |r| ==> r[i] == Scored(edges[i], Score(edges[i], scene), Preserve(edges[i], scene))
  {
    seq(|edges|, i requires 0 <= i < |edges| =>
      Scored(edges[i], Score(edges[i], scene), Preserve(edges[i], scene)))
  }

  function EdgesOf(entries: seq<Scored>): (r: seq<Edge>)
    ensures |r| == |entries|
    ensures forall i :: 0 <= i < |r| ==> r[i] == entries[i].edge
  {
    seq(|entries|, i requires 0 <= i < |entries| => entries[i].edge)
  }

  function IsRelationship(): Edge -> bool { (e: Edge) => e.kind == RELATIONSHIP }
  function IsOther(): Edge -> bool { (e: Edge) => e.kind != RELATIONSHIP }
  function ToPreserve(): Scored -> bool { (x: Scored) => x.preserve }
  function NotToPreserve(): Scored -> bool { (x: Scored) => !x.preserve }
  function KeyNotIn(keys: set<string>): Scored -> bool { (x: Scored) => EdgeKey(x.edge) !in keys }
  function ByScore(): (Scored, Scored) -> bool { (x: Scored, y: Scored) => x.score >= y.score }

  function Keys(edges: seq<Edge>): set<string> {
    set e | e in edges :: EdgeKey(e)
  }

  /** JavaScript's slice(0, n). */
  function Take<T>(s: seq<T>, n: nat): seq<T> {
    if n <= |s| then s[..n] else s
  }

  /** The preserved edges, cut at the target, or all of them and then the best of the others up to the target. */
  function SelectRelationships(scored: seq<Scored>, target: nat): seq<Edge> {
    var preserved := EdgesOf(Sort(Filter(scored, ToPreserve()), ByScore()));
    if |preserved| >= target then preserved[..target]
    else
      var ranked := Take(Sort(Filter(scored, KeyNotIn(Keys(preserved))), ByScore()), target - |preserved|);
      preserved + EdgesOf(ranked)
  }

  function InvestigationEdges(edges: seq<Edge>, scene: Scene): seq<Edge> {
    var others := Filter(edges, IsOther());
    var relationships := Filter(edges, IsRelationship());
    if relationships == [] then others
    else others + SelectRelationships(ScoreAll(relationships, scene), TargetCount(|relationships|, scene))
  }

  // ----- what it selects

  /** Touching the focus comes first, then the score. */
  function Outranks(): (Scored, Scored) -> bool {
    (x: Scored, y: Scored) => if x.preserve == y.preserve then x.score >= y.score else x.preserve
  }

  lemma {:induction false} FilterAgrees<T(!new)>(s: seq<T>, p: T -> bool, q: T -> bool)
    requires forall i :: 0 <= i < |s| ==> (p(s[i]) <==> q(s[i]))
    ensures Filter(s, p) == Filter(s, q)
  {
    if s != [] {
      FilterAgrees(s[1..], p, q);
    }
  }

  /** Taking the preserved keys out takes out exactly the preserved edges. */
  lemma {:induction false} KeysSeparate(relationships: seq<Edge>, scene: Scene)
    requires forall i :: 0 <= i < |relationships| ==> relationships[i].kind == RELATIONSHIP
    ensures var scored := ScoreAll(relationships, scene);
            var preserved := EdgesOf(Sort(Filter(scored, ToPreserve()), ByScore()));
            Filter(scored, KeyNotIn(Keys(preserved))) == Filter(scored, NotToPreserve())
  {
    var scored := ScoreAll(relationships, scene);
    var kept := Sort(Filter(scored, ToPreserve()), ByScore());
    var preserved := EdgesOf(kept);
    FilterIn(scored, ToPreserve());
    SortedMembers(Filter(scored, ToPreserve()), ByScore());
    forall i | 0 <= i < |scored| ensures KeyNotIn(Keys(preserved))(scored[i]) <==> NotToPreserve()(scored[i]) {
      var x := scored[i];
      if x.preserve {
        assert x in Filter(scored, ToPreserve());
        var j :| 0 <= j < |kept| && kept[j] == x;
        assert preserved[j] == x.edge;
      } else {
        forall j | 0 <= j < |preserved| ensures EdgeKey(preserved[j]) != EdgeKey(x.edge) {
          var y := kept[j];
          assert y in Filter(scored, ToPreserve());
          assert y in scored && y.preserve;
          if EdgeKey(y.edge) == EdgeKey(x.edge) {
            EdgeKeyDetermines(y.edge, x.edge);
          }
        }
      }
    }
    FilterAgrees(scored, KeyNotIn(Keys(preserved)), NotToPreserve());
  }

  lemma {:induction false} FilteredAll<T(!new)>(s: seq<T>, p: T -> bool)
    ensures forall i :: 0 <= i < |Filter(s, p)| ==> p(Filter(s, p)[i]) && Filter(s, p)[i] in s
  {
    FilterIn(s, p);
    forall i | 0 <= i < |Filter(s, p)| ensures p(Filter(s, p)[i]) && Filter(s, p)[i] in s {
      assert Filter(s, p)[i] in Filter(s, p);
    }
  }

  function Candidates(edges: seq<Edge>, scene: Scene): seq<Scored> {
    ScoreAll(Filter(edges, IsRelationship()), scene)
  }

  /** The reference: all relationships in one stable sort, on the focus first and the score second. */
  function Ranking(edges: seq<Edge>, scene: Scene): (r: seq<Scored>)
    ensures |r| == |Candidates(edges, scene)|
  {
    Sort(Candidates(edges, scene), Outranks())
  }

  function Cutoff(edges: seq<Edge>, scene: Scene): (r: nat)
    ensures r <= |Ranking(edges, scene)|
  {
    TargetCount(|Candidates(edges, scene)|, scene)
  }

  /** The two-stage cut of two sorted parts is a plain cut of their concatenation. */
  lemma {:induction false} CutInTwo(first: seq<Scored>, second: seq<Scored>, target: nat)
    requires target <= |first| + |second|
    ensures EdgesOf((first + second)[..target])
         == if |first| >= target then EdgesOf(first)[..target]
            else EdgesOf(first) + EdgesOf(Take(second, target - |first|))
  {
  }

  /** The ranking falls into the two parts that the selection sorts apart. */
  lemma {:induction false} RankingInTwoParts(edges: seq<Edge>, scene: Scene, first: seq<Scored>, second: seq<Scored>)
    requires var scored := Candidates(edges, scene);
             first == Sort(Filter(scored, ToPreserve()), ByScore()) &&
             second == Sort(Filter(scored, KeyNotIn(Keys(EdgesOf(first)))), ByScore())
    ensures Ranking(edges, scene) == first + second
  {
    var relationships := Filter(edges, IsRelationship());
    FilteredAll(edges, IsRelationship());
    KeysSeparate(relationships, scene);
    SortByFlag(Candidates(edges, scene), ToPreserve(), NotToPreserve(), Outranks(), ByScore());
  }

  lemma {:induction false} SelectionCutsRanking(edges: seq<Edge>, scene: Scene, ranking: seq<Scored>, target: nat)
    requires ranking == Ranking(edges, scene) && target <= |ranking|
    ensures SelectRelationships(Candidates(edges, scene), target) == EdgesOf(ranking[..target])
  {
    var scored := Candidates(edges, scene);
    var first := Sort(Filter(scored, ToPreserve()), ByScore());
    var second := Sort(Filter(scored, KeyNotIn(Keys(EdgesOf(first)))), ByScore());
    RankingInTwoParts(edges, scene, first, second);
    CutInTwo(first, second, target);
  }

  /** Main result: the two-stage selection is the ranking cut off at the target count. */
  lemma {:induction false} SelectionIsOneSort(edges: seq<Edge>, scene: Scene)
    ensures InvestigationEdges(edges, scene)
         == Filter(edges, IsOther()) + EdgesOf(Ranking(edges, scene)[..Cutoff(edges, scene)])
  {
    SelectionCutsRanking(edges, scene, Ranking(edges, scene), Cutoff(edges, scene));
  }

  /** Main result: the relationships kept are the first ones of a list that holds every relationship once,
      best first; so none of the dropped ones outranks a kept one. */
  lemma {:induction false} KeepsTheBest(edges: seq<Edge>, scene: Scene)
    ensures multiset(Ranking(edges, scene)) == multiset(Candidates(edges, scene))
    ensures forall i, j :: 0 <= i < Cutoff(edges, scene) <= j < |Ranking(edges, scene)| ==>
              Outranks()(Ranking(edges, scene)[i], Ranking(edges, scene)[j])
    ensures Sorted(Ranking(edges, scene), Outranks())
  {
    SortPermutes(Candidates(edges, scene), Outranks());
    SortSorts(Candidates(edges, scene), Outranks());
  }
}
