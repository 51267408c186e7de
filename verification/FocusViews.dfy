/** The investigation views: which nodes are shown around a focused channel, conversation, message or
    actor. A node with the focus's id is a focus node; only "conversation" edges are followed. */
module FocusViews {
  import opened Options
  import opened Subgraph

  const CONVERSATION := "conversation"

  /** `graph.nodes[i]?.details?.id || ""` and `graph.nodes[i]?.kind`. */
  function IdAt(g: Graph, i: int): string {
    if 0 <= i < |g.nodes| then g.nodes[i].data.id else ""
  }

  predicate IsConversation(g: Graph, i: int) {
    0 <= i < |g.nodes| && g.nodes[i].data.kind == CONVERSATION
  }

  // ----- what each loop over the edges adds

  /** A conversation edge with a focus node at one end. */
  predicate Touches(g: Graph, focus: string, e: Edge) {
    e.kind == CONVERSATION && (IdAt(g, e.source) == focus || IdAt(g, e.target) == focus)
  }

  predicate TouchesConversation(g: Graph, focus: string, e: Edge) {
    Touches(g, focus, e) && (IsConversation(g, e.source) || IsConversation(g, e.target))
  }

  function Touching(g: Graph, focus: string): Edge -> bool {
    e => Touches(g, focus, e)
  }

  function TouchingConversation(g: Graph, focus: string): Edge -> bool {
    e => TouchesConversation(g, focus, e)
  }

  function LeavingConversation(conversations: set<int>): Edge -> bool {
    (e: Edge) => e.kind == CONVERSATION && (e.source in conversations || e.target in conversations)
  }

  function FocusTo(g: Graph, focus: string, n: nat): set<int>
    requires n <= |g.nodes|
  {
    if n == 0 then {}
    else FocusTo(g, focus, n - 1) + (if g.nodes[n - 1].data.id == focus then {g.nodes[n - 1].index} else {})
  }

  /** Both ends of the picked edges among the first `n`. */
  function EndsTo(edges: seq<Edge>, pick: Edge -> bool, n: nat): set<int>
    requires n <= |edges|
  {
    if n == 0 then {}
    else
      var e := edges[n - 1];
      EndsTo(edges, pick, n - 1) + (if pick(e) then {e.source, e.target} else {})
  }

  /** The ends, among the first `n` edges, that are conversations on an edge touching the focus. */
  function ConversationsTo(g: Graph, focus: string, n: nat): set<int>
    requires n <= |g.edges|
  {
    if n == 0 then {}
    else
      var e := g.edges[n - 1];
      ConversationsTo(g, focus, n - 1) +
      (if Touches(g, focus, e) && IsConversation(g, e.source) then {e.source} else {}) +
      (if Touches(g, focus, e) && IsConversation(g, e.target) then {e.target} else {})
  }

  function Focus(g: Graph, focus: string): set<int> {
    FocusTo(g, focus, |g.nodes|)
  }

  function Ends(g: Graph, pick: Edge -> bool): set<int> {
    EndsTo(g.edges, pick, |g.edges|)
  }

  function Conversations(g: Graph, focus: string): set<int> {
    ConversationsTo(g, focus, |g.edges|)
  }

  function ChannelKeep(g: Graph, focus: string): set<int> {
    Focus(g, focus) + Ends(g, TouchingConversation(g, focus))
  }

  function ConversationKeep(g: Graph, focus: string): set<int> {
    Focus(g, focus) + Ends(g, Touching(g, focus))
  }

  function DetailKeep(g: Graph, focus: string): set<int> {
    ConversationKeep(g, focus) + Ends(g, LeavingConversation(Conversations(g, focus)))
  }

  function OnlyConversation(): Edge -> bool {
    (e: Edge) => e.kind == CONVERSATION
  }

  // ----- the four views

  method ChannelConversationSubgraph(g: Graph, focus: string) returns (r: Graph)
    ensures r == Induced(g, ChannelKeep(g, focus), OnlyConversation())
  {
    var keep := FocusNodes(g, focus);
    for i := 0 to |g.edges|
      invariant keep == Focus(g, focus) + EndsTo(g.edges, TouchingConversation(g, focus), i)
    {
      var e := g.edges[i];
      if e.kind != CONVERSATION { continue; }
      if IdAt(g, e.source) != focus && IdAt(g, e.target) != focus { continue; }
      if !IsConversation(g, e.source) && !IsConversation(g, e.target) { continue; }
      keep := keep + {e.source, e.target};
    }
    r := SubgraphFromIndexes(g, keep, OnlyConversation());
  }

  method ConversationDetailSubgraph(g: Graph, focus: string) returns (r: Graph)
    ensures r == Induced(g, ConversationKeep(g, focus), OnlyConversation())
  {
    var keep := FocusNodes(g, focus);
    for i := 0 to |g.edges|
      invariant keep == Focus(g, focus) + EndsTo(g.edges, Touching(g, focus), i)
    {
      var e := g.edges[i];
      if e.kind != CONVERSATION { continue; }
      if IdAt(g, e.source) != focus && IdAt(g, e.target) != focus { continue; }
      keep := keep + {e.source, e.target};
    }
    r := SubgraphFromIndexes(g, keep, OnlyConversation());
  }

  method MessageDetailSubgraph(g: Graph, focus: string) returns (r: Graph)
    ensures r == Induced(g, DetailKeep(g, focus), OnlyConversation())
  {
    r := DetailSubgraph(g, focus);
  }

  method ActorConversationSubgraph(g: Graph, focus: string) returns (r: Graph)
    ensures r == Induced(g, DetailKeep(g, focus), OnlyConversation())
  {
    r := DetailSubgraph(g, focus);
  }

  /** The loop all four views start with. */
  method FocusNodes(g: Graph, focus: string) returns (keep: set<int>)
    ensures keep == Focus(g, focus)
  {
    keep := {};
    for i := 0 to |g.nodes|
      invariant keep == FocusTo(g, focus, i)
    {
      if g.nodes[i].data.id == focus {
        keep := keep + {g.nodes[i].index};
      }
    }
  }

  /** The message and actor views run the same two loops over the edges. */
  method DetailSubgraph(g: Graph, focus: string) returns (r: Graph)
    ensures r == Induced(g, DetailKeep(g, focus), OnlyConversation())
  {
    var keep := FocusNodes(g, focus);
    var conversations: set<int> := {};
    for i := 0 to |g.edges|
      invariant keep == Focus(g, focus) + EndsTo(g.edges, Touching(g, focus), i)
      invariant conversations == ConversationsTo(g, focus, i)
    {
      var e := g.edges[i];
      if e.kind != CONVERSATION { continue; }
      if IdAt(g, e.source) == focus || IdAt(g, e.target) == focus {
        keep := keep + {e.source, e.target};
        if IsConversation(g, e.source) { conversations := conversations + {e.source}; }
        if IsConversation(g, e.target) { conversations := conversations + {e.target}; }
      }
    }
    for i := 0 to |g.edges|
      invariant keep == ConversationKeep(g, focus) + EndsTo(g.edges, LeavingConversation(conversations), i)
    {
      var e := g.edges[i];
      if e.kind != CONVERSATION { continue; }
      if e.source !in conversations && e.target !in conversations { continue; }
      keep := keep + {e.source, e.target};
    }
    r := SubgraphFromIndexes(g, keep, OnlyConversation());
  }

  // ----- members of the kept sets

  lemma {:induction false} FocusMember(g: Graph, focus: string, n: nat, x: int)
    requires Dense(g) && n <= |g.nodes|
    ensures x in FocusTo(g, focus, n) <==> 0 <= x < n && g.nodes[x].data.id == focus
  {
    if n > 0 {
      FocusMember(g, focus, n - 1, x);
    }
  }

  ghost predicate EndOf(e: Edge, x: int) {
    x == e.source || x == e.target
  }

  lemma {:induction false} EndsMember(edges: seq<Edge>, pick: Edge -> bool, n: nat, x: int)
    requires n <= |edges|
    ensures x in EndsTo(edges, pick, n) <==> exists i :: 0 <= i < n && pick(edges[i]) && EndOf(edges[i], x)
  {
    if n > 0 {
      EndsMember(edges, pick, n - 1, x);
    }
  }

  lemma {:induction false} ConversationsMember(g: Graph, focus: string, n: nat, x: int)
    requires n <= |g.edges|
    ensures x in ConversationsTo(g, focus, n) <==>
              IsConversation(g, x) && exists i :: 0 <= i < n && Touches(g, focus, g.edges[i]) && EndOf(g.edges[i], x)
  {
    if n > 0 {
      ConversationsMember(g, focus, n - 1, x);
    }
  }

  // ----- the views nest

  lemma {:induction false} EndsMonotone(edges: seq<Edge>, pick: Edge -> bool, pick': Edge -> bool, n: nat)
    requires n <= |edges| && forall e :: pick(e) ==> pick'(e)
    ensures EndsTo(edges, pick, n) <= EndsTo(edges, pick', n)
  {
    if n > 0 {
      EndsMonotone(edges, pick, pick', n - 1);
    }
  }

  /** Main result: the channel view is part of the conversation view, which is part of the message and
      actor views. */
  lemma {:induction false} ViewsNest(g: Graph, focus: string)
    ensures ChannelKeep(g, focus) <= ConversationKeep(g, focus) <= DetailKeep(g, focus)
  {
    EndsMonotone(g.edges, TouchingConversation(g, focus), Touching(g, focus), |g.edges|);
  }

  // ----- the views in terms of distance from the focus

  /** Some conversation edge joins `i` and `j`. */
  ghost predicate Linked(g: Graph, i: int, j: int) {
    exists k :: 0 <= k < |g.edges| && LinkedBy(g.edges[k], i, j)
  }

  ghost predicate LinkedBy(e: Edge, i: int, j: int) {
    e.kind == CONVERSATION && ((e.source == i && e.target == j) || (e.source == j && e.target == i))
  }

  ghost predicate IsFocus(g: Graph, focus: string, i: int) {
    0 <= i < |g.nodes| && g.nodes[i].data.id == focus
  }

  /** A focus node, or a neighbour of one. */
  ghost predicate NearFocus(g: Graph, focus: string, i: int) {
    IsFocus(g, focus, i) || exists j :: IsFocus(g, focus, j) && Linked(g, j, i)
  }

  ghost predicate Absent(g: Graph, i: int) {
    !(0 <= i < |g.nodes|)
  }

  /** An absent node has the empty id. So when the focus has no id either, a conversation edge with an absent
      end counts as touching the focus, and both its ends are kept. */
  ghost predicate Strays(g: Graph, focus: string, x: int) {
    focus == "" && exists k :: 0 <= k < |g.edges| && StraysBy(g, g.edges[k], x)
  }

  ghost predicate StraysBy(g: Graph, e: Edge, x: int) {
    e.kind == CONVERSATION && EndOf(e, x) && (Absent(g, e.source) || Absent(g, e.target))
  }

  /** Everything the first step keeps. */
  ghost predicate Reached(g: Graph, focus: string, x: int) {
    NearFocus(g, focus, x) || Strays(g, focus, x)
  }

  lemma {:induction false} TouchIsReached(g: Graph, focus: string, k: nat, x: int)
    requires Dense(g) && k < |g.edges| && Touches(g, focus, g.edges[k]) && EndOf(g.edges[k], x)
    ensures Reached(g, focus, x)
  {
    var e := g.edges[k];
    var j := if IdAt(g, e.source) == focus then e.source else e.target;
    if Absent(g, j) {
      assert StraysBy(g, g.edges[k], x);
    } else {
      assert IsFocus(g, focus, j);
      if x != j {
        assert LinkedBy(g.edges[k], j, x);
      }
    }
  }

  lemma {:induction false} LinkTouches(g: Graph, focus: string, j: int, x: int) returns (k: nat)
    requires IsFocus(g, focus, j) && Linked(g, j, x)
    ensures k < |g.edges| && Touches(g, focus, g.edges[k]) && EndOf(g.edges[k], x) && EndOf(g.edges[k], j)
  {
    k :| 0 <= k < |g.edges| && LinkedBy(g.edges[k], j, x);
  }

  lemma {:induction false} StrayTouches(g: Graph, focus: string, x: int) returns (k: nat)
    requires Strays(g, focus, x)
    ensures k < |g.edges| && Touches(g, focus, g.edges[k]) && EndOf(g.edges[k], x)
  {
    k :| 0 <= k < |g.edges| && StraysBy(g, g.edges[k], x);
  }

  /** Main result: the conversation view keeps exactly the focus nodes and their neighbours, and, when the
      focus has no id, the ends of conversation edges that lead out of the graph. */
  lemma {:induction false} ConversationViewIsNeighbourhood(g: Graph, focus: string, x: int)
    requires Dense(g)
    ensures x in ConversationKeep(g, focus) <==> NearFocus(g, focus, x) || Strays(g, focus, x)
  {
    FocusMember(g, focus, |g.nodes|, x);
    EndsMember(g.edges, Touching(g, focus), |g.edges|, x);
    if x in ConversationKeep(g, focus) && !IsFocus(g, focus, x) {
      var k :| 0 <= k < |g.edges| && Touching(g, focus)(g.edges[k]) && EndOf(g.edges[k], x);
      TouchIsReached(g, focus, k, x);
    }
    if Strays(g, focus, x) {
      var k := StrayTouches(g, focus, x);
      assert Touching(g, focus)(g.edges[k]);
    } else if NearFocus(g, focus, x) && !IsFocus(g, focus, x) {
      var j :| IsFocus(g, focus, j) && Linked(g, j, x);
      var k := LinkTouches(g, focus, j, x);
      assert Touching(g, focus)(g.edges[k]);
    }
  }

  /** The node `c` is a conversation that the first step keeps, and `x` hangs off it. */
  ghost predicate Via(g: Graph, focus: string, c: int, x: int) {
    Reached(g, focus, c) && IsConversation(g, c) && Linked(g, c, x)
  }

  lemma {:induction false} ConversationIsReached(g: Graph, focus: string, c: int)
    requires Dense(g) && c in Conversations(g, focus)
    ensures Reached(g, focus, c) && IsConversation(g, c)
  {
    ConversationsMember(g, focus, |g.edges|, c);
    var i :| 0 <= i < |g.edges| && Touches(g, focus, g.edges[i]) && EndOf(g.edges[i], c);
    TouchIsReached(g, focus, i, c);
  }

  lemma {:induction false} ViaIsLeaving(g: Graph, focus: string, c: int, x: int)
    requires Dense(g) && Via(g, focus, c, x)
    ensures c in Conversations(g, focus)
  {
    ConversationsMember(g, focus, |g.edges|, c);
    if IsFocus(g, focus, c) {
      var k := LinkTouches(g, focus, c, x);
    } else if Strays(g, focus, c) {
      var k := StrayTouches(g, focus, c);
    } else {
      var j :| IsFocus(g, focus, j) && Linked(g, j, c);
      var k := LinkTouches(g, focus, j, c);
    }
  }

  /** Main result: the message and actor views add exactly the nodes one more edge away through a
      conversation that the first step keeps; so without strays no kept node is more than two conversation
      edges from a focus node. */
  lemma {:induction false} DetailViewIsTwoSteps(g: Graph, focus: string, x: int)
    requires Dense(g)
    ensures x in DetailKeep(g, focus) <==> Reached(g, focus, x) || exists c :: Via(g, focus, c, x)
  {
    ConversationViewIsNeighbourhood(g, focus, x);
    EndsMember(g.edges, LeavingConversation(Conversations(g, focus)), |g.edges|, x);
    if x in Ends(g, LeavingConversation(Conversations(g, focus))) {
      LeavingIsVia(g, focus, x);
    }
    if c :| Via(g, focus, c, x) {
      ViaIsLeaving(g, focus, c, x);
      var k :| 0 <= k < |g.edges| && LinkedBy(g.edges[k], c, x);
      assert LeavingConversation(Conversations(g, focus))(g.edges[k]) && EndOf(g.edges[k], x);
    }
  }

  lemma {:induction false} LeavingIsVia(g: Graph, focus: string, x: int)
    requires Dense(g) && x in Ends(g, LeavingConversation(Conversations(g, focus)))
    ensures Reached(g, focus, x) || exists c :: Via(g, focus, c, x)
  {
    var conversations := Conversations(g, focus);
    EndsMember(g.edges, LeavingConversation(conversations), |g.edges|, x);
    var k :| 0 <= k < |g.edges| && LeavingConversation(conversations)(g.edges[k]) && EndOf(g.edges[k], x);
    var e := g.edges[k];
    var c := if e.source in conversations then e.source else e.target;
    ConversationIsReached(g, focus, c);
    if x != c {
      assert LinkedBy(g.edges[k], c, x);
      assert Via(g, focus, c, x);
    }
  }

  // ----- when the views are the neighbourhoods they are meant to be

  /** Some conversation edge joins the node to an index outside the graph. */
  ghost predicate MeetsAbsent(g: Graph, x: int) {
    exists j :: Absent(g, j) && Linked(g, x, j)
  }

  /** Within two steps of the focus: near it, or next to a conversation that is. */
  ghost predicate WithinTwoSteps(g: Graph, focus: string, x: int) {
    NearFocus(g, focus, x) || exists c :: MidPoint(g, focus, c, x)
  }

  ghost predicate MidPoint(g: Graph, focus: string, c: int, x: int) {
    NearFocus(g, focus, c) && IsConversation(g, c) && Linked(g, c, x)
  }

  /** The node, or a conversation next to it, is joined to an absent index. */
  ghost predicate MeetsAbsentInTwo(g: Graph, x: int) {
    MeetsAbsent(g, x) || exists c :: LeadsOut(g, c, x)
  }

  ghost predicate LeadsOut(g: Graph, c: int, x: int) {
    IsConversation(g, c) && MeetsAbsent(g, c) && Linked(g, c, x)
  }

  lemma {:induction false} StraysExactlyWhenMeetsAbsent(g: Graph, focus: string, x: int)
    requires 0 <= x < |g.nodes|
    ensures Strays(g, focus, x) <==> focus == "" && MeetsAbsent(g, x)
  {
    if Strays(g, focus, x) {
      var k :| 0 <= k < |g.edges| && StraysBy(g, g.edges[k], x);
      var j := if Absent(g, g.edges[k].source) then g.edges[k].source else g.edges[k].target;
      assert LinkedBy(g.edges[k], x, j);
      assert Absent(g, j) && Linked(g, x, j);
    }
    if focus == "" && MeetsAbsent(g, x) {
      var j :| Absent(g, j) && Linked(g, x, j);
      var k :| 0 <= k < |g.edges| && LinkedBy(g.edges[k], x, j);
      assert StraysBy(g, g.edges[k], x);
    }
  }

  /** Main result: the conversation view shows nobody but the focus's neighbourhood exactly when the focus has
      an id or every node joined to an absent index is in the neighbourhood anyway. */
  lemma {:induction false} NoStrangersExactlyWhen(g: Graph, focus: string)
    requires Dense(g)
    ensures (forall x :: 0 <= x < |g.nodes| ==> (x in ConversationKeep(g, focus) <==> NearFocus(g, focus, x)))
       <==> focus != "" || (forall x :: 0 <= x < |g.nodes| && MeetsAbsent(g, x) ==> NearFocus(g, focus, x))
  {
    forall x | 0 <= x < |g.nodes|
      ensures (x in ConversationKeep(g, focus) <==> NearFocus(g, focus, x))
         <==> focus != "" || (MeetsAbsent(g, x) ==> NearFocus(g, focus, x))
    {
      ConversationViewIsNeighbourhood(g, focus, x);
      StraysExactlyWhenMeetsAbsent(g, focus, x);
    }
  }

  /** So an empty focus id can show a stranger: here the far end of the only edge, which leads out of the graph. */
  lemma {:induction false} EmptyFocusKeepsStrangers(g: Graph, x: nat, e: Edge)
    requires Dense(g) && g.edges == [e] && e.kind == CONVERSATION && x < |g.nodes|
    requires e.source == x && Absent(g, e.target) && g.nodes[x].data.id != ""
    ensures x in ConversationKeep(g, "") && !NearFocus(g, "", x)
  {
    ConversationViewIsNeighbourhood(g, "", x);
    assert StraysBy(g, g.edges[0], x);
  }

  lemma {:induction false} DetailViewOfNode(g: Graph, focus: string, x: int)
    requires Dense(g) && 0 <= x < |g.nodes|
    ensures x in DetailKeep(g, focus) <==>
              WithinTwoSteps(g, focus, x) || (focus == "" && MeetsAbsentInTwo(g, x))
  {
    DetailViewIsTwoSteps(g, focus, x);
    StraysExactlyWhenMeetsAbsent(g, focus, x);
    forall c | IsConversation(g, c)
      ensures Via(g, focus, c, x) <==> MidPoint(g, focus, c, x) || (focus == "" && LeadsOut(g, c, x))
    {
      StraysExactlyWhenMeetsAbsent(g, focus, c);
    }
    if c :| Via(g, focus, c, x) {
      assert MidPoint(g, focus, c, x) || (focus == "" && LeadsOut(g, c, x));
    }
    if c :| MidPoint(g, focus, c, x) {
      assert Via(g, focus, c, x);
    }
    if focus == "" && exists c :: LeadsOut(g, c, x) {
      var c :| LeadsOut(g, c, x);
      assert Via(g, focus, c, x);
    }
  }

  /** Main result: the same for the message and actor views and two steps. */
  lemma {:induction false} NoDetailStrangersExactlyWhen(g: Graph, focus: string)
    requires Dense(g)
    ensures (forall x :: 0 <= x < |g.nodes| ==> (x in DetailKeep(g, focus) <==> WithinTwoSteps(g, focus, x)))
       <==> focus != "" || (forall x :: 0 <= x < |g.nodes| && MeetsAbsentInTwo(g, x) ==> WithinTwoSteps(g, focus, x))
  {
    forall x | 0 <= x < |g.nodes|
      ensures (x in DetailKeep(g, focus) <==> WithinTwoSteps(g, focus, x))
         <==> focus != "" || (MeetsAbsentInTwo(g, x) ==> WithinTwoSteps(g, focus, x))
    {
      DetailViewOfNode(g, focus, x);
    }
  }

  // ----- when every edge of a view has two ends

  /** Every edge that the loop picks ends at nodes of the graph. */
  ghost predicate PicksInRange(g: Graph, pick: Edge -> bool) {
    forall i :: 0 <= i < |g.edges| && pick(g.edges[i]) ==> EndsIn(g.edges[i], |g.nodes|)
  }

  /** `keep` holds nodes and the ends of picked edges, which are conversation edges. */
  ghost predicate KeepsPicked(g: Graph, keep: set<int>, pick: Edge -> bool) {
    (forall i :: 0 <= i < |g.edges| && pick(g.edges[i]) ==> EdgeKept(g.edges[i], keep, OnlyConversation())) &&
    (forall x :: x in keep && Absent(g, x) ==>
       exists i :: 0 <= i < |g.edges| && pick(g.edges[i]) && EndOf(g.edges[i], x))
  }

  lemma {:induction false} ViewInRange(g: Graph, keep: set<int>, pick: Edge -> bool)
    requires Dense(g) && KeepsPicked(g, keep, pick)
    ensures InRange(Induced(g, keep, OnlyConversation())) <==> PicksInRange(g, pick)
  {
    InducedInRangeExactlyWhen(g, keep, OnlyConversation());
    if PicksInRange(g, pick) {
      assert forall x :: x in keep ==> !Absent(g, x);
    }
  }

  lemma {:induction false} KeepsOwnPicks(g: Graph, focus: string, pick: Edge -> bool, keep: set<int>)
    requires Dense(g) && forall e :: pick(e) ==> e.kind == CONVERSATION
    requires keep == Focus(g, focus) + Ends(g, pick)
    ensures KeepsPicked(g, keep, pick)
  {
    forall i | 0 <= i < |g.edges| && pick(g.edges[i]) ensures EdgeKept(g.edges[i], keep, OnlyConversation()) {
      EndsMember(g.edges, pick, |g.edges|, g.edges[i].source);
      EndsMember(g.edges, pick, |g.edges|, g.edges[i].target);
      assert EndOf(g.edges[i], g.edges[i].source) && EndOf(g.edges[i], g.edges[i].target);
    }
    forall x | x in keep && Absent(g, x)
      ensures exists i :: 0 <= i < |g.edges| && pick(g.edges[i]) && EndOf(g.edges[i], x)
    {
      FocusMember(g, focus, |g.nodes|, x);
      EndsMember(g.edges, pick, |g.edges|, x);
    }
  }

  /** What either loop of the message and actor views picks. */
  function PickedByEither(g: Graph, focus: string): Edge -> bool {
    (e: Edge) => Touching(g, focus)(e) || LeavingConversation(Conversations(g, focus))(e)
  }

  lemma {:induction false} EndsOfEither(edges: seq<Edge>, a: Edge -> bool, b: Edge -> bool, either: Edge -> bool,
                                        n: nat)
    requires n <= |edges| && forall e :: either(e) <==> a(e) || b(e)
    ensures EndsTo(edges, either, n) == EndsTo(edges, a, n) + EndsTo(edges, b, n)
  {
    if n > 0 {
      EndsOfEither(edges, a, b, either, n - 1);
    }
  }

  /** Main result: every edge of a view joins two of its nodes exactly when every conversation edge that the
      view follows does so in the graph; otherwise an end of it is undefined in the view. */
  lemma {:induction false} ViewsInRangeExactlyWhen(g: Graph, focus: string)
    requires Dense(g)
    ensures InRange(Induced(g, ChannelKeep(g, focus), OnlyConversation())) <==>
              PicksInRange(g, TouchingConversation(g, focus))
    ensures InRange(Induced(g, ConversationKeep(g, focus), OnlyConversation())) <==>
              PicksInRange(g, Touching(g, focus))
    ensures InRange(Induced(g, DetailKeep(g, focus), OnlyConversation())) <==>
              PicksInRange(g, Touching(g, focus)) && PicksInRange(g, LeavingConversation(Conversations(g, focus)))
  {
    var leaving := LeavingConversation(Conversations(g, focus));
    KeepsOwnPicks(g, focus, TouchingConversation(g, focus), ChannelKeep(g, focus));
    ViewInRange(g, ChannelKeep(g, focus), TouchingConversation(g, focus));
    KeepsOwnPicks(g, focus, Touching(g, focus), ConversationKeep(g, focus));
    ViewInRange(g, ConversationKeep(g, focus), Touching(g, focus));
    EndsOfEither(g.edges, Touching(g, focus), leaving, PickedByEither(g, focus), |g.edges|);
    KeepsOwnPicks(g, focus, PickedByEither(g, focus), DetailKeep(g, focus));
    ViewInRange(g, DetailKeep(g, focus), PickedByEither(g, focus));
  }

  /** One node, the focus, and a conversation edge from it to an index that is not there. */
  const DANGLING :=
    Graph([Node(0, None, NodeData("actor", "a", false, 1, "A"))], [Edge(0, 7, CONVERSATION, "", 1)])

  /** The view around it keeps the edge, and its far end is undefined. */
  lemma {:induction false} ViewWithUndefinedEnd()
    ensures var r := Induced(DANGLING, ConversationKeep(DANGLING, "a"), OnlyConversation());
            r.nodes == [Node(0, Some(0), DANGLING.nodes[0].data)] &&
            r.edges == [Edge(0, UNDEFINED, CONVERSATION, "", 1)]
  {
    var g := DANGLING;
    var keep := ConversationKeep(g, "a");
    assert Touches(g, "a", g.edges[0]);
    assert EndsTo(g.edges, Touching(g, "a"), 0) == {} && FocusTo(g, "a", 0) == {};
    assert keep == {0, 7};
    assert NodesTo(g.nodes, keep, 0) == [];
    var m := IndexMapTo(g.nodes, keep, 1);
    assert IndexMapTo(g.nodes, keep, 0) == map[];
    assert m == map[0 := 0];
    assert EdgesTo(g.edges, keep, OnlyConversation(), m, 0) == [];
  }

  // ----- the order of the edges does not matter

  ghost predicate SameEdges(g: Graph, g': Graph) {
    g.nodes == g'.nodes &&
    (forall i :: 0 <= i < |g.edges| ==> g.edges[i] in g'.edges) &&
    (forall i :: 0 <= i < |g'.edges| ==> g'.edges[i] in g.edges)
  }

  lemma {:induction false} LinkedSameEdges(g: Graph, g': Graph, i: int, j: int)
    requires SameEdges(g, g') && Linked(g, i, j)
    ensures Linked(g', i, j)
  {
    var k :| 0 <= k < |g.edges| && LinkedBy(g.edges[k], i, j);
    var l :| 0 <= l < |g'.edges| && g'.edges[l] == g.edges[k];
    assert LinkedBy(g'.edges[l], i, j);
  }

  lemma {:induction false} NearSameEdges(g: Graph, g': Graph, focus: string, x: int)
    requires SameEdges(g, g') && NearFocus(g, focus, x)
    ensures NearFocus(g', focus, x)
  {
    if IsFocus(g, focus, x) {
      assert IsFocus(g', focus, x);
    } else {
      var j :| IsFocus(g, focus, j) && Linked(g, j, x);
      LinkedSameEdges(g, g', j, x);
      assert IsFocus(g', focus, j);
    }
  }

  lemma {:induction false} StraysSameEdges(g: Graph, g': Graph, focus: string, x: int)
    requires SameEdges(g, g') && Strays(g, focus, x)
    ensures Strays(g', focus, x)
  {
    var k :| 0 <= k < |g.edges| && StraysBy(g, g.edges[k], x);
    var l :| 0 <= l < |g'.edges| && g'.edges[l] == g.edges[k];
    assert StraysBy(g', g'.edges[l], x);
  }

  lemma {:induction false} ReachedSameEdges(g: Graph, g': Graph, focus: string, x: int)
    requires SameEdges(g, g') && Reached(g, focus, x)
    ensures Reached(g', focus, x)
  {
    if NearFocus(g, focus, x) {
      NearSameEdges(g, g', focus, x);
    } else {
      StraysSameEdges(g, g', focus, x);
    }
  }

  lemma {:induction false} KeptSameEdges(g: Graph, g': Graph, focus: string, x: int)
    requires SameEdges(g, g') && Dense(g) && Dense(g')
    ensures x in ConversationKeep(g, focus) ==> x in ConversationKeep(g', focus)
    ensures x in DetailKeep(g, focus) ==> x in DetailKeep(g', focus)
  {
    ConversationViewIsNeighbourhood(g, focus, x);
    ConversationViewIsNeighbourhood(g', focus, x);
    DetailViewIsTwoSteps(g, focus, x);
    DetailViewIsTwoSteps(g', focus, x);
    if Reached(g, focus, x) {
      ReachedSameEdges(g, g', focus, x);
    }
    if c :| Via(g, focus, c, x) {
      ReachedSameEdges(g, g', focus, c);
      LinkedSameEdges(g, g', c, x);
      assert Via(g', focus, c, x);
    }
  }

  lemma {:induction false} EndsSameEdges(edges: seq<Edge>, edges': seq<Edge>, pick: Edge -> bool, pick': Edge -> bool,
                                         x: int)
    requires forall e :: pick(e) ==> pick'(e)
    requires forall i :: 0 <= i < |edges| ==> edges[i] in edges'
    requires x in EndsTo(edges, pick, |edges|)
    ensures x in EndsTo(edges', pick', |edges'|)
  {
    EndsMember(edges, pick, |edges|, x);
    EndsMember(edges', pick', |edges'|, x);
    var i :| 0 <= i < |edges| && pick(edges[i]) && EndOf(edges[i], x);
    var j :| 0 <= j < |edges'| && edges'[j] == edges[i];
    assert pick'(edges'[j]) && EndOf(edges'[j], x);
  }

  lemma {:induction false} ChannelSameEdges(g: Graph, g': Graph, focus: string, x: int)
    requires SameEdges(g, g') && x in ChannelKeep(g, focus)
    ensures x in ChannelKeep(g', focus)
  {
    SameFocus(g, g', focus, |g.nodes|);
    if x !in Focus(g, focus) {
      EndsSameEdges(g.edges, g'.edges, TouchingConversation(g, focus), TouchingConversation(g', focus), x);
    }
  }

  lemma {:induction false} SameFocus(g: Graph, g': Graph, focus: string, n: nat)
    requires g.nodes == g'.nodes && n <= |g.nodes|
    ensures FocusTo(g, focus, n) == FocusTo(g', focus, n)
  {
    if n > 0 {
      SameFocus(g, g', focus, n - 1);
    }
  }

  /** Main result: every view keeps the same nodes whatever order, or number of repeats, the edges come in. */
  lemma {:induction false} ViewsIgnoreEdgeOrder(g: Graph, g': Graph, focus: string)
    requires SameEdges(g, g') && Dense(g)
    ensures ChannelKeep(g, focus) == ChannelKeep(g', focus)
    ensures ConversationKeep(g, focus) == ConversationKeep(g', focus)
    ensures DetailKeep(g, focus) == DetailKeep(g', focus)
  {
    assert Dense(g');
    forall x | x in ChannelKeep(g, focus) ensures x in ChannelKeep(g', focus) { ChannelSameEdges(g, g', focus, x); }
    forall x | x in ChannelKeep(g', focus) ensures x in ChannelKeep(g, focus) { ChannelSameEdges(g', g, focus, x); }
    forall x | x in ConversationKeep(g, focus) ensures x in ConversationKeep(g', focus) {
      KeptSameEdges(g, g', focus, x);
    }
    forall x | x in ConversationKeep(g', focus) ensures x in ConversationKeep(g, focus) {
      KeptSameEdges(g', g, focus, x);
    }
    forall x | x in DetailKeep(g, focus) ensures x in DetailKeep(g', focus) { KeptSameEdges(g, g', focus, x); }
    forall x | x in DetailKeep(g', focus) ensures x in DetailKeep(g, focus) { KeptSameEdges(g', g, focus, x); }
  }
}
