# A verified model of Threadr's cores

Threadr watches chat, draws the graph of who talks to whom, and runs its bots on Kubernetes. This project
models four compact cores of it in Dafny and proves what they are for.

- **The graph engine.** `Snapshot` is the row format that carries the graph to the browser, with the
  decoder and its defaults. `Subgraph` and `MaskTracking` are the renumbering subgraphs and the visibility
  filter; `FocusViews` the four views around a focus node; `Investigation` the choice of relationship edges;
  `HopMask` the breadth-first kernel; `StateMask` the three computations of the state filter; `GridClusters`
  and `Contraction` clustering and the contraction of edges. `Sorting`, `Text` and `Tally` are shared.
- **The bot operator.** `Kube` is the cluster: a store changed by API calls, each of which may succeed, be
  refused without effect, or take effect and still answer with an error. `ContractSyncer` makes the
  ThreadrBot objects mirror the control plane's feed, `Reconciler` makes Deployments and status reports
  from them, and `OperatorRuns` puts the two together: a sync followed by a round of reconciles, and every
  interleaving of syncs, deletions, stale reads, version conflicts and crashes around one bot.
- **The IRC splitter.** `MessageSplitter` is the loop that cuts a long message into chunks.
- **The comparison of two windows.** `CompareDelta` and `GroupedDelta`.

Loops are methods with invariants, proved equal to a specification function; the lemmas then say what that
function means. State that the source updates in place is a class: the cluster, the IRC connection, the
cluster record, and the mask buffers as arrays.

Verify everything with `dafny verify dfyconfig.toml`. Proofs by induction call themselves explicitly, so every
lemma turns the automatic kind off; in Dafny 4.11 its hypothesis covers ill-typed values too and can contradict
a `requires` that inputs meet.

## Findings

Where the code differs from what its documentation or its shape suggests, the model follows the code.

- The decoder reads state 0, "root cause", as 3, "unknown", so the root-cause switch never has an effect on
  a decoded graph (`Snapshot.RootCauseSwitchIsDead`).
- A report that fails after its status was stored is not sent again while the finding stays the same
  (`Reconciler.LostReportIsNotRetried`); `OperatorRuns.ReportsAgree` says exactly when the control plane has
  not been told what is stored.
- A manual ThreadrBot whose key is in the feed is adopted, and deleted when the feed drops it
  (`ContractSyncer.StaleSyncAbsorbed`).
- A stopped bot whose Deployment had to be created needs a second reconcile to be reported as stopped
  (`Reconciler.SecondReconcileIsQuiet`).
- A filter that hides every node hides none (`Subgraph.FilterShows`).
- Two pairs of clusters with a "|" in a name can share an accumulator entry, which then has the weight of
  both (`Contraction.BarsMergeWeights`); `Contraction.WeightPerPair` says exactly when a stored weight is
  right. Grid keys have no bar (`GridClusters.GridWeightPerPair`).
- With an empty focus id an edge to an index outside the graph counts as touching the focus, so the views
  can show strangers (`FocusViews.EmptyFocusKeepsStrangers`); `FocusViews.NoStrangersExactlyWhen` and
  `FocusViews.NoDetailStrangersExactlyWhen` say exactly when they do not.
- A full window whose only space is at its front makes an empty chunk (`MessageSplitter.EmptyChunk`), which
  is how a message can take twice as many chunks as it has windows (`MessageSplitter.ChunkCountIsTight`);
  single spaces between words never do (`MessageSplitter.NoEmptyChunks`).
- The window that ends exactly at the end of a message is still cut at its last space, so the rest of a
  message can take a second chunk although it fits one (`MessageSplitter.LastWindow`,
  `MessageSplitter.LastWindowIsCut`).
- The decoder accepts an edge to an index that is not there. Nodes and masks stay right for such a snapshot
  (`Snapshot.DecodedMaskBitIsOwnState`), and a visibility filter that hides some nodes and not all drops the
  edge; but a focus view that follows the edge keeps it with an undefined end
  (`FocusViews.ViewWithUndefinedEnd`).
  `Subgraph.InducedInRangeExactlyWhen`, `Subgraph.FilterInRangeExactlyWhen`,
  `FocusViews.ViewsInRangeExactlyWhen` and `Snapshot.DecodedInRangeExactlyWhen` say exactly when edges keep
  both ends.
- Two ThreadrBots may name one Deployment; the last one reconciled wins (`Reconciler.RoundSettlesExactlyWhen`).

## Model

| member | source | states |
|---|---|---|
| MessageSplitter.IRCAdapter.Send | pkg/adapters/messages/irc.go:109-156 | The connection gets the chunks of the message in order, up to and without the first one it refuses, and no call after that |
| MessageSplitter.RoundTrip | pkg/adapters/messages/irc.go:114-145 | Putting the skipped spaces back between the pieces rebuilds every message exactly |
| MessageSplitter.NonSpacesPreserved | pkg/adapters/messages/irc.go:114-145 | The chunks together hold every non-space byte once and in order |
| MessageSplitter.ChunksFit | pkg/adapters/messages/irc.go:111-138 | No chunk is longer than 400 bytes |
| MessageSplitter.WordsAreCutOnlyWhenTooLong | pkg/adapters/messages/irc.go:116-127 | Some word is cut if and only if the message has more than 400 bytes in a row without a space; every such cut ends a full chunk that starts such a run |
| MessageSplitter.ChunkCount | pkg/adapters/messages/irc.go:114-145 | A message over the limit takes at least one and at most two chunks per 401 bytes, which is within 2⌊(n−1)/400⌋+2 |
| MessageSplitter.ChunkCountIsTight | pkg/adapters/messages/irc.go:123-127 | For every k there is a message of k such windows that takes all 2k chunks |
| MessageSplitter.LastWindow | pkg/adapters/messages/irc.go:118-127 | What is left of a message and fits a window is one last chunk if and only if it is shorter than the window, ends in a space, or has no space |
| MessageSplitter.LastWindowIsCut | pkg/adapters/messages/irc.go:118-127 | A message of 800 bytes with two spaces goes out in three chunks, because its second window ends at its end and is still cut |
| MessageSplitter.EmptyChunk | pkg/adapters/messages/irc.go:118-131 | An empty chunk is cut off if and only if a full window has its only space at the front |
| MessageSplitter.NoEmptyChunks | pkg/adapters/messages/irc.go:114-145 | No chunk is empty unless the message is, or has a space, at its front or after another space, that 399 bytes without a space follow |
| HopMask.ComputeHopMask | elixir/threadr/assets/wasm/threadr_graph_exec/src/lib.rs:62-110 | For every graph, in-range start and hop bound, the buffer ends with 1 exactly at the nodes reached by a walk of at most that many undirected edges through in-range nodes; the nodes expanded are those closer than the bound, each once, and the number of looks at an edge is the number of those nodes times the number of edges, so at most nodes times edges; with a null buffer or a start out of range nothing is looked at or written |
| HopMask.ComputeThreeHopMask | elixir/threadr/assets/wasm/threadr_graph_exec/src/lib.rs:61-110 | The exported kernel does so for three hops, within nodes times edges looks |
| HopMask.ExpandNode | elixir/threadr/assets/wasm/threadr_graph_exec/src/lib.rs:94-105 | One scan of the edge list looks at each edge once, marks exactly the node's in-range neighbours and lists the newly marked ones, each once |
| HopMask.BallIsWithinHops | elixir/threadr/assets/wasm/threadr_graph_exec/src/lib.rs:86-109 | The set grown layer by layer holds exactly the nodes that some walk within the bound reaches |
| HopMask.WithinHopsSymmetric | elixir/threadr/assets/wasm/threadr_graph_exec/src/lib.rs:98-104 | Reach ignores the direction of edges: v is within the bound of u if and only if u is of v |
| HopMask.ExpandedAtMostOnce | elixir/threadr/assets/wasm/threadr_graph_exec/src/lib.rs:93-94 | A list of the expanded nodes without repeats is no longer than the number of nodes |
| HopMask.LayersEnd | elixir/threadr/assets/wasm/threadr_graph_exec/src/lib.rs:87-89 | Stopping at an empty frontier loses nothing: no further layer adds a node |
| StateMask.ComputeStateMask | elixir/threadr/assets/wasm/threadr_graph_exec/src/lib.rs:32-59 | Each byte of the buffer is 1 exactly when the switch for its node's state is on |
| StateMask.BuildBitmaps | elixir/threadr/native/threadr_graph_nif/src/lib.rs:21-47 | The four sets hold the indexes of the four classes, and the counts are their sizes in 32 bits |
| StateMask.MasksAgree | elixir/threadr/assets/js/lib/threadr_graph/rendering_graph_methods.js:229-249 | For every filter setting the kernel's mask is the fallback's; at every index membership in an enabled bitmap agrees too, as long as the indexes fit in 32 bits |
| StateMask.BitmapsPartition | elixir/threadr/native/threadr_graph_nif/src/lib.rs:21-47 | The bitmaps are disjoint and their sizes add up to the number of nodes if and only if the indexes fit in 32 bits |
| Subgraph.SubgraphFromIndexes | elixir/threadr/assets/js/lib/threadr_graph/rendering_graph_methods.js:704-735 | The two loops compute the induced subgraph that the following rows describe, for every test on edges (one that also looks at the nodes closes over them) |
| Subgraph.InducedNodes | elixir/threadr/assets/js/lib/threadr_graph/rendering_graph_methods.js:713-719 | New indexes are dense; the i-th node is the i-th kept node of the original, with its data and its mask index |
| Subgraph.InducedEdges | elixir/threadr/assets/js/lib/threadr_graph/rendering_graph_methods.js:721-728 | The edges are exactly the kept ones in order, each joining the same underlying nodes as before; an end that was at no node is undefined |
| Subgraph.InducedInRangeExactlyWhen | elixir/threadr/assets/js/lib/threadr_graph/rendering_graph_methods.js:721-728 | Every edge of a subgraph joins two of its nodes if and only if no kept edge led out of the graph |
| Subgraph.SubgraphOfSubgraph | elixir/threadr/assets/js/lib/threadr_graph/rendering_graph_methods.js:704-735 | A subgraph of a subgraph is one subgraph, on the nodes and edges that both keep, if and only if the second keeps no edge that the first left with an undefined end |
| Subgraph.FilterGraphByVisibility | elixir/threadr/assets/js/lib/threadr_graph/rendering_graph_methods.js:477-513 | The loop computes the filtered graph that the following rows describe |
| Subgraph.FilterAfterSubgraph | elixir/threadr/assets/js/lib/threadr_graph/rendering_graph_methods.js:477-513 | Filtering a subgraph is one subgraph on the kept nodes that are visible, or the subgraph itself when none is, if and only if the subgraph is empty, hides some node, or has no edge with an undefined end |
| Subgraph.FilterInRangeExactlyWhen | elixir/threadr/assets/js/lib/threadr_graph/rendering_graph_methods.js:477-513 | After the filter every edge joins two nodes if and only if it did before or some nodes are visible and some hidden |
| Subgraph.FilterShows | elixir/threadr/assets/js/lib/threadr_graph/rendering_graph_methods.js:482-490 | The filter leaves exactly the visible nodes in order when there is one, and everything when there is none |
| MaskTracking.RunTracksRoot | elixir/threadr/assets/js/lib/threadr_graph/rendering_graph_methods.js:12-20 | For every decoded graph and any sequence of subgraphs and filters, every node is the root node at its mask index, in the same order, and every edge with two ends is a root edge between those nodes; when the root's edges end at its nodes, no edge ever loses an end |
| MaskTracking.MaskBitIsOwnState | elixir/threadr/assets/js/lib/threadr_graph/rendering_graph_methods.js:473-475 | For every decoded graph and any such sequence the bit a node looks up in the root's mask is in range and is the one for its own state |
| MaskTracking.FilterLeavesExactlyShown | elixir/threadr/assets/js/lib/threadr_graph/rendering_graph_methods.js:664-682 | For every decoded graph and any such sequence, filtering leaves a node if and only if its own state is switched on and it is a cluster, of a shown kind, or focused; or there is no such node at all |
| FocusViews.ChannelConversationSubgraph | elixir/threadr/assets/js/lib/threadr_graph/rendering_graph_methods.js:737-767 | The view is the subgraph on the focus nodes and the ends of conversation edges that join a focus node and a conversation |
| FocusViews.ConversationDetailSubgraph | elixir/threadr/assets/js/lib/threadr_graph/rendering_graph_methods.js:769-798 | The view is the subgraph on the focus nodes and the ends of the conversation edges that touch one |
| FocusViews.MessageDetailSubgraph | elixir/threadr/assets/js/lib/threadr_graph/rendering_graph_methods.js:800-840 | The view adds the ends of every conversation edge at a conversation found in the first step |
| FocusViews.ActorConversationSubgraph | elixir/threadr/assets/js/lib/threadr_graph/rendering_graph_methods.js:842-881 | The same nodes as the message view |
| FocusViews.ViewsNest | elixir/threadr/assets/js/lib/threadr_graph/rendering_graph_methods.js:737-881 | The channel view's nodes are among the conversation view's, and those among the message and actor views' |
| FocusViews.ConversationViewIsNeighbourhood | elixir/threadr/assets/js/lib/threadr_graph/rendering_graph_methods.js:773-791 | The conversation view keeps a node if and only if it is a focus node, a neighbour of one, or, when the focus has no id, the end of a conversation edge with an absent end |
| FocusViews.DetailViewIsTwoSteps | elixir/threadr/assets/js/lib/threadr_graph/rendering_graph_methods.js:810-833 | The message and actor views keep a node if and only if the conversation view does or one conversation edge joins it to a conversation that the conversation view keeps |
| FocusViews.ViewsIgnoreEdgeOrder | elixir/threadr/assets/js/lib/threadr_graph/rendering_graph_methods.js:737-881 | Reordering or repeating edges changes no view's nodes, whatever the focus id and the endpoints |
| FocusViews.EmptyFocusKeepsStrangers | elixir/threadr/assets/js/lib/threadr_graph/rendering_graph_methods.js:770-790 | With an empty focus id and an edge to an absent node the view keeps a node that is not near the focus |
| FocusViews.NoStrangersExactlyWhen | elixir/threadr/assets/js/lib/threadr_graph/rendering_graph_methods.js:770-791 | The conversation view is exactly the focus nodes and their neighbours if and only if the focus has an id or every node that a conversation edge joins to an absent index is one of them anyway |
| FocusViews.NoDetailStrangersExactlyWhen | elixir/threadr/assets/js/lib/threadr_graph/rendering_graph_methods.js:804-833 | The message and actor views are exactly what lies within two steps through a conversation if and only if the focus has an id or every node joined to an absent index, directly or through a conversation, lies within two steps anyway |
| FocusViews.ViewsInRangeExactlyWhen | elixir/threadr/assets/js/lib/threadr_graph/rendering_graph_methods.js:737-881 | Every edge of a view joins two of its nodes if and only if every conversation edge that the view follows ends at nodes of the graph |
| FocusViews.ViewWithUndefinedEnd | elixir/threadr/assets/js/lib/threadr_graph/rendering_graph_methods.js:769-798 | The conversation view of a node with an edge to an absent index keeps the edge with an undefined end |
| Investigation.EdgeKeyDetermines | elixir/threadr/assets/js/lib/threadr_graph/rendering_graph_methods.js:465-467 | Two edges of the same kind with the same key have the same label and endpoints, whatever characters the label has |
| Investigation.KeysSeparate | elixir/threadr/assets/js/lib/threadr_graph/rendering_graph_methods.js:419-421 | Removing the preserved keys removes exactly the preserved edges |
| Investigation.SelectionIsOneSort | elixir/threadr/assets/js/lib/threadr_graph/rendering_graph_methods.js:395-427 | The two-stage selection is all other edges in order followed by the first min(total, cap) of one stable sort of the relationships, focus first and score second |
| Investigation.KeepsTheBest | elixir/threadr/assets/js/lib/threadr_graph/rendering_graph_methods.js:409-426 | That sort holds every relationship once and no dropped one outranks a kept one |
| Sorting.SortIsStable | elixir/threadr/assets/js/lib/threadr_graph/rendering_graph_methods.js:411-422 | The sort keeps the order among elements that tie |
| Sorting.SortIsCanonical | elixir/threadr/lib/threadr/compare_delta.ex:90 | Under an antisymmetric order the sorted list depends only on the elements |
| Contraction.ClusterEdges | elixir/threadr/assets/js/lib/threadr_graph/layout_cluster_methods.js:157-183 | The loop computes the contraction that the following rows describe |
| Contraction.WeightPerPair | elixir/threadr/assets/js/lib/threadr_graph/layout_cluster_methods.js:165-177 | The weight stored for two clusters and a kind is the total effective weight of the input edges of that kind between them, in either direction, if and only if no crossing edge of another pair or kind has the same key |
| Contraction.BarFreeWeights | elixir/threadr/assets/js/lib/threadr_graph/layout_cluster_methods.js:165-177 | Without a bar in a cluster name every stored weight is right |
| Contraction.BarsMergeWeights | elixir/threadr/assets/js/lib/threadr_graph/layout_cluster_methods.js:167 | Four clusters, two of them with a bar in the name, and two edges of weight 1 between them: the first pair is stored with weight 2 |
| Contraction.ContractionConserves | elixir/threadr/assets/js/lib/threadr_graph/layout_cluster_methods.js:157-183 | For all cluster names: the final filter drops nothing, the weights add up to those of the crossing edges, each edge's label counts add up to its weight, none is a loop, and no two join the same clusters with the same kind |
| Contraction.DirectionIgnored | elixir/threadr/assets/js/lib/threadr_graph/layout_cluster_methods.js:165-167 | Reversing any of the input edges changes nothing |
| Contraction.LeaderLeads | elixir/threadr/assets/js/lib/threadr_graph/layout_cluster_methods.js:178 | The label of a cluster edge has the highest count |
| GridClusters.ClusterRecord.MergeNode | elixir/threadr/assets/js/lib/threadr_graph/layout_cluster_methods.js:103-111 | The record becomes the merge of its old value and the node |
| GridClusters.BuildClusters | elixir/threadr/assets/js/lib/threadr_graph/layout_cluster_methods.js:60-73 | The loop leaves fresh records whose values are the clusters in order of first appearance, for any assignment of keys |
| GridClusters.ReclusterByGrid | elixir/threadr/assets/js/lib/threadr_graph/layout_cluster_methods.js:59-87 | The result is the nodes and the contracted edges of the grid clustering |
| GridClusters.GroupPartitions | elixir/threadr/assets/js/lib/threadr_graph/layout_cluster_methods.js:64-73 | Ids are distinct and exactly the keys in use; each cluster has the count and coordinate sums of the nodes with its key, and together they have those of all nodes |
| GridClusters.CentroidsBalance | elixir/threadr/assets/js/lib/threadr_graph/layout_cluster_methods.js:103-137 | The cluster nodes' counts add up to the number of nodes, and their positions, weighted by count, to the nodes' coordinates |
| GridClusters.CentroidInOwnCell | elixir/threadr/assets/js/lib/threadr_graph/layout_cluster_methods.js:113-132 | Each cluster is named after a cell of the grid and its centroid lies in that cell |
| GridClusters.ReclusteringIsStable | elixir/threadr/assets/js/lib/threadr_graph/layout_cluster_methods.js:59-87 | Clustering the clusters again merges nothing and moves nothing |
| GridClusters.GridContractionConserves | elixir/threadr/assets/js/lib/threadr_graph/layout_cluster_methods.js:75-86 | Contraction along the grid keeps the total weight between different cells; its edges end at the clusters and none is a loop |
| GridClusters.GridWeightPerPair | elixir/threadr/assets/js/lib/threadr_graph/layout_cluster_methods.js:64-86 | Along the grid the weight stored for two cells and a kind is that of the edges of the kind between them |
| Snapshot.EncodeSnapshot | elixir/threadr/native/threadr_graph_nif/src/lib.rs:67-150 | The two loops build the thirteen columns, node rows first, with coordinates and sizes rounded to 32 bits; two more columns repeat the schema version and the low 32 bits of the revision in every row |
| Snapshot.DecodeGraph | elixir/threadr/assets/js/lib/threadr_graph/lifecycle_stream_methods.js:57-106 | The loop over the rows computes the decoded graph that the following rows describe |
| Snapshot.DecodedIsDense | elixir/threadr/assets/js/lib/threadr_graph/lifecycle_stream_methods.js:75-97 | Whatever the table, nodes are numbered by position and the two index arrays are the edges' endpoints |
| Snapshot.RoundTrip | elixir/threadr/assets/js/lib/threadr_graph/lifecycle_stream_methods.js:62-106 | Decoding an encoded snapshot gives the same nodes and edges in order, up to that rounding and the decoder's defaults |
| Snapshot.LosslessExactlyWhenPlain | elixir/threadr/assets/js/lib/threadr_graph/lifecycle_stream_methods.js:77-95 | It gives every field back, details as they read, if and only if no state, size or weight is zero, no node label or kind and no edge kind is empty, and coordinates and sizes fit in 32 bits |
| Snapshot.SecondTripIsIdentity | elixir/threadr/assets/js/lib/threadr_graph/lifecycle_stream_methods.js:75-95 | A second trip changes nothing |
| Snapshot.DecodedMaskBitIsOwnState | elixir/threadr/assets/js/lib/threadr_graph/lifecycle_stream_methods.js:75-106 | For every snapshot and any steps from its decoded graph, each node finds in the mask of the decoded states the bit for its own state |
| Snapshot.DecodedInRangeExactlyWhen | elixir/threadr/assets/js/lib/threadr_graph/lifecycle_stream_methods.js:75-106 | The edges of a decoded snapshot all end at its nodes, which is what keeps their ends through any steps, if and only if each was written with endpoints below the number of nodes |
| Snapshot.RootCauseSwitchIsDead | elixir/threadr/assets/js/lib/threadr_graph/lifecycle_stream_methods.js:79 | On every decoded snapshot the mask is the same with the root-cause switch on and off |
| CompareDelta.DeltaIsMultisetDifference | elixir/threadr/lib/threadr/compare_delta.ex:13-98 | Label by label and in total, added is comparison minus baseline as multisets, removed the other way, unchanged their intersection |
| CompareDelta.LabelConserved | elixir/threadr/lib/threadr/compare_delta.ex:76-91 | For every label baseline plus added minus removed is comparison |
| CompareDelta.TotalsConserved | elixir/threadr/lib/threadr/compare_delta.ex:25-30 | Added plus unchanged is the comparison count and removed plus unchanged the baseline count |
| CompareDelta.SwapSwaps | elixir/threadr/lib/threadr/compare_delta.ex:13-40 | Swapping the windows swaps added with removed and keeps unchanged, whatever order the maps are walked in |
| CompareDelta.DeltaIsCanonical | elixir/threadr/lib/threadr/compare_delta.ex:76-91 | A delta list depends only on the items in the windows, not on their order or the map's |
| CompareDelta.DeltaStrictlyOrdered | elixir/threadr/lib/threadr/compare_delta.ex:90 | The list is strictly ordered by descending count and ascending label, and counts are positive |
| CompareDelta.DecoratingRecoversEntity | elixir/threadr/lib/threadr/compare_delta.ex:100-107 | For every entity with a non-empty type and a non-empty canonical name, or else plain name, splitting the label gives them back if and only if the type holds no colon followed by a space |
| CompareDelta.DecoratingRecoversFact | elixir/threadr/lib/threadr/compare_delta.ex:168-196 | For non-empty parts, splitting the label gives them back if and only if neither subject nor predicate contains a space |
| CompareDelta.FrequenciesCount | elixir/threadr/lib/threadr/compare_delta.ex:69-74 | The count stored for a label is its multiplicity |
| GroupedDelta.GroupingConserves | elixir/threadr/lib/threadr/compare_delta.ex:115-142 | Each group's count is what its entries add up to, and the groups together add up to all entries, by type as by subject |
| GroupedDelta.GroupConserved | elixir/threadr/lib/threadr/compare_delta.ex:31-32 | In every group by itself, what the baseline has plus what is listed as added is what the comparison has plus what is listed as removed |
| GroupedDelta.EntitiesConserved | elixir/threadr/lib/threadr/compare_delta.ex:13-40 | Comparing entities: for every label and every type, the items of the baseline plus what is listed as added are the items of the comparison plus what is listed as removed |
| GroupedDelta.FactsConserved | elixir/threadr/lib/threadr/compare_delta.ex:42-67 | Comparing facts: the same for every label and every subject |
| ContractSyncer.EnsureNamespace | k8s/operators/ircbot-operator/internal/controller/threadrbot_contract_syncer.go:119-139 | Success leaves the namespace in place; either way no namespace but this one is added, none is lost, and nothing else changes |
| ContractSyncer.ApplyContract | k8s/operators/ircbot-operator/internal/controller/threadrbot_contract_syncer.go:87-117 | Success stores the contract's spec, labels and annotations at its key and keeps the status; failure does that or nothing; no namespace but the contract's is added |
| ContractSyncer.ApplyAll | k8s/operators/ircbot-operator/internal/controller/threadrbot_contract_syncer.go:70-78 | The bots are those after the first applies in order, all of them on success; only namespaces of the feed are added |
| ContractSyncer.DeleteOrphans | k8s/operators/ircbot-operator/internal/controller/threadrbot_contract_syncer.go:141-164 | Only labelled bots outside the feed are deleted, and all of them on success |
| ContractSyncer.SyncOnce | k8s/operators/ircbot-operator/internal/controller/threadrbot_contract_syncer.go:64-85 | Success leaves exactly the mirror of the feed and its namespaces; a failure leaves the first applies, some deletions, none of them when an apply failed, and some of the feed's namespaces; no failing call means success |
| ContractSyncer.MirrorIsExact | k8s/operators/ircbot-operator/internal/controller/threadrbot_contract_syncer.go:64-117 | In the mirror each feed key has the last contract's spec, labels and annotations with the old status, unlabelled objects elsewhere are untouched, and the labelled objects are exactly the feed's keys |
| ContractSyncer.FailuresAbsorbed | k8s/operators/ircbot-operator/internal/controller/threadrbot_contract_syncer.go:64-85 | A sync that stopped anywhere, followed by a full one on the same feed, gives the world, bots and namespaces, that the full one gives alone |
| ContractSyncer.StaleSyncAbsorbed | k8s/operators/ircbot-operator/internal/controller/threadrbot_contract_syncer.go:64-85 | When the feed changed in between this holds for the bots if and only if the earlier sync adopted no manual object that the new feed drops and deleted no object with a status that the new feed has |
| Reconciler.ManagedVolumesMatch | k8s/operators/ircbot-operator/internal/controller/threadrbot_controller.go:347-371 | True exactly when names and secrets agree position by position |
| Reconciler.ManagedContainersMatch | k8s/operators/ircbot-operator/internal/controller/threadrbot_controller.go:329-345 | True exactly when name, image, environment and mounts agree position by position |
| Reconciler.ManagedFieldsMatch | k8s/operators/ircbot-operator/internal/controller/threadrbot_controller.go:319-327 | True exactly when every desired entry is there, a missing one counting as empty; others may be there too |
| Reconciler.DeploymentUpdateReasons | k8s/operators/ircbot-operator/internal/controller/threadrbot_controller.go:251-308 | Lists the compared fields that differ in order; empty exactly when the deployment matches the desired one on all of them |
| Reconciler.DeploymentNeedsUpdate | k8s/operators/ircbot-operator/internal/controller/threadrbot_controller.go:247-249 | True exactly when the deployment does not match |
| Reconciler.DeleteDeploymentIfPresent | k8s/operators/ircbot-operator/internal/controller/threadrbot_controller.go:387-399 | Success means that the deployment is gone and nothing else changed; a deployment that is not there costs no delete |
| Reconciler.UpdateBotStatus | k8s/operators/ircbot-operator/internal/controller/threadrbot_controller.go:401-434 | No call is made when the finding is equivalent to the stored status; otherwise the status is stored and then reported, one call each, stopping at the first that fails |
| Reconciler.BringInLine | k8s/operators/ircbot-operator/internal/controller/threadrbot_controller.go:55-118 | Up to the status: the deployment is brought in line or left as it was, with one writing call if it was not settled and none if it was, and the status and phase found are those that the specification names |
| Reconciler.Reconcile | k8s/operators/ircbot-operator/internal/controller/threadrbot_controller.go:45-120 | A reconcile passes from deployment to status to report, stops at the first call that fails, ends with all three on success, and succeeds when no call fails; it makes exactly the writing calls and reports that are needed on success, and never more |
| Reconciler.ReconcileSettles | k8s/operators/ircbot-operator/internal/controller/threadrbot_controller.go:57-120 | After one successful reconcile the deployment matches the desired one on every compared field, or is gone for a bot that is leaving |
| Reconciler.QuietNeedsNoCalls | k8s/operators/ircbot-operator/internal/controller/threadrbot_controller.go:90-118 | No call is needed if and only if the deployment is settled and the finding is no news |
| Reconciler.ThirdReconcileIsQuiet | k8s/operators/ircbot-operator/internal/controller/threadrbot_controller.go:45-120 | For every bot, world and defaulting that leaves the compared fields alone, the third reconcile in a row needs no writing call and no report, so it makes none, and the deployment is settled |
| Reconciler.SecondReconcileIsQuiet | k8s/operators/ircbot-operator/internal/controller/threadrbot_controller.go:77-118 | The second one is already quiet if and only if the bot is leaving, had a deployment, or is not "stopped" |
| Reconciler.LostReportIsNotRetried | k8s/operators/ircbot-operator/internal/controller/threadrbot_controller.go:422-433 | After a reconcile that stopped before its report, the next one reports nothing if and only if the bot is leaving, had a deployment, or is not "stopped" |
| Reconciler.RoundSettles | k8s/operators/ircbot-operator/internal/controller/threadrbot_controller.go:57-120 | A bot whose deployment no other bot of the round claims is settled after a reconcile of each, in any order and whatever the others share |
| Reconciler.RoundSettlesExactlyWhen | k8s/operators/ircbot-operator/internal/controller/threadrbot_controller.go:57-120 | After a reconcile of each bot in any order a bot is settled if and only if the last one that claims its deployment wants the same: none, or the same deployment but for its owner |
| Reconciler.RoundKeepsTheRest | k8s/operators/ircbot-operator/internal/controller/threadrbot_controller.go:57-120 | A round touches no deployment that none of its bots claims |
| Reconciler.SharedDeploymentsClash | k8s/operators/ircbot-operator/internal/controller/threadrbot_controller.go:251-308 | When one of two bots that claim a deployment has what it asks for, so has the other if and only if both are leaving, or neither is and they ask for the same deployment but for its owner |
| OperatorRuns.SyncThenReconcileServes | k8s/operators/ircbot-operator/internal/controller/threadrbot_contract_syncer.go:64-85 | After a successful sync and a reconcile of every bot in any order, a key's last contract has a matching deployment, or none when it says "deleted" or its object is being deleted, if and only if the last bot that claims that deployment wants the same; so it has when no other claims it |
| OperatorRuns.GenerationsAdvance | k8s/operators/ircbot-operator/internal/controller/threadrbot_controller.go:401-434 | Along every run whose feed generations never decrease, the stored observed generation never exceeds the stored spec's, and the reported generations never decrease |
| OperatorRuns.FeedMustNotGoBack | k8s/operators/ircbot-operator/internal/controller/threadrbot_controller.go:408-409 | After a reconcile, one more contract keeps the observed generation within the spec if and only if its generation is no lower |
| OperatorRuns.ReportsAgree | k8s/operators/ircbot-operator/internal/controller/threadrbot_controller.go:422-433 | Along every run, with all its crashes, refusals and lost answers, the stored status is what the last report said or the one under way says (phase, generation, deployment name, time and replica counts), unless the report of the last status write is owed: its answer was lost, or it was refused or crashed away; when the clock advances this is so if and only if the object is absent, new, or no report is owed |
| OperatorRuns.ReconcileIsThreeSteps | k8s/operators/ircbot-operator/internal/controller/threadrbot_controller.go:45-120 | A reconcile that nothing interrupts, taken step by step from any state, stores and reports exactly what the reconciler's specification says, about the current spec |

## Left out

- Floating point: coordinates, sizes and centroids are reals; the encoder's rounding to 32 bits is a parameter that keeps zero, twelve and what is rounded already; edge scores are doubled to stay whole.
- Edgeless graphs in the browser: the allocator answers a request for zero bytes with null, and the kernel then leaves the mask unwritten. `HopMask.ComputeHopMask` says so for a null buffer; the JavaScript wrapper around it is not modelled.
- Arrow encoding, roaring serialisation, the snapshot's metadata and frame header, and WebAssembly memory: columns are sequences and bitmaps sets.
- JSON details and the position in a default label are parameters of the decoder; `Snapshot.SecondTripIsIdentity` asks that details survive being written and read.
- Clustering by neighborhood: the same loop with another key and profile fields; `GridClusters.GroupPartitions` holds for any keys.
- JavaScript lists integer-like object keys before others, so on a tie between such labels `Contraction.LeaderLeads` may name another one of the highest.
- The message and actor views are written out twice in the source and share one method here.
- The people and topic highlights of a comparison, which are plain filters.
- JavaScript counts labels in an object that inherits names, so a label such as "constructor" turns its count into text; `Contraction.ContractionConserves` and `Contraction.LeaderLeads` are about tallies without inherited names.
- Maps of a comparison are walked in some order that is a parameter; every statement holds for all orders.
- Drawing, colours, panels, buttons, and the selection and pin flags.
- Widths of Go integers, and nil against empty maps and slices where Go compares deeply.
- Owner references: an update leaves them as they are, a failure to set one is not modelled, and neither is the cluster's own garbage collection, its watches, or the immutability of selectors.
- Other writers during `Reconciler.Reconcile`: there the world changes only by the reconcile's own calls. `OperatorRuns` lets them in between any two calls, as version conflicts and stale reads, for one bot and with the deployment's status as an arbitrary observation.
- The transport to the control plane, Phoenix, NATS, Discord, the bots themselves, and job clean-up.
