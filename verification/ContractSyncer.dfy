/** The contract syncer: makes the ThreadrBot objects mirror the control plane's feed of contracts. */
module ContractSyncer {
  import opened Options
  import opened Kube

  const SYNCED_BY := "threadr.io/synced-by"
  const SYNCED_VALUE := "threadrbot-contract-syncer"
  const CONTRACT_ID := "threadr.io/control-plane-contract-id"

  /** One contract of the feed. Of the rendered bot only labels, annotations and spec are used. */
  datatype Contract = Contract(id: string, namespace: string, deploymentName: string,
                               labels: Strings, annotations: Strings, spec: BotSpec)

  type Feed = seq<Contract>

  function KeyOf(c: Contract): Key {
    Key(c.namespace, c.deploymentName)
  }

  function LabelsOf(c: Contract): Strings {
    c.labels[CONTRACT_ID := c.id][SYNCED_BY := SYNCED_VALUE]
  }

  function Desired(c: Contract): Bot {
    Bot(LabelsOf(c), c.annotations, c.spec, NO_STATUS, false)
  }

  predicate Synced(bot: Bot) {
    HasLabel(bot.labels, SYNCED_BY, SYNCED_VALUE)
  }

  // ----- what one apply and a whole sync make of the world

  function Applied(bots: map<Key, Bot>, c: Contract): map<Key, Bot> {
    bots[KeyOf(c) := StoredBot(bots, KeyOf(c), Desired(c))]
  }

  function AppliedTo(bots: map<Key, Bot>, feed: Feed, n: nat): map<Key, Bot>
    requires n <= |feed|
  {
    if n == 0 then bots else Applied(AppliedTo(bots, feed, n - 1), feed[n - 1])
  }

  function FeedKeys(feed: Feed, n: nat): set<Key>
    requires n <= |feed|
  {
    if n == 0 then {} else FeedKeys(feed, n - 1) + {KeyOf(feed[n - 1])}
  }

  function Orphans(bots: map<Key, Bot>, feed: Feed): set<Key> {
    set k | k in bots && Synced(bots[k]) && k !in FeedKeys(feed, |feed|)
  }

  /** The bots after a sync that succeeds. */
  function Mirror(bots: map<Key, Bot>, feed: Feed): map<Key, Bot> {
    var applied := AppliedTo(bots, feed, |feed|);
    applied - Orphans(applied, feed)
  }

  /** The namespace to create, if any. */
  function Named(namespace: string): set<string> {
    if namespace == "" then {} else {namespace}
  }

  function Namespaces(feed: Feed, n: nat): set<string>
    requires n <= |feed|
  {
    if n == 0 then {} else Namespaces(feed, n - 1) + Named(feed[n - 1].namespace)
  }

  /** The world after a sync that succeeds. */
  function Synchronized(w: World, feed: Feed): World {
    w.(bots := Mirror(w.bots, feed), namespaces := w.namespaces + Namespaces(feed, |feed|))
  }

  /** A sync that stopped after `n` applies and some deletions. */
  predicate Partial(bots: map<Key, Bot>, bots': map<Key, Bot>, feed: Feed, n: nat, deleted: set<Key>) {
    n <= |feed| && bots' == AppliedTo(bots, feed, n) - deleted &&
    deleted <= Orphans(AppliedTo(bots, feed, n), feed) && (deleted != {} ==> n == |feed|)
  }

  /** The world after a sync that may have stopped anywhere. */
  predicate PartlySynchronized(w: World, w': World, feed: Feed, n: nat, deleted: set<Key>) {
    w' == w.(bots := w'.bots, namespaces := w'.namespaces) && Partial(w.bots, w'.bots, feed, n, deleted) &&
    w.namespaces <= w'.namespaces <= w.namespaces + Namespaces(feed, |feed|)
  }

  lemma {:induction false} NamespacesGrow(feed: Feed, n: nat, m: nat)
    requires n <= m <= |feed|
    ensures Namespaces(feed, n) <= Namespaces(feed, m)
    decreases m
  {
    if n < m {
      NamespacesGrow(feed, n, m - 1);
    }
  }

  // ----- the syncer

  datatype Outcome = SyncDone | FeedFailed | ApplyFailed | DeleteFailed

  /** Creates the namespace unless there is none to create or it exists. */
  method EnsureNamespace(cluster: Cluster, namespace: string) returns (ok: bool)
    modifies cluster
    ensures cluster.world == old(cluster.world).(namespaces := cluster.world.namespaces)
    ensures cluster.world.namespaces == old(cluster.world.namespaces) ||
            cluster.world.namespaces == old(cluster.world.namespaces) + Named(namespace)
    ensures ok ==> cluster.world.namespaces == old(cluster.world.namespaces) + Named(namespace)
    ensures cluster.Healthy() ==> ok
  {
    if namespace == "" {
      return true;
    }
    var current := cluster.GetNamespace(namespace);
    match current
    case Missing => ok := cluster.CreateNamespace(namespace);
    case Failed => ok := false;
    case Found(_) => ok := true;
  }

  method ApplyContract(cluster: Cluster, c: Contract) returns (ok: bool)
    modifies cluster
    ensures cluster.world == old(cluster.world).(bots := cluster.world.bots, namespaces := cluster.world.namespaces)
    ensures cluster.world.namespaces == old(cluster.world.namespaces) ||
            cluster.world.namespaces == old(cluster.world.namespaces) + Named(c.namespace)
    ensures cluster.world.bots == Applied(old(cluster.world.bots), c) ||
            (!ok && cluster.world.bots == old(cluster.world.bots))
    ensures ok ==> cluster.world.namespaces == old(cluster.world.namespaces) + Named(c.namespace)
    ensures cluster.Healthy() ==> ok
  {
    var key, desired := KeyOf(c), Desired(c);
    ok := EnsureNamespace(cluster, c.namespace);
    if !ok {
      return;
    }
    var current := cluster.GetBot(key);
    match current
    case Missing =>
      ok := cluster.CreateBot(key, desired);
    case Failed =>
      ok := false;
    case Found(bot) =>
      var updated := bot.(spec := desired.spec, labels := desired.labels, annotations := desired.annotations);
      ok := cluster.UpdateBot(key, updated);
  }

  /** Deletes the labelled bots that the feed does not have. `deleted` lists those that are gone. */
  method DeleteOrphans(cluster: Cluster, expected: set<Key>) returns (ok: bool, ghost deleted: set<Key>)
    modifies cluster
    ensures cluster.world == old(cluster.world).(bots := old(cluster.world.bots) - deleted)
    ensures var orphans := set k | k in old(cluster.world.bots) && Synced(old(cluster.world.bots)[k]) && k !in expected;
            deleted <= orphans && (ok ==> deleted == orphans)
    ensures cluster.Healthy() ==> ok
  {
    deleted := {};
    var items;
    ghost var bots := cluster.world.bots;
    ghost var orphans := set k | k in bots && Synced(bots[k]) && k !in expected;
    ok, items := cluster.ListBots(SYNCED_BY, SYNCED_VALUE);
    assert bots - {} == bots;
    if !ok {
      return;
    }
    for i := 0 to |items|
      invariant cluster.world == old(cluster.world).(bots := bots - deleted)
      invariant ok && deleted <= orphans
      invariant forall j :: 0 <= j < i ==> items[j] in expected || items[j] in deleted
    {
      var key := items[i];
      if key in expected { continue; }
      assert key in orphans;
      ghost var before := deleted;
      var done, gone := cluster.DeleteBot(key);
      assert (bots - before) - {key} == bots - (before + {key});
      if cluster.world.bots == bots - (before + {key}) {
        deleted := before + {key};
      }
      if !done && !gone {
        ok := false;
        return;
      }
    }
    forall k | k in orphans ensures k in deleted {
      assert k in items;
    }
  }

  /** The loop over the contracts; `n` is how many of them were applied. */
  method ApplyAll(cluster: Cluster, feed: Feed) returns (ok: bool, expected: set<Key>, ghost n: nat)
    modifies cluster
    ensures cluster.world == old(cluster.world).(bots := cluster.world.bots, namespaces := cluster.world.namespaces)
    ensures n <= |feed| && cluster.world.bots == AppliedTo(old(cluster.world.bots), feed, n)
    ensures old(cluster.world.namespaces) <= cluster.world.namespaces
    ensures cluster.world.namespaces <= old(cluster.world.namespaces) + Namespaces(feed, |feed|)
    ensures ok ==> n == |feed| && expected == FeedKeys(feed, |feed|)
    ensures ok ==> cluster.world.namespaces == old(cluster.world.namespaces) + Namespaces(feed, |feed|)
    ensures cluster.Healthy() ==> ok
  {
    expected, n := {}, 0;
    ghost var bots := cluster.world.bots;
    for i := 0 to |feed|
      invariant n == i && expected == FeedKeys(feed, i)
      invariant cluster.world.bots == AppliedTo(bots, feed, i)
      invariant cluster.world == old(cluster.world).(bots := cluster.world.bots, namespaces := cluster.world.namespaces)
      invariant cluster.world.namespaces == old(cluster.world.namespaces) + Namespaces(feed, i)
    {
      NamespacesGrow(feed, i + 1, |feed|);
      expected := expected + {KeyOf(feed[i])};
      ok := ApplyContract(cluster, feed[i]);
      if !ok {
        n := if cluster.world.bots == AppliedTo(bots, feed, i) then i else i + 1;
        return;
      }
      n := i + 1;
    }
    ok := true;
  }

  /** One round of the sync loop; `contracts` is what the control plane answers, if it does. Main result:
      a round that succeeds leaves exactly the mirror of the feed, and one that fails leaves a partial
      sync; a failed apply deletes nothing. */
  method SyncOnce(cluster: Cluster, contracts: Option<Feed>)
    returns (outcome: Outcome, ghost n: nat, ghost deleted: set<Key>)
    modifies cluster
    ensures contracts.None? <==> outcome == FeedFailed
    ensures contracts.Some? && cluster.Healthy() ==> outcome == SyncDone
    ensures outcome == FeedFailed ==> cluster.world == old(cluster.world)
    ensures outcome == SyncDone ==> cluster.world == Synchronized(old(cluster.world), contracts.value)
    ensures contracts.Some? ==> PartlySynchronized(old(cluster.world), cluster.world, contracts.value, n, deleted)
    ensures outcome == ApplyFailed ==> deleted == {}
  {
    n, deleted := 0, {};
    if contracts.None? {
      return FeedFailed, n, deleted;
    }
    var ok, expected;
    ok, expected, n := ApplyAll(cluster, contracts.value);
    if !ok {
      assert cluster.world.bots == cluster.world.bots - {};
      return ApplyFailed, n, {};
    }
    ok, deleted := DeleteOrphans(cluster, expected);
    outcome := if ok then SyncDone else DeleteFailed;
  }

  // ----- what the mirror is, object by object

  function At(bots: map<Key, Bot>, k: Key): Option<Bot> {
    if k in bots then Some(bots[k]) else None
  }

  /** The last of the first `n` contracts with the key `k`. */
  function LastFor(feed: Feed, n: nat, k: Key): (i: nat)
    requires n <= |feed| && k in FeedKeys(feed, n)
    ensures i < n && KeyOf(feed[i]) == k
    ensures forall j :: i < j < n ==> KeyOf(feed[j]) != k
  {
    if KeyOf(feed[n - 1]) == k then n - 1 else LastFor(feed, n - 1, k)
  }

  lemma {:induction false} AppliedAt(bots: map<Key, Bot>, feed: Feed, n: nat, k: Key)
    requires n <= |feed|
    ensures At(AppliedTo(bots, feed, n), k)
         == if k in FeedKeys(feed, n) then Some(StoredBot(bots, k, Desired(feed[LastFor(feed, n, k)]))) else At(bots, k)
  {
    if n > 0 {
      AppliedAt(bots, feed, n - 1, k);
    }
  }

  /** The reference: what a mirror of the feed should hold at `k`. */
  function MirrorAt(bots: map<Key, Bot>, feed: Feed, k: Key): Option<Bot> {
    if k in FeedKeys(feed, |feed|) then Some(StoredBot(bots, k, Desired(feed[LastFor(feed, |feed|, k)])))
    else if k in bots && !Synced(bots[k]) then Some(bots[k])
    else None
  }

  /** Main result: after a successful sync every key of the feed holds the last contract's spec, labels and
      annotations with its status kept, every other object without the sync label is untouched, and
      nothing else is left. */
  lemma {:induction false} MirrorIsExact(bots: map<Key, Bot>, feed: Feed, k: Key)
    ensures At(Mirror(bots, feed), k) == MirrorAt(bots, feed, k)
    ensures k in Mirror(bots, feed) && Synced(Mirror(bots, feed)[k]) <==> k in FeedKeys(feed, |feed|)
  {
    AppliedAt(bots, feed, |feed|, k);
  }

  lemma {:induction false} SameEverywhere(a: map<Key, Bot>, b: map<Key, Bot>)
    requires forall k :: At(a, k) == At(b, k)
    ensures a == b
  {
    forall k ensures k in a <==> k in b {
      assert At(a, k) == At(b, k);
    }
    forall k | k in a ensures a[k] == b[k] {
      assert At(a, k) == At(b, k);
    }
  }

  lemma {:induction false} PartialAt(bots: map<Key, Bot>, bots': map<Key, Bot>, feed: Feed, n: nat, deleted: set<Key>,
                                     k: Key)
    requires Partial(bots, bots', feed, n, deleted)
    ensures At(bots', k)
         == if k in deleted then None
            else if k in FeedKeys(feed, n) then Some(StoredBot(bots, k, Desired(feed[LastFor(feed, n, k)])))
            else At(bots, k)
    ensures k in deleted ==> k in bots && Synced(bots[k]) && k !in FeedKeys(feed, |feed|)
    ensures k in FeedKeys(feed, n) ==> k in FeedKeys(feed, |feed|)
  {
    AppliedAt(bots, feed, n, k);
    FeedKeysGrow(feed, n, |feed|);
  }

  lemma {:induction false} FeedKeysGrow(feed: Feed, n: nat, m: nat)
    requires n <= m <= |feed|
    ensures FeedKeys(feed, n) <= FeedKeys(feed, m)
    decreases m
  {
    if n < m {
      FeedKeysGrow(feed, n, m - 1);
    }
  }

  /** Main result: a sync that fails anywhere is absorbed by the next full one: the two together give the
      world that the full sync alone gives. In particular a full sync repeated changes nothing. */
  lemma {:induction false} FailuresAbsorbed(w: World, w': World, feed: Feed, n: nat, deleted: set<Key>)
    requires PartlySynchronized(w, w', feed, n, deleted)
    ensures Synchronized(w', feed) == Synchronized(w, feed)
  {
    MirrorAbsorbs(w.bots, w'.bots, feed, n, deleted);
    assert w'.namespaces + Namespaces(feed, |feed|) == w.namespaces + Namespaces(feed, |feed|);
  }

  lemma {:induction false} MirrorAbsorbs(bots: map<Key, Bot>, bots': map<Key, Bot>, feed: Feed, n: nat,
                                         deleted: set<Key>)
    requires Partial(bots, bots', feed, n, deleted)
    ensures Mirror(bots', feed) == Mirror(bots, feed)
  {
    forall k ensures At(Mirror(bots', feed), k) == At(Mirror(bots, feed), k) {
      PartialAt(bots, bots', feed, n, deleted, k);
      MirrorIsExact(bots, feed, k);
      MirrorIsExact(bots', feed, k);
    }
    SameEverywhere(Mirror(bots', feed), Mirror(bots, feed));
  }

  /** An unlabelled object that the old feed's sync reached and the new feed does not have. */
  predicate AdoptedAndDropped(bots: map<Key, Bot>, stale: Feed, n: nat, feed: Feed, k: Key)
    requires n <= |stale|
  {
    k in bots && !Synced(bots[k]) && k in FeedKeys(stale, n) && k !in FeedKeys(feed, |feed|)
  }

  /** An object with some history that the old feed's sync deleted and the new feed has again. */
  predicate DeletedAndWanted(bots: map<Key, Bot>, deleted: set<Key>, feed: Feed, k: Key) {
    k in deleted && k in bots && k in FeedKeys(feed, |feed|) && (bots[k].status != NO_STATUS || bots[k].deleting)
  }

  /** Main result: when the feed changed in between, the earlier, possibly partial, sync is absorbed exactly
      when it adopted no manual object that the new feed drops and deleted no object with a status that the
      new feed has. */
  lemma {:induction false} StaleSyncAbsorbed(bots: map<Key, Bot>, bots': map<Key, Bot>, stale: Feed, n: nat,
                                             deleted: set<Key>, feed: Feed)
    requires Partial(bots, bots', stale, n, deleted)
    ensures Mirror(bots', feed) == Mirror(bots, feed) <==>
              forall k :: !AdoptedAndDropped(bots, stale, n, feed, k) && !DeletedAndWanted(bots, deleted, feed, k)
  {
    forall k
      ensures At(Mirror(bots', feed), k) == At(Mirror(bots, feed), k) <==>
                !AdoptedAndDropped(bots, stale, n, feed, k) && !DeletedAndWanted(bots, deleted, feed, k)
    {
      PartialAt(bots, bots', stale, n, deleted, k);
      MirrorIsExact(bots, feed, k);
      MirrorIsExact(bots', feed, k);
    }
    if forall k :: !AdoptedAndDropped(bots, stale, n, feed, k) && !DeletedAndWanted(bots, deleted, feed, k) {
      forall k ensures At(Mirror(bots', feed), k) == At(Mirror(bots, feed), k) {
        assert !AdoptedAndDropped(bots, stale, n, feed, k);
      }
      SameEverywhere(Mirror(bots', feed), Mirror(bots, feed));
    }
    if Mirror(bots', feed) == Mirror(bots, feed) {
      forall k ensures !AdoptedAndDropped(bots, stale, n, feed, k) && !DeletedAndWanted(bots, deleted, feed, k) {
        assert At(Mirror(bots', feed), k) == At(Mirror(bots, feed), k);
      }
    }
  }
}
