/** The bot reconciler: keeps one Deployment per ThreadrBot and reports what it observes. */
module Reconciler {
  import opened Options
  import opened Kube
  import Text

  // ----- the desired deployment

  const BOT_ID := "threadr.io/bot-id"
  const GENERATION := "threadr.io/control-plane-generation"

  function ManagedLabels(spec: BotSpec): Strings {
    map["app.kubernetes.io/name" := "threadr-bot",
        "app.kubernetes.io/managed-by" := "threadrbot-controller",
        BOT_ID := spec.botId,
        "threadr.io/tenant-id" := spec.tenantId,
        "threadr.io/tenant-subject" := spec.tenantSubject]
  }

  function BotContainer(spec: BotSpec): Container {
    Container(if spec.containerName != "" then spec.containerName else "threadr-bot",
              spec.image,
              [FromConfigMap("threadr-worker-config"), FromSecret("threadr-control-plane-env"),
               FromSecret("threadr-nats-auth")],
              [EnvVar("THREADR_BROADWAY_ENABLED", "false")] + spec.env,
              [Mount("nats-ca", "/etc/threadr/nats/ca", true), Mount("nats-client", "/etc/threadr/nats/client", true)],
              map[])
  }

  function DeploymentKey(key: Key, bot: Bot): Key {
    Key(key.namespace, bot.spec.deploymentName)
  }

  function DesiredDeployment(key: Key, bot: Bot): Deployment {
    var labels := bot.labels + ManagedLabels(bot.spec);
    Deployment(labels, map[GENERATION := Text.IntText(bot.spec.generation)],
               DeploymentSpec(Some(bot.spec.replicas), map[BOT_ID := bot.spec.botId], labels, map[], "threadr-bot",
                              Some(false),
                              [Volume("nats-ca", Some("threadr-nats-ca"), map[]),
                               Volume("nats-client", Some("threadr-nats-worker-client"), map[])],
                              [BotContainer(bot.spec)], ["ghcr-io-cred"], map[]),
               NO_DEPLOYMENT_STATUS, Some(key))
  }

  // ----- which differences count

  /** Go's map lookup: a missing key reads as the empty string. */
  function Lookup(m: Strings, k: string): string {
    if k in m then m[k] else ""
  }

  ghost predicate FieldsMatch(current: Strings, desired: Strings) {
    forall k :: k in desired ==> Lookup(current, k) == desired[k]
  }

  predicate VolumesMatch(current: seq<Volume>, desired: seq<Volume>) {
    |current| == |desired| &&
    forall i :: 0 <= i < |desired| ==> current[i].name == desired[i].name && current[i].secret == desired[i].secret
  }

  predicate SameContainer(c: Container, d: Container) {
    c.name == d.name && c.image == d.image && c.envFrom == d.envFrom && c.env == d.env && c.mounts == d.mounts
  }

  predicate ContainersMatch(current: seq<Container>, desired: seq<Container>) {
    |current| == |desired| && forall i :: 0 <= i < |desired| ==> SameContainer(current[i], desired[i])
  }

  /** The deployment agrees with the desired one on every field that the controller compares. */
  ghost predicate Matches(current: Deployment, desired: Deployment) {
    var c, d := current.spec, desired.spec;
    c.replicas == d.replicas && c.selector == d.selector && c.templateLabels == d.templateLabels &&
    c.templateAnnotations == d.templateAnnotations && c.serviceAccount == d.serviceAccount &&
    c.automount == d.automount && VolumesMatch(c.volumes, d.volumes) &&
    ContainersMatch(c.containers, d.containers) && c.pullSecrets == d.pullSecrets &&
    FieldsMatch(current.labels, desired.labels) && FieldsMatch(current.annotations, desired.annotations)
  }

  method ManagedVolumesMatch(current: seq<Volume>, desired: seq<Volume>) returns (ok: bool)
    ensures ok == VolumesMatch(current, desired)
  {
    if |current| != |desired| {
      return false;
    }
    for i := 0 to |desired|
      invariant forall j :: 0 <= j < i ==> current[j].name == desired[j].name && current[j].secret == desired[j].secret
    {
      if current[i].name != desired[i].name {
        return false;
      }
      var c, d := current[i].secret, desired[i].secret;
      if c == None && d == None { continue; }
      if c == None || d == None || c.value != d.value {
        return false;
      }
    }
    ok := true;
  }

  method ManagedContainersMatch(current: seq<Container>, desired: seq<Container>) returns (ok: bool)
    ensures ok == ContainersMatch(current, desired)
  {
    if |current| != |desired| {
      return false;
    }
    for i := 0 to |desired|
      invariant forall j :: 0 <= j < i ==> SameContainer(current[j], desired[j])
    {
      var c, d := current[i], desired[i];
      if c.name != d.name || c.image != d.image || c.envFrom != d.envFrom || c.env != d.env || c.mounts != d.mounts {
        return false;
      }
    }
    ok := true;
  }

  method ManagedFieldsMatch(current: Strings, desired: Strings) returns (ok: bool)
    ensures ok <==> FieldsMatch(current, desired)
  {
    var rest := desired.Keys;
    while rest != {}
      invariant rest <= desired.Keys
      invariant forall k :: k in desired && k !in rest ==> Lookup(current, k) == desired[k]
      decreases |rest|
    {
      var k :| k in rest;
      if Lookup(current, k) != desired[k] {
        return false;
      }
      rest := rest - {k};
    }
    ok := true;
  }

  function SimpleDifferences(c: DeploymentSpec, d: DeploymentSpec): seq<string> {
    If(c.replicas != d.replicas, "spec.replicas") + If(c.selector != d.selector, "spec.selector") +
    If(c.templateLabels != d.templateLabels, "spec.template.metadata.labels") +
    If(c.templateAnnotations != d.templateAnnotations, "spec.template.metadata.annotations")
  }

  function PodDifferences(c: DeploymentSpec, d: DeploymentSpec): seq<string> {
    If(c.serviceAccount != d.serviceAccount, "spec.template.spec.serviceAccountName") +
    If(c.automount != d.automount, "spec.template.spec.automountServiceAccountToken") +
    If(!VolumesMatch(c.volumes, d.volumes), "spec.template.spec.volumes") +
    If(!ContainersMatch(c.containers, d.containers), "spec.template.spec.containers") +
    If(c.pullSecrets != d.pullSecrets, "spec.template.spec.imagePullSecrets")
  }

  function SpecDifferences(c: DeploymentSpec, d: DeploymentSpec): seq<string> {
    SimpleDifferences(c, d) + PodDifferences(c, d)
  }

  ghost function MetadataDifferences(current: Deployment, desired: Deployment): seq<string> {
    If(!FieldsMatch(current.labels, desired.labels), "metadata.labels") +
    If(!FieldsMatch(current.annotations, desired.annotations), "metadata.annotations")
  }

  /** The names of the compared fields that differ. */
  ghost function Differences(current: Deployment, desired: Deployment): seq<string> {
    SpecDifferences(current.spec, desired.spec) + MetadataDifferences(current, desired)
  }

  /** The part of the list that is about the pods. */
  method PodUpdateReasons(c: DeploymentSpec, d: DeploymentSpec) returns (reasons: seq<string>)
    ensures reasons == PodDifferences(c, d)
  {
    reasons := If(c.serviceAccount != d.serviceAccount, "spec.template.spec.serviceAccountName");
    reasons := reasons + If(c.automount != d.automount, "spec.template.spec.automountServiceAccountToken");
    var volumes := ManagedVolumesMatch(c.volumes, d.volumes);
    reasons := reasons + If(!volumes, "spec.template.spec.volumes");
    var containers := ManagedContainersMatch(c.containers, d.containers);
    reasons := reasons + If(!containers, "spec.template.spec.containers");
    reasons := reasons + If(c.pullSecrets != d.pullSecrets, "spec.template.spec.imagePullSecrets");
  }

  /** Lists the compared fields that differ; there are none exactly when the deployments match. */
  method DeploymentUpdateReasons(current: Deployment, desired: Deployment) returns (reasons: seq<string>)
    ensures reasons == Differences(current, desired)
    ensures reasons == [] <==> Matches(current, desired)
  {
    var c, d := current.spec, desired.spec;
    reasons := If(c.replicas != d.replicas, "spec.replicas");
    reasons := reasons + If(c.selector != d.selector, "spec.selector");
    reasons := reasons + If(c.templateLabels != d.templateLabels, "spec.template.metadata.labels");
    reasons := reasons + If(c.templateAnnotations != d.templateAnnotations, "spec.template.metadata.annotations");
    var pod := PodUpdateReasons(c, d);
    reasons := reasons + pod;
    var labels := ManagedFieldsMatch(current.labels, desired.labels);
    var metadata := If(!labels, "metadata.labels");
    var annotations := ManagedFieldsMatch(current.annotations, desired.annotations);
    reasons := reasons + (metadata + If(!annotations, "metadata.annotations"));
    NoDifferenceExactlyWhenMatching(current, desired);
  }

  lemma {:induction false} EmptyWhenBothAre(a: seq<string>, b: seq<string>)
    ensures a + b == [] <==> a == [] && b == []
  {
    assert |a + b| == |a| + |b|;
  }

  lemma {:induction false} NoDifferenceExactlyWhenMatching(current: Deployment, desired: Deployment)
    ensures Differences(current, desired) == [] <==> Matches(current, desired)
  {
    EmptyWhenBothAre(SpecDifferences(current.spec, desired.spec), MetadataDifferences(current, desired));
    EmptyWhenBothAre(SimpleDifferences(current.spec, desired.spec), PodDifferences(current.spec, desired.spec));
  }

  function If(differs: bool, name: string): seq<string> {
    if differs then [name] else []
  }

  method DeploymentNeedsUpdate(current: Deployment, desired: Deployment) returns (needed: bool)
    ensures needed <==> !Matches(current, desired)
  {
    var reasons := DeploymentUpdateReasons(current, desired);
    needed := reasons != [];
  }

  // ----- phases, status and reports

  predicate HasFailure(conditions: seq<Condition>) {
    exists i :: 0 <= i < |conditions| && conditions[i].kind == "ReplicaFailure" && conditions[i].status == "True"
  }

  function PhaseFor(bot: Bot, status: DeploymentStatus): string {
    if bot.spec.desiredState == "deleted" then "deleting"
    else if bot.spec.desiredState == "stopped" then
      if status.replicas == 0 && status.readyReplicas == 0 then "stopped" else "reconciling"
    else if status.readyReplicas >= bot.spec.replicas && status.availableReplicas >= bot.spec.replicas &&
            bot.spec.replicas > 0
    then "running"
    else if HasFailure(status.conditions) then "degraded"
    else "reconciling"
  }

  /** The status to store, except for its time. */
  function NextStatus(bot: Bot, observed: Option<DeploymentStatus>, phase: string): BotStatus {
    var at := bot.status.lastObservedAt;
    match observed
    case Some(s) =>
      BotStatus(phase, bot.spec.generation, bot.spec.deploymentName, s.readyReplicas, s.availableReplicas, s.conditions,
                at)
    case None =>
      BotStatus(phase, bot.spec.generation, bot.spec.deploymentName, 0, 0, [], at)
  }

  predicate StatusEquivalent(current: BotStatus, next: BotStatus) {
    current.phase == next.phase && current.observedGeneration == next.observedGeneration &&
    current.deploymentName == next.deploymentName && current.readyReplicas == next.readyReplicas &&
    current.availableReplicas == next.availableReplicas && current.conditions == next.conditions
  }

  function StatusReason(phase: string): string {
    if phase == "running" then "deployment_available"
    else if phase == "stopped" then "deployment_scaled_down"
    else if phase == "degraded" then "deployment_replica_failure"
    else if phase == "deleting" then "deployment_deleted"
    else if phase == "reconciling" then "deployment_reconciling"
    else if phase == "error" then "deployment_error"
    else "deployment_status_updated"
  }

  function ReportOf(spec: BotSpec, status: BotStatus): Report {
    Report(spec.tenantSubject, spec.botId, status.phase, StatusReason(status.phase), status.deploymentName,
           status.lastObservedAt, status.observedGeneration, status.readyReplicas, status.availableReplicas)
  }

  // ----- what one reconcile makes of the world, in stages

  predicate Leaving(bot: Bot) {
    bot.spec.desiredState == "deleted" || bot.deleting
  }

  /** The update sends the desired fields on the current object. */
  function Overwritten(current: Deployment, desired: Deployment): Deployment {
    current.(spec := desired.spec, labels := desired.labels, annotations := desired.annotations)
  }

  /** The deployments once the bot's own is brought in line. */
  ghost function InLine(w: World, key: Key, defaults: Defaulting): map<Key, Deployment>
    requires key in w.bots
  {
    var bot := w.bots[key];
    var at, desired := DeploymentKey(key, bot), DesiredDeployment(key, bot);
    if Leaving(bot) then w.deployments - {at}
    else if at !in w.deployments then w.deployments[at := StoredDeployment(defaults, desired, NO_DEPLOYMENT_STATUS)]
    else if Matches(w.deployments[at], desired) then w.deployments
    else
      var current := w.deployments[at];
      w.deployments[at := StoredDeployment(defaults, Overwritten(current, desired), current.status)]
  }

  /** Stage one: the deployment is brought in line. */
  ghost function WithDeployment(w: World, key: Key, defaults: Defaulting): World
    requires key in w.bots
  {
    w.(deployments := InLine(w, key, defaults))
  }

  /** The status that a reconcile of the bot finds. `observed` is the status of the deployment, if there was one. */
  function FindingFor(bot: Bot, observed: Option<DeploymentStatus>): BotStatus {
    if Leaving(bot) then NextStatus(bot, None, "deleting")
    else match observed
      case None => NextStatus(bot, Some(NO_DEPLOYMENT_STATUS), "reconciling")
      case Some(status) => NextStatus(bot, Some(status), PhaseFor(bot, status))
  }

  function Observed(w: World, at: Key): Option<DeploymentStatus> {
    if at in w.deployments then Some(w.deployments[at].status) else None
  }

  function Finding(w: World, key: Key): BotStatus
    requires key in w.bots
  {
    FindingFor(w.bots[key], Observed(w, DeploymentKey(key, w.bots[key])))
  }

  /** The finding is news: it differs from the stored status in more than its time. */
  predicate IsNews(w: World, key: Key)
    requires key in w.bots
  {
    !StatusEquivalent(w.bots[key].status, Finding(w, key))
  }

  function StampedFinding(w: World, key: Key, now: int): BotStatus
    requires key in w.bots
  {
    Finding(w, key).(lastObservedAt := now)
  }

  /** Stage two: news is stored. */
  ghost function WithStatus(w: World, key: Key, defaults: Defaulting, now: int): World
    requires key in w.bots
  {
    var w1 := WithDeployment(w, key, defaults);
    if IsNews(w, key) then w1.(bots := w1.bots[key := w.bots[key].(status := StampedFinding(w, key, now))]) else w1
  }

  /** Stage three: news is reported, when a reporter is configured. This is a reconcile that succeeds. */
  ghost function Reconciled(w: World, key: Key, defaults: Defaulting, now: int, reporter: bool): World
    requires key in w.bots
  {
    var w2 := WithStatus(w, key, defaults, now);
    if IsNews(w, key) && reporter
    then w2.(reports := w2.reports + [ReportOf(w.bots[key].spec, StampedFinding(w, key, now))])
    else w2
  }

  // ----- the reconciler

  /** The bot has the deployment it should have: a matching one, or none when it is leaving. */
  ghost predicate Settled(w: World, key: Key)
    requires key in w.bots
  {
    var bot := w.bots[key];
    var at := DeploymentKey(key, bot);
    if Leaving(bot) then at !in w.deployments
    else at in w.deployments && Matches(w.deployments[at], DesiredDeployment(key, bot))
  }

  /** How many writing calls and reports a reconcile takes: one to bring the deployment in line, one to
      store news and one to report it. */
  ghost function CallsNeeded(w: World, key: Key, reporter: bool): nat
    requires key in w.bots
  {
    (if Settled(w, key) then 0 else 1) + NewsCalls(IsNews(w, key), reporter)
  }

  function NewsCalls(news: bool, reporter: bool): nat {
    if !news then 0 else if reporter then 2 else 1
  }

  /** Deletes the deployment if it is there. */
  method DeleteDeploymentIfPresent(cluster: Cluster, at: Key) returns (ok: bool)
    modifies cluster
    ensures var next := old(cluster.world).(deployments := old(cluster.world).deployments - {at});
            (ok ==> cluster.world == next) && (cluster.world == next || cluster.world == old(cluster.world))
    ensures var needed := if at in old(cluster.world).deployments then 1 else 0;
            cluster.writes <= old(cluster.writes) + needed && (ok ==> cluster.writes == old(cluster.writes) + needed)
    ensures cluster.Healthy() ==> ok
  {
    var current := cluster.GetDeployment(at);
    match current
    case Missing =>
      assert cluster.world.deployments - {at} == cluster.world.deployments;
      ok := true;
    case Failed =>
      ok := false;
    case Found(_) =>
      ok := cluster.DeleteDeployment(at);
  }

  /** Stores the status if it is news, and then reports it. */
  method UpdateBotStatus(cluster: Cluster, key: Key, bot: Bot, observed: Option<DeploymentStatus>, phase: string,
                         now: int, reporter: bool) returns (ok: bool)
    requires key in cluster.world.bots && cluster.world.bots[key] == bot
    modifies cluster
    ensures var next := NextStatus(bot, observed, phase);
            var w1 := old(cluster.world);
            var w2 := w1.(bots := w1.bots[key := bot.(status := next.(lastObservedAt := now))]);
            var w3 := w2.(reports := w2.reports + [ReportOf(bot.spec, next.(lastObservedAt := now))]);
            if StatusEquivalent(bot.status, next) then ok && cluster.world == w1
            else if !reporter then (ok ==> cluster.world == w2) && cluster.world in [w1, w2]
            else (ok ==> cluster.world == w3) && cluster.world in [w1, w2, w3]
    ensures var needed := NewsCalls(!StatusEquivalent(bot.status, NextStatus(bot, observed, phase)), reporter);
            cluster.writes <= old(cluster.writes) + needed && (ok ==> cluster.writes == old(cluster.writes) + needed)
    ensures cluster.Healthy() ==> ok
  {
    var next := NextStatus(bot, observed, phase);
    if StatusEquivalent(bot.status, next) {
      return true;
    }
    next := next.(lastObservedAt := now);
    ok := cluster.UpdateBotStatus(key, next);
    if !ok || !reporter {
      return;
    }
    ok := cluster.SendReport(ReportOf(bot.spec, next));
  }

  /** The branches up to the status: deletes, creates, updates or leaves the deployment, and says what status
      was observed and which phase that makes. */
  method BringInLine(cluster: Cluster, key: Key, bot: Bot)
    returns (ok: bool, observed: Option<DeploymentStatus>, phase: string)
    requires key in cluster.world.bots && cluster.world.bots[key] == bot
    modifies cluster
    ensures var next := WithDeployment(old(cluster.world), key, cluster.defaults);
            (ok ==> cluster.world == next) && (cluster.world == next || cluster.world == old(cluster.world))
    ensures ok ==> NextStatus(bot, observed, phase) == Finding(old(cluster.world), key)
    ensures var needed := if Settled(old(cluster.world), key) then 0 else 1;
            cluster.writes <= old(cluster.writes) + needed && (ok ==> cluster.writes == old(cluster.writes) + needed)
    ensures cluster.Healthy() ==> ok
  {
    var at, desired := DeploymentKey(key, bot), DesiredDeployment(key, bot);
    if bot.spec.desiredState == "deleted" || bot.deleting {
      ok := DeleteDeploymentIfPresent(cluster, at);
      return ok, None, "deleting";
    }
    var current := cluster.GetDeployment(at);
    match current
    case Failed =>
      ok, observed, phase := false, None, "";
    case Missing =>
      var stored;
      ok, stored := cluster.PutDeployment(at, desired, NO_DEPLOYMENT_STATUS);
      observed, phase := Some(stored.status), "reconciling";
    case Found(deployment) =>
      var needed := DeploymentNeedsUpdate(deployment, desired);
      var status := deployment.status;
      ok := true;
      if needed {
        var stored;
        ok, stored := cluster.PutDeployment(at, Overwritten(deployment, desired), deployment.status);
        status := stored.status;
      }
      observed, phase := Some(status), PhaseFor(bot, status);
  }

  /** One reconcile. Main result: it passes through the three stages in order, stops at the first call that
      fails, and reaches the last stage when it succeeds, as it does when no call fails. It makes no writing
      call but those the stages need, so none at all when there is nothing to do. */
  method Reconcile(cluster: Cluster, key: Key, now: int, reporter: bool) returns (ok: bool)
    modifies cluster
    ensures key !in old(cluster.world.bots) ==>
              cluster.world == old(cluster.world) && cluster.writes == old(cluster.writes)
    ensures key in old(cluster.world.bots) ==>
              var w := old(cluster.world);
              var w3 := Reconciled(w, key, cluster.defaults, now, reporter);
              (ok ==> cluster.world == w3) &&
              cluster.world in
                [w, WithDeployment(w, key, cluster.defaults), WithStatus(w, key, cluster.defaults, now), w3]
    ensures key in old(cluster.world.bots) ==>
              var needed := CallsNeeded(old(cluster.world), key, reporter);
              cluster.writes <= old(cluster.writes) + needed && (ok ==> cluster.writes == old(cluster.writes) + needed)
    ensures cluster.Healthy() ==> ok
  {
    var fetched := cluster.GetBot(key);
    if !fetched.Found? {
      return fetched.Missing?;
    }
    var bot := fetched.value;
    var observed, phase;
    ok, observed, phase := BringInLine(cluster, key, bot);
    if ok {
      ok := UpdateBotStatus(cluster, key, bot, observed, phase, now, reporter);
    }
  }

  // ----- one reconcile settles the deployment

  /** The server's defaulting leaves alone every field that the controller compares. */
  ghost predicate Benign(defaults: Defaulting) {
    forall d: Deployment :: LeavesAlone(defaults(d), d)
  }

  ghost predicate LeavesAlone(e: Deployment, d: Deployment) {
    e.spec.replicas == d.spec.replicas && e.spec.selector == d.spec.selector &&
    e.spec.templateLabels == d.spec.templateLabels && e.spec.templateAnnotations == d.spec.templateAnnotations &&
    e.spec.serviceAccount == d.spec.serviceAccount && e.spec.automount == d.spec.automount &&
    |e.spec.volumes| == |d.spec.volumes| &&
    (forall i :: 0 <= i < |d.spec.volumes| ==>
       e.spec.volumes[i] == d.spec.volumes[i].(extra := e.spec.volumes[i].extra)) &&
    |e.spec.containers| == |d.spec.containers| &&
    (forall i :: 0 <= i < |d.spec.containers| ==>
       e.spec.containers[i] == d.spec.containers[i].(extra := e.spec.containers[i].extra)) &&
    e.spec.pullSecrets == d.spec.pullSecrets &&
    (forall k :: k in d.labels ==> k in e.labels && e.labels[k] == d.labels[k]) &&
    (forall k :: k in d.annotations ==> k in e.annotations && e.annotations[k] == d.annotations[k])
  }

  lemma {:induction false} StoredMatches(defaults: Defaulting, sent: Deployment, desired: Deployment,
                                         status: DeploymentStatus)
    requires Benign(defaults)
    requires sent.spec == desired.spec && sent.labels == desired.labels && sent.annotations == desired.annotations
    ensures Matches(StoredDeployment(defaults, sent, status), desired)
  {
    assert LeavesAlone(defaults(sent), sent);
  }

  lemma {:induction false} DesiredIgnoresStatus(key: Key, bot: Bot, status: BotStatus)
    ensures DesiredDeployment(key, bot.(status := status)) == DesiredDeployment(key, bot)
    ensures DeploymentKey(key, bot.(status := status)) == DeploymentKey(key, bot)
    ensures Leaving(bot.(status := status)) == Leaving(bot)
  {
  }

  lemma {:induction false} DeploymentStageSettles(w: World, key: Key, defaults: Defaulting)
    requires key in w.bots && Benign(defaults)
    ensures Settled(WithDeployment(w, key, defaults), key)
  {
    var bot := w.bots[key];
    var at, desired := DeploymentKey(key, bot), DesiredDeployment(key, bot);
    if !Leaving(bot) {
      StoredMatches(defaults, desired, desired, NO_DEPLOYMENT_STATUS);
      if at in w.deployments {
        StoredMatches(defaults, Overwritten(w.deployments[at], desired), desired, w.deployments[at].status);
      }
    }
  }

  /** What a reconcile does to the bot and the deployment it is about. */
  lemma {:induction false} ReconciledParts(w: World, key: Key, defaults: Defaulting, now: int, reporter: bool)
    requires key in w.bots
    ensures var r := Reconciled(w, key, defaults, now, reporter);
            r.deployments == WithDeployment(w, key, defaults).deployments &&
            r.bots == if !IsNews(w, key) then w.bots
                      else w.bots[key := w.bots[key].(status := StampedFinding(w, key, now))]
  {
  }

  lemma {:induction false} ReconcileSettles(w: World, key: Key, defaults: Defaulting, now: int, reporter: bool)
    requires key in w.bots && Benign(defaults)
    ensures Settled(Reconciled(w, key, defaults, now, reporter), key)
  {
    DeploymentStageSettles(w, key, defaults);
    DesiredIgnoresStatus(key, w.bots[key], StampedFinding(w, key, now));
    ReconciledParts(w, key, defaults, now, reporter);
  }

  // ----- quiescence

  /** Nothing to do. */
  ghost predicate Quiet(w: World, key: Key)
    requires key in w.bots
  {
    Settled(w, key) && !IsNews(w, key)
  }

  lemma {:induction false} QuietNeedsNoCalls(w: World, key: Key, reporter: bool)
    requires key in w.bots
    ensures CallsNeeded(w, key, reporter) == 0 <==> Quiet(w, key)
  {
  }

  lemma {:induction false} QuietStays(w: World, key: Key, defaults: Defaulting, now: int, reporter: bool)
    requires key in w.bots && Quiet(w, key)
    ensures WithDeployment(w, key, defaults) == w && Reconciled(w, key, defaults, now, reporter) == w
  {
    var at := DeploymentKey(key, w.bots[key]);
    if Leaving(w.bots[key]) {
      assert w.deployments - {at} == w.deployments;
    }
  }

  /** Once settled, the next finding is what the deployment's own status says. */
  lemma {:induction false} SettledFinding(w: World, key: Key, defaults: Defaulting, now: int, reporter: bool)
    requires key in w.bots && Settled(w, key)
    ensures Quiet(Reconciled(w, key, defaults, now, reporter), key)
  {
    var bot := w.bots[key];
    var at := DeploymentKey(key, bot);
    var r := Reconciled(w, key, defaults, now, reporter);
    ReconciledParts(w, key, defaults, now, reporter);
    DesiredIgnoresStatus(key, bot, StampedFinding(w, key, now));
    if Leaving(bot) {
      assert w.deployments - {at} == w.deployments;
    }
    assert r.deployments == w.deployments;
  }

  /** Main result: for every bot, every world and every benign defaulting, the third of three reconciles
      with nothing else going on makes no write and no report. */
  lemma {:induction false} ThirdReconcileIsQuiet(w: World, key: Key, defaults: Defaulting, t1: int, t2: int, t3: int,
                                                 reporter: bool)
    requires key in w.bots && Benign(defaults)
    ensures var w1 := Reconciled(w, key, defaults, t1, reporter);
            var w2 := Reconciled(w1, key, defaults, t2, reporter);
            CallsNeeded(w2, key, reporter) == 0 && Quiet(w2, key) && Reconciled(w2, key, defaults, t3, reporter) == w2
  {
    var w1 := Reconciled(w, key, defaults, t1, reporter);
    ReconcileSettles(w, key, defaults, t1, reporter);
    SettledFinding(w1, key, defaults, t2, reporter);
    QuietStays(Reconciled(w1, key, defaults, t2, reporter), key, defaults, t3, reporter);
  }

  /** Main result: the second reconcile is already quiet except in one case, a stopped bot whose deployment
      the first one had to create: its phase goes from "reconciling" to "stopped". */
  lemma {:induction false} SecondReconcileIsQuiet(w: World, key: Key, defaults: Defaulting, now: int, reporter: bool)
    requires key in w.bots && Benign(defaults)
    ensures var bot := w.bots[key];
            Quiet(Reconciled(w, key, defaults, now, reporter), key) <==>
              Leaving(bot) || DeploymentKey(key, bot) in w.deployments || bot.spec.desiredState != "stopped"
  {
    var bot := w.bots[key];
    var at, desired := DeploymentKey(key, bot), DesiredDeployment(key, bot);
    var r := Reconciled(w, key, defaults, now, reporter);
    ReconcileSettles(w, key, defaults, now, reporter);
    ReconciledParts(w, key, defaults, now, reporter);
    DesiredIgnoresStatus(key, bot, StampedFinding(w, key, now));
    if !Leaving(bot) {
      var status := if at in w.deployments then w.deployments[at].status else NO_DEPLOYMENT_STATUS;
      assert r.deployments[at].status == status;
      assert Finding(r, key).phase == PhaseFor(bot, status);
    }
  }

  // ----- reports

  /** Main result: a report that was lost after its status was stored is not made up for. When a reconcile
      stops just before its report and nothing else changes, the next one has nothing to report unless it
      finds another status than the one already stored. */
  lemma {:induction false} LostReportIsNotRetried(w: World, key: Key, defaults: Defaulting, t1: int, t2: int)
    requires key in w.bots && Benign(defaults)
    ensures var w2 := WithStatus(w, key, defaults, t1);
            w2.reports == w.reports &&
            (Reconciled(w2, key, defaults, t2, true).reports == w2.reports <==>
               Leaving(w.bots[key]) || DeploymentKey(key, w.bots[key]) in w.deployments ||
               w.bots[key].spec.desiredState != "stopped")
  {
    SecondReconcileIsQuiet(w, key, defaults, t1, false);
    var w2 := WithStatus(w, key, defaults, t1);
    assert w2 == Reconciled(w, key, defaults, t1, false);
    ReconcileSettles(w, key, defaults, t1, false);
    if Quiet(w2, key) {
      QuietStays(w2, key, defaults, t2, true);
    } else {
      assert |Reconciled(w2, key, defaults, t2, true).reports| == |w2.reports| + 1;
    }
  }

  // ----- a whole round

  /** The two bots want the same of a deployment: none, or the same one but for its owner. */
  ghost predicate SameDemand(j: Key, a: Bot, k: Key, b: Bot) {
    if Leaving(a) || Leaving(b) then Leaving(a) && Leaving(b)
    else DesiredDeployment(j, a).(owner := None) == DesiredDeployment(k, b).(owner := None)
  }

  /** Main result: when one of two bots that claim the same deployment has what it asks for, so has the other
      exactly when it asks for the same. */
  lemma {:induction false} SharedDeploymentsClash(w: World, j: Key, k: Key)
    requires j in w.bots && k in w.bots && DeploymentKey(j, w.bots[j]) == DeploymentKey(k, w.bots[k])
    requires Settled(w, j)
    ensures Settled(w, k) <==> SameDemand(j, w.bots[j], k, w.bots[k])
  {
  }

  /** One successful reconcile of each key, in the given order. */
  ghost function ReconciledAll(w: World, order: seq<Key>, defaults: Defaulting, now: int, reporter: bool): (r: World)
    requires forall i :: 0 <= i < |order| ==> order[i] in w.bots
    ensures r.bots.Keys == w.bots.Keys
  {
    if order == [] then w
    else
      var before := ReconciledAll(w, order[..|order| - 1], defaults, now, reporter);
      Reconciled(before, order[|order| - 1], defaults, now, reporter)
  }

  /** The bots differ in nothing but their status. */
  ghost predicate SameButStatus(a: map<Key, Bot>, b: map<Key, Bot>) {
    a.Keys == b.Keys && forall k :: k in a ==> a[k] == b[k].(status := a[k].status)
  }

  lemma {:induction false} OthersUndisturbed(w: World, key: Key, other: Key, defaults: Defaulting, now: int,
                                             reporter: bool)
    requires key in w.bots && other in w.bots
    requires DeploymentKey(key, w.bots[key]) != DeploymentKey(other, w.bots[other])
    ensures Settled(Reconciled(w, key, defaults, now, reporter), other) <==> Settled(w, other)
  {
    ReconciledParts(w, key, defaults, now, reporter);
  }

  lemma {:induction false} ReconciledSameButStatus(w: World, key: Key, defaults: Defaulting, now: int, reporter: bool)
    requires key in w.bots
    ensures SameButStatus(Reconciled(w, key, defaults, now, reporter).bots, w.bots)
  {
    ReconciledParts(w, key, defaults, now, reporter);
  }

  lemma {:induction false} SameButStatusChains(a: map<Key, Bot>, b: map<Key, Bot>, c: map<Key, Bot>)
    requires SameButStatus(a, b) && SameButStatus(b, c)
    ensures SameButStatus(a, c)
  {
  }

  lemma {:induction false} RoundKeepsSpecs(w: World, order: seq<Key>, defaults: Defaulting, now: int, reporter: bool)
    requires forall i :: 0 <= i < |order| ==> order[i] in w.bots
    ensures SameButStatus(ReconciledAll(w, order, defaults, now, reporter).bots, w.bots)
  {
    if order != [] {
      var key, earlier := order[|order| - 1], order[..|order| - 1];
      var before := ReconciledAll(w, earlier, defaults, now, reporter);
      RoundKeepsSpecs(w, earlier, defaults, now, reporter);
      ReconciledSameButStatus(before, key, defaults, now, reporter);
      SameButStatusChains(Reconciled(before, key, defaults, now, reporter).bots, before.bots, w.bots);
    }
  }

  /** The last bot of the round that claims the same deployment as `k`. */
  function LastClaimant(bots: map<Key, Bot>, order: seq<Key>, k: Key): (j: Key)
    requires k in bots && k in order && forall i :: 0 <= i < |order| ==> order[i] in bots
    ensures j in order && DeploymentKey(j, bots[j]) == DeploymentKey(k, bots[k])
  {
    var last := order[|order| - 1];
    if DeploymentKey(last, bots[last]) == DeploymentKey(k, bots[k]) then last
    else LastClaimant(bots, order[..|order| - 1], k)
  }

  lemma {:induction false} SameDemandIgnoresStatus(j: Key, a: Bot, k: Key, b: Bot, s: BotStatus, t: BotStatus)
    ensures SameDemand(j, a.(status := s), k, b.(status := t)) <==> SameDemand(j, a, k, b)
  {
    DesiredIgnoresStatus(j, a, s);
    DesiredIgnoresStatus(k, b, t);
  }

  /** The reconcile of another claimant settles a bot exactly when they want the same. */
  lemma {:induction false} ClaimantSettles(w: World, key: Key, k: Key, defaults: Defaulting, now: int, reporter: bool)
    requires Benign(defaults) && key in w.bots && k in w.bots
    requires DeploymentKey(key, w.bots[key]) == DeploymentKey(k, w.bots[k])
    ensures k in Reconciled(w, key, defaults, now, reporter).bots
    ensures Settled(Reconciled(w, key, defaults, now, reporter), k) <==>
              SameDemand(key, w.bots[key], k, w.bots[k])
  {
    var r := Reconciled(w, key, defaults, now, reporter);
    ReconcileSettles(w, key, defaults, now, reporter);
    ReconciledSameButStatus(w, key, defaults, now, reporter);
    DesiredIgnoresStatus(key, w.bots[key], r.bots[key].status);
    DesiredIgnoresStatus(k, w.bots[k], r.bots[k].status);
    SharedDeploymentsClash(r, key, k);
    SameDemandIgnoresStatus(key, w.bots[key], k, w.bots[k], r.bots[key].status, r.bots[k].status);
  }

  /** Main result: after a reconcile of each bot in some order, a bot is settled exactly when the last one that
      claims its deployment wants the same as it does. */
  lemma {:induction false} RoundSettlesExactlyWhen(w: World, order: seq<Key>, defaults: Defaulting, now: int,
                                                   reporter: bool, k: Key)
    requires Benign(defaults) && k in order
    requires forall i :: 0 <= i < |order| ==> order[i] in w.bots
    ensures var j := LastClaimant(w.bots, order, k);
            Settled(ReconciledAll(w, order, defaults, now, reporter), k) <==>
              SameDemand(j, w.bots[j], k, w.bots[k])
  {
    var key, earlier := order[|order| - 1], order[..|order| - 1];
    var before := ReconciledAll(w, earlier, defaults, now, reporter);
    RoundKeepsSpecs(w, earlier, defaults, now, reporter);
    DesiredIgnoresStatus(key, w.bots[key], before.bots[key].status);
    DesiredIgnoresStatus(k, w.bots[k], before.bots[k].status);
    if DeploymentKey(key, w.bots[key]) == DeploymentKey(k, w.bots[k]) {
      ClaimantSettles(before, key, k, defaults, now, reporter);
      SameDemandIgnoresStatus(key, w.bots[key], k, w.bots[k], before.bots[key].status, before.bots[k].status);
    } else {
      assert k in earlier;
      RoundSettlesExactlyWhen(w, earlier, defaults, now, reporter, k);
      OthersUndisturbed(before, key, k, defaults, now, reporter);
    }
  }

  /** No other bot in the list claims the deployment of `k`. */
  ghost predicate SoleClaimant(bots: map<Key, Bot>, order: seq<Key>, k: Key)
    requires k in bots && forall i :: 0 <= i < |order| ==> order[i] in bots
  {
    forall i :: 0 <= i < |order| && order[i] != k ==>
      DeploymentKey(order[i], bots[order[i]]) != DeploymentKey(k, bots[k])
  }

  /** Main result: a bot that shares its deployment with no other bot of the round is settled after it, in any
      order and whatever the others share. */
  lemma {:induction false} RoundSettles(w: World, order: seq<Key>, defaults: Defaulting, now: int, reporter: bool,
                                        k: Key)
    requires Benign(defaults) && k in order
    requires forall i :: 0 <= i < |order| ==> order[i] in w.bots
    requires SoleClaimant(w.bots, order, k)
    ensures Settled(ReconciledAll(w, order, defaults, now, reporter), k)
  {
    RoundSettlesExactlyWhen(w, order, defaults, now, reporter, k);
  }

  /** A round changes no deployment but those that its bots claim. */
  lemma {:induction false} RoundKeepsTheRest(w: World, order: seq<Key>, defaults: Defaulting, now: int, reporter: bool,
                                             at: Key)
    requires forall i :: 0 <= i < |order| ==> order[i] in w.bots && DeploymentKey(order[i], w.bots[order[i]]) != at
    ensures var r := ReconciledAll(w, order, defaults, now, reporter);
            (at in r.deployments <==> at in w.deployments) &&
            (at in r.deployments ==> r.deployments[at] == w.deployments[at])
  {
    if order != [] {
      var key, earlier := order[|order| - 1], order[..|order| - 1];
      var before := ReconciledAll(w, earlier, defaults, now, reporter);
      RoundKeepsTheRest(w, earlier, defaults, now, reporter, at);
      RoundKeepsSpecs(w, earlier, defaults, now, reporter);
      DesiredIgnoresStatus(key, w.bots[key], before.bots[key].status);
      ReconciledParts(before, key, defaults, now, reporter);
    }
  }
}
