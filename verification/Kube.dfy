/** The cluster as the bot operator sees it: a store of objects changed by API calls, any of which may
    fail, with or without having taken effect. */
module Kube {
  import opened Options

  datatype Key = Key(namespace: string, name: string)

  type Strings = map<string, string>

  datatype EnvVar = EnvVar(name: string, value: string)

  datatype BotSpec = BotSpec(tenantId: string, tenantSubject: string, botId: string, generation: int,
                             desiredState: string, platform: string, channels: seq<string>, deploymentName: string,
                             containerName: string, image: string, replicas: int, env: seq<EnvVar>)

  datatype Condition = Condition(kind: string, status: string, reason: string, message: string, changedAt: int)

  datatype BotStatus = BotStatus(phase: string, observedGeneration: int, deploymentName: string, readyReplicas: int,
                                 availableReplicas: int, conditions: seq<Condition>, lastObservedAt: int)

  const NO_STATUS := BotStatus("", 0, "", 0, 0, [], 0)

  /** `deleting` stands for a deletion timestamp. */
  datatype Bot = Bot(labels: Strings, annotations: Strings, spec: BotSpec, status: BotStatus, deleting: bool)

  /** Fields that the API server fills in and the operator never compares. */
  type Extra = map<string, string>

  datatype Volume = Volume(name: string, secret: Option<string>, extra: Extra)

  datatype Mount = Mount(name: string, path: string, readOnly: bool)

  datatype EnvSource = FromConfigMap(name: string) | FromSecret(name: string)

  datatype Container = Container(name: string, image: string, envFrom: seq<EnvSource>, env: seq<EnvVar>,
                                 mounts: seq<Mount>, extra: Extra)

  datatype DeploymentSpec = DeploymentSpec(replicas: Option<int>, selector: Strings, templateLabels: Strings,
                                           templateAnnotations: Strings, serviceAccount: string,
                                           automount: Option<bool>,
                                           volumes: seq<Volume>, containers: seq<Container>, pullSecrets: seq<string>,
                                           extra: Extra)

  datatype DeploymentStatus = DeploymentStatus(replicas: int, readyReplicas: int, availableReplicas: int,
                                               conditions: seq<Condition>)

  const NO_DEPLOYMENT_STATUS := DeploymentStatus(0, 0, 0, [])

  datatype Deployment = Deployment(labels: Strings, annotations: Strings, spec: DeploymentSpec,
                                   status: DeploymentStatus, owner: Option<Key>)

  datatype Report = Report(tenantSubject: string, botId: string, status: string, reason: string, deploymentName: string,
                           observedAt: int, generation: int, readyReplicas: int, availableReplicas: int)

  /** Everything outside the operator that it changes. */
  datatype World = World(bots: map<Key, Bot>, deployments: map<Key, Deployment>, namespaces: set<string>,
                         reports: seq<Report>)

  /** How a call ends: done, refused without effect, or lost: it took effect but the caller got an error. */
  datatype Verdict = Done | Refused | Lost

  datatype Fetched<+T> = Found(value: T) | Missing | Failed

  /** What the server stores for a deployment it is sent, besides its status. */
  type Defaulting = Deployment -> Deployment

  function StoredDeployment(defaults: Defaulting, sent: Deployment, status: DeploymentStatus): Deployment {
    defaults(sent).(status := status)
  }

  function StoredBot(bots: map<Key, Bot>, key: Key, sent: Bot): Bot {
    if key in bots then sent.(status := bots[key].status, deleting := bots[key].deleting)
    else sent.(status := NO_STATUS, deleting := false)
  }

  class Cluster {
    const verdict: nat -> Verdict
    const defaults: Defaulting
    var calls: nat
    /** How many calls that could change something were made, whether or not they succeeded. */
    ghost var writes: nat
    var world: World

    constructor (verdict: nat -> Verdict, defaults: Defaulting, world: World)
      ensures this.verdict == verdict && this.defaults == defaults && this.world == world && calls == 0 && writes == 0
    {
      this.verdict := verdict;
      this.defaults := defaults;
      this.world := world;
      calls := 0;
      writes := 0;
    }

    /** No call fails. */
    ghost predicate Healthy() {
      forall n: nat :: verdict(n) == Done
    }

    /** One writing call that would turn the world into `next`. */
    method Write(next: World) returns (ok: bool)
      modifies this
      ensures world == next || (!ok && world == old(world))
      ensures Healthy() ==> ok
      ensures writes == old(writes) + 1
    {
      var v := verdict(calls);
      calls, writes := calls + 1, writes + 1;
      ok := v == Done;
      if v != Refused {
        world := next;
      }
    }

    /** One reading call. */
    method Read() returns (ok: bool)
      modifies this`calls
      ensures Healthy() ==> ok
    {
      ok := verdict(calls) == Done;
      calls := calls + 1;
    }

    method GetBot(key: Key) returns (r: Fetched<Bot>)
      modifies this`calls
      ensures r.Found? ==> key in world.bots && world.bots[key] == r.value
      ensures r.Missing? ==> key !in world.bots
      ensures Healthy() ==> !r.Failed?
    {
      var ok := Read();
      r := if !ok then Failed else if key in world.bots then Found(world.bots[key]) else Missing;
    }

    method CreateBot(key: Key, bot: Bot) returns (ok: bool)
      modifies this
      ensures var next := old(world).(bots := old(world).bots[key := StoredBot(old(world).bots, key, bot)]);
              (ok ==> world == next && key !in old(world).bots) && (world == next || world == old(world))
      ensures writes == old(writes) + (if key !in old(world).bots then 1 else 0)
      ensures Healthy() && key !in old(world).bots ==> ok
    {
      if key in world.bots {
        return false;
      }
      ok := Write(world.(bots := world.bots[key := StoredBot(world.bots, key, bot)]));
    }

    /** Updates all but the status, which is a subresource. */
    method UpdateBot(key: Key, bot: Bot) returns (ok: bool)
      modifies this
      ensures var next := old(world).(bots := old(world).bots[key := StoredBot(old(world).bots, key, bot)]);
              (ok ==> world == next && key in old(world).bots) && (world == next || world == old(world))
      ensures writes == old(writes) + (if key in old(world).bots then 1 else 0)
      ensures Healthy() && key in old(world).bots ==> ok
    {
      if key !in world.bots {
        return false;
      }
      ok := Write(world.(bots := world.bots[key := StoredBot(world.bots, key, bot)]));
    }

    method UpdateBotStatus(key: Key, status: BotStatus) returns (ok: bool)
      modifies this
      ensures key !in old(world).bots ==> !ok && world == old(world)
      ensures key in old(world).bots ==>
                var next := old(world).(bots := old(world).bots[key := old(world).bots[key].(status := status)]);
                (ok ==> world == next) && (world == next || world == old(world))
      ensures writes == old(writes) + (if key in old(world).bots then 1 else 0)
      ensures Healthy() && key in old(world).bots ==> ok
    {
      if key !in world.bots {
        return false;
      }
      ok := Write(world.(bots := world.bots[key := world.bots[key].(status := status)]));
    }

    /** Deletes a bot; `gone` says that it was not there. */
    method DeleteBot(key: Key) returns (ok: bool, gone: bool)
      modifies this
      ensures var next := old(world).(bots := old(world).bots - {key});
              (ok || gone ==> world == next) && (world == next || world == old(world))
      ensures writes == old(writes) + (if key in old(world).bots then 1 else 0)
      ensures Healthy() ==> ok || gone
    {
      gone := key !in world.bots;
      if gone {
        assert world.bots - {key} == world.bots;
        return false, true;
      }
      ok := Write(world.(bots := world.bots - {key}));
    }

    /** The keys of the bots with a label, in some order. */
    method ListBots(name: string, value: string) returns (ok: bool, items: seq<Key>)
      modifies this`calls
      ensures Healthy() ==> ok
      ensures ok ==> forall k :: k in items <==> k in world.bots && HasLabel(world.bots[k].labels, name, value)
    {
      ok := Read();
      items := [];
      var rest := world.bots.Keys;
      while rest != {}
        invariant rest <= world.bots.Keys
        invariant forall k :: k in items <==> k in world.bots.Keys - rest && HasLabel(world.bots[k].labels, name, value)
        decreases |rest|
      {
        var k :| k in rest;
        rest := rest - {k};
        if HasLabel(world.bots[k].labels, name, value) {
          items := items + [k];
        }
      }
    }

    method GetNamespace(name: string) returns (r: Fetched<string>)
      modifies this`calls
      ensures r.Found? ==> name in world.namespaces
      ensures r.Missing? ==> name !in world.namespaces
      ensures Healthy() ==> !r.Failed?
    {
      var ok := Read();
      r := if !ok then Failed else if name in world.namespaces then Found(name) else Missing;
    }

    method CreateNamespace(name: string) returns (ok: bool)
      modifies this
      ensures var next := old(world).(namespaces := old(world).namespaces + {name});
              (ok ==> world == next) && (world == next || world == old(world))
      ensures writes == old(writes) + 1
      ensures Healthy() ==> ok
    {
      ok := Write(world.(namespaces := world.namespaces + {name}));
    }

    method GetDeployment(key: Key) returns (r: Fetched<Deployment>)
      modifies this`calls
      ensures r.Found? ==> key in world.deployments && world.deployments[key] == r.value
      ensures r.Missing? ==> key !in world.deployments
      ensures Healthy() ==> !r.Failed?
    {
      var ok := Read();
      r := if !ok then Failed else if key in world.deployments then Found(world.deployments[key]) else Missing;
    }

    /** Creates a deployment, or updates one and leaves its status; the answer is the stored object. */
    method PutDeployment(key: Key, sent: Deployment, status: DeploymentStatus) returns (ok: bool, stored: Deployment)
      modifies this
      ensures stored == StoredDeployment(defaults, sent, status)
      ensures var next := old(world).(deployments := old(world).deployments[key := stored]);
              (ok ==> world == next) && (world == next || world == old(world))
      ensures writes == old(writes) + 1
      ensures Healthy() ==> ok
    {
      stored := StoredDeployment(defaults, sent, status);
      ok := Write(world.(deployments := world.deployments[key := stored]));
    }

    method DeleteDeployment(key: Key) returns (ok: bool)
      modifies this
      ensures var next := old(world).(deployments := old(world).deployments - {key});
              (ok ==> world == next) && (world == next || world == old(world))
      ensures writes == old(writes) + 1
      ensures Healthy() ==> ok
    {
      ok := Write(world.(deployments := world.deployments - {key}));
    }

    method SendReport(report: Report) returns (ok: bool)
      modifies this
      ensures var next := old(world).(reports := old(world).reports + [report]);
              (ok ==> world == next) && (world == next || world == old(world))
      ensures writes == old(writes) + 1
      ensures Healthy() ==> ok
    {
      ok := Write(world.(reports := world.reports + [report]));
    }
  }

  predicate HasLabel(labels: Strings, name: string, value: string) {
    name in labels && labels[name] == value
  }
}
