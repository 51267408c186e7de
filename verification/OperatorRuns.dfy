/** Runs of the whole operator: what a sync followed by a round of reconciles leaves behind, and what holds
    along every interleaving of syncs, deletions and reconciles of one bot, cut short at any point. */
module OperatorRuns {
  import opened Options
  import opened Kube
  import opened ContractSyncer
  import opened Reconciler

  // ----- a sync, then a reconcile of every bot

  /** The contract that counts for a key: the last one with that key. */
  function Effective(feed: Feed, k: Key): Contract
    requires k in FeedKeys(feed, |feed|)
  {
    feed[LastFor(feed, |feed|, k)]
  }

  /** Should the bot of this contract have no deployment? */
  predicate Unwanted(bots: map<Key, Bot>, c: Contract) {
    c.spec.desiredState == "deleted" || (KeyOf(c) in bots && bots[KeyOf(c)].deleting)
  }

  function Workload(c: Contract): Key {
    Key(c.namespace, c.spec.deploymentName)
  }

  /** The contract has what it asks for: a deployment that matches it, or none. */
  ghost predicate Served(deployments: map<Key, Deployment>, c: Contract, unwanted: bool) {
    if unwanted then Workload(c) !in deployments
    else Workload(c) in deployments && Matches(deployments[Workload(c)], DesiredDeployment(KeyOf(c), Desired(c)))
  }

  lemma {:induction false} MirrorHolds(bots: map<Key, Bot>, feed: Feed, k: Key)
    requires k in FeedKeys(feed, |feed|)
    ensures k in Mirror(bots, feed) && KeyOf(Effective(feed, k)) == k
    ensures Mirror(bots, feed)[k] == StoredBot(bots, k, Desired(Effective(feed, k)))
  {
    MirrorIsExact(bots, feed, k);
  }

  lemma {:induction false} SettledIsServed(r: World, bots: map<Key, Bot>, c: Contract)
    requires KeyOf(c) in r.bots
    requires r.bots[KeyOf(c)] == StoredBot(bots, KeyOf(c), Desired(c)).(status := r.bots[KeyOf(c)].status)
    ensures Settled(r, KeyOf(c)) <==> Served(r.deployments, c, Unwanted(bots, c))
  {
    var k := KeyOf(c);
    assert DesiredDeployment(k, r.bots[k]) == DesiredDeployment(k, Desired(c));
  }

  /** Main result: after a successful sync and a reconcile of every bot, in any order, a contract that counts
      has a matching deployment, or none when it says "deleted" or its bot is being deleted, exactly when
      the last bot reconciled that claims its deployment wants the same; so it has when no other claims it. */
  lemma {:induction false} SyncThenReconcileServes(bots: map<Key, Bot>, feed: Feed, w: World, order: seq<Key>,
                                                   defaults: Defaulting, now: int, reporter: bool, k: Key)
    requires w.bots == Mirror(bots, feed) && Benign(defaults)
    requires forall j :: j in order <==> j in w.bots
    requires k in FeedKeys(feed, |feed|)
    ensures k in w.bots
    ensures var j, c := LastClaimant(w.bots, order, k), Effective(feed, k);
            var served := Served(ReconciledAll(w, order, defaults, now, reporter).deployments, c, Unwanted(bots, c));
            (served <==> SameDemand(j, w.bots[j], k, w.bots[k])) && (SoleClaimant(w.bots, order, k) ==> served)
  {
    MirrorHolds(bots, feed, k);
    var r := ReconciledAll(w, order, defaults, now, reporter);
    RoundKeepsSpecs(w, order, defaults, now, reporter);
    RoundSettlesExactlyWhen(w, order, defaults, now, reporter, k);
    SettledIsServed(r, bots, Effective(feed, k));
  }

  // ----- one bot, step by step

  /** The reconciler between two of its calls: idle, with the version of the bot that it fetched, or with
      a report to send. */
  datatype Worker = Idle | Holding(version: nat) | Reporting(report: Report)

  /** `history` holds every version of the object ever stored, across deletions; the last one is current
      while the object is present. */
  datatype State = State(history: seq<Bot>, present: bool, worker: Worker, reports: seq<Report>) {
    function Last(): Bot
      requires history != []
    {
      history[|history| - 1]
    }

    /** The stored object, as the store's map for one key. */
    function Stored(k: Key): map<Key, Bot>
      requires present ==> history != []
    {
      if present then map[k := Last()] else map[]
    }
  }

  const START := State([], false, Idle, [])

  /** A step is one call of the syncer or the reconciler with its verdict; `Crash` loses whatever the
      reconciler was doing. A fetch may be served from a stale cache, so it may bring any past version. */
  datatype Step =
    | Sync(contract: Contract, verdict: Verdict)
    | MarkDeleting
    | Remove
    | Fetch(version: nat)
    | Store(observed: Option<DeploymentStatus>, now: int, verdict: Verdict)
    | Send(verdict: Verdict)
    | GiveUp
    | Crash

  function Push(s: State, bot: Bot): State {
    s.(history := s.history + [bot], present := true)
  }

  ghost predicate Sane(s: State) {
    (s.present ==> s.history != []) && (s.worker.Holding? ==> s.worker.version < |s.history|)
  }

  /** The status write of a reconcile that holds `bot`. It is refused when the object moved on. */
  function Stores(s: State, bot: Bot, observed: Option<DeploymentStatus>, now: int, verdict: Verdict): State
    requires s.worker.Holding?
  {
    var found := FindingFor(bot, observed);
    var stamped := found.(lastObservedAt := now);
    if StatusEquivalent(bot.status, found) then s.(worker := Idle)
    else if verdict == Refused || !s.present || s.worker.version != |s.history| - 1 then s.(worker := Idle)
    else
      var s' := Push(s, bot.(status := stamped));
      s'.(worker := if verdict == Done then Reporting(ReportOf(bot.spec, stamped)) else Idle)
  }

  /** One step; a step that is not possible in the state changes nothing. */
  function Next(s: State, step: Step): State
    requires Sane(s)
  {
    match step
    case Sync(c, verdict) =>
      if verdict == Refused then s else Push(s, StoredBot(s.Stored(KeyOf(c)), KeyOf(c), Desired(c)))
    case MarkDeleting =>
      if s.present then Push(s, s.Last().(deleting := true)) else s
    case Remove =>
      s.(present := false)
    case Fetch(version) =>
      if s.worker == Idle && version < |s.history| then s.(worker := Holding(version)) else s
    case Store(observed, now, verdict) =>
      if s.worker.Holding? then Stores(s, s.history[s.worker.version], observed, now, verdict) else s
    case Send(verdict) =>
      if !s.worker.Reporting? then s
      else s.(worker := Idle, reports := if verdict == Refused then s.reports else s.reports + [s.worker.report])
    case GiveUp =>
      if s.worker.Holding? then s.(worker := Idle) else s
    case Crash =>
      s.(worker := Idle)
  }

  function After(steps: seq<Step>, n: nat): (s: State)
    requires n <= |steps|
    ensures Sane(s)
  {
    if n == 0 then START else Next(After(steps, n - 1), steps[n - 1])
  }

  // ----- generations

  /** The feed's generations start at zero or above and never decrease along the run. */
  ghost predicate NeverDecreases(steps: seq<Step>) {
    (forall i :: 0 <= i < |steps| && steps[i].Sync? ==> 0 <= Generation(steps[i])) &&
    (forall i, j :: 0 <= i < j < |steps| && steps[i].Sync? && steps[j].Sync? ==>
       Generation(steps[i]) <= Generation(steps[j]))
  }

  function Generation(step: Step): int
    requires step.Sync?
  {
    step.contract.spec.generation
  }

  /** The highest generation of the first `n` steps. */
  function HighWater(steps: seq<Step>, n: nat): int
    requires n <= |steps|
  {
    if n == 0 then 0
    else
      var before := HighWater(steps, n - 1);
      if steps[n - 1].Sync? && before < Generation(steps[n - 1]) then Generation(steps[n - 1]) else before
  }

  lemma {:induction false} HighWaterBelow(steps: seq<Step>, n: nat, k: nat)
    requires n <= k < |steps| && NeverDecreases(steps) && steps[k].Sync?
    ensures HighWater(steps, n) <= Generation(steps[k])
  {
    if n > 0 {
      HighWaterBelow(steps, n - 1, k);
    }
  }

  /** Generations along the stored versions, up to `high`. */
  ghost predicate Ascending(history: seq<Bot>, high: int) {
    (forall i :: 0 <= i < |history| ==>
       history[i].status.observedGeneration <= history[i].spec.generation && 0 <= history[i].spec.generation <= high) &&
    (forall i, j :: 0 <= i <= j < |history| ==> history[i].spec.generation <= history[j].spec.generation)
  }

  /** Generations along the reports, up to `high`. */
  ghost predicate NonDecreasing(reports: seq<Report>, high: int) {
    (forall i :: 0 <= i < |reports| ==> reports[i].generation <= high) &&
    (forall i, j :: 0 <= i <= j < |reports| ==> reports[i].generation <= reports[j].generation)
  }

  /** The reports stay behind the stored versions, which stay behind the feed. */
  ghost predicate InOrder(s: State, high: int)
    requires Sane(s)
  {
    Ascending(s.history, high) &&
    (s.worker.Reporting? || s.reports != [] ==> s.history != []) &&
    (s.history != [] ==>
       NonDecreasing(s.reports, s.Last().spec.generation) &&
       (s.worker.Reporting? ==>
          s.worker.report.generation <= s.Last().spec.generation &&
          NonDecreasing(s.reports, s.worker.report.generation)))
  }

  lemma {:induction false} PushAscends(history: seq<Bot>, bot: Bot, high: int, high': int)
    requires Ascending(history, high) && high <= high'
    requires 0 <= bot.spec.generation <= high' && bot.status.observedGeneration <= bot.spec.generation
    requires history != [] ==> history[|history| - 1].spec.generation <= bot.spec.generation
    ensures Ascending(history + [bot], high')
  {
  }

  lemma {:induction false} PushKeepsOrder(s: State, bot: Bot, high: int, high': int)
    requires Sane(s) && InOrder(s, high) && high <= high'
    requires 0 <= bot.spec.generation <= high' && bot.status.observedGeneration <= bot.spec.generation
    requires s.history != [] ==> s.Last().spec.generation <= bot.spec.generation
    ensures Sane(Push(s, bot)) && InOrder(Push(s, bot), high')
  {
    PushAscends(s.history, bot, high, high');
  }

  lemma {:induction false} StoreKeepsOrder(s: State, observed: Option<DeploymentStatus>, now: int, verdict: Verdict,
                                           high: int)
    requires Sane(s) && InOrder(s, high) && s.worker.Holding?
    ensures InOrder(Stores(s, s.history[s.worker.version], observed, now, verdict), high)
  {
    var bot := s.history[s.worker.version];
    var found := FindingFor(bot, observed);
    if !StatusEquivalent(bot.status, found) && verdict != Refused && s.present && s.worker.version == |s.history| - 1 {
      PushKeepsOrder(s, bot.(status := found.(lastObservedAt := now)), high, high);
    }
  }

  lemma {:induction false} SyncKeepsOrder(s: State, c: Contract, high: int)
    requires Sane(s) && InOrder(s, high) && 0 <= high <= c.spec.generation
    ensures InOrder(Push(s, StoredBot(s.Stored(KeyOf(c)), KeyOf(c), Desired(c))), c.spec.generation)
  {
    PushKeepsOrder(s, StoredBot(s.Stored(KeyOf(c)), KeyOf(c), Desired(c)), high, c.spec.generation);
  }

  lemma {:induction false} SendKeepsOrder(s: State, verdict: Verdict, high: int)
    requires Sane(s) && InOrder(s, high)
    ensures InOrder(Next(s, Send(verdict)), high)
  {
  }

  /** So does any step of the worker that stores and sends nothing. */
  lemma {:induction false} IdlingKeepsOrder(s: State, s': State, high: int)
    requires Sane(s) && Sane(s') && InOrder(s, high)
    requires s'.history == s.history && s'.reports == s.reports && (s'.worker.Reporting? ==> s'.worker == s.worker)
    ensures InOrder(s', high)
  {
  }

  lemma {:induction false} StepKeepsOrder(s: State, step: Step, high: int)
    requires Sane(s) && InOrder(s, high) && 0 <= high
    requires step.Sync? ==> high <= Generation(step)
    ensures InOrder(Next(s, step), if step.Sync? then Generation(step) else high)
  {
    match step
    case Sync(c, verdict) =>
      if verdict != Refused {
        SyncKeepsOrder(s, c, high);
      }
    case MarkDeleting =>
      if s.present {
        PushKeepsOrder(s, s.Last().(deleting := true), high, high);
      }
    case Store(observed, now, verdict) =>
      if s.worker.Holding? {
        StoreKeepsOrder(s, observed, now, verdict, high);
      }
    case Send(verdict) =>
      SendKeepsOrder(s, verdict, high);
    case _ =>
      IdlingKeepsOrder(s, Next(s, step), high);
  }

  lemma {:induction false} RunKeepsOrder(steps: seq<Step>, n: nat)
    requires n <= |steps| && NeverDecreases(steps)
    ensures InOrder(After(steps, n), HighWater(steps, n)) && 0 <= HighWater(steps, n)
  {
    if n > 0 {
      RunKeepsOrder(steps, n - 1);
      if steps[n - 1].Sync? {
        HighWaterBelow(steps, n - 1, n - 1);
      }
      StepKeepsOrder(After(steps, n - 1), steps[n - 1], HighWater(steps, n - 1));
    }
  }

  /** Main result: along every run whose feed never goes back, however calls fail, conflict or are served
      stale, the stored observed generation never exceeds the stored spec's, and the generations reported
      to the control plane never decrease. */
  lemma {:induction false} GenerationsAdvance(steps: seq<Step>, n: nat)
    requires n <= |steps| && NeverDecreases(steps)
    ensures var s := After(steps, n);
            (s.present ==> s.Last().status.observedGeneration <= s.Last().spec.generation) &&
            forall i, j :: 0 <= i <= j < |s.reports| ==> s.reports[i].generation <= s.reports[j].generation
  {
    RunKeepsOrder(steps, n);
  }

  // ----- the last report and the stored status

  /** The report says what the status says. */
  predicate Agrees(report: Report, status: BotStatus) {
    report.status == status.phase && report.generation == status.observedGeneration &&
    report.deploymentName == status.deploymentName && report.observedAt == status.lastObservedAt &&
    report.readyReplicas == status.readyReplicas && report.availableReplicas == status.availableReplicas
  }

  /** What the control plane was told last, or is about to be told, is what is stored. */
  ghost predicate UpToDate(s: State)
    requires Sane(s)
  {
    s.present && s.Last().status != NO_STATUS ==>
      if s.worker.Reporting? then Agrees(s.worker.report, s.Last().status)
      else s.reports != [] && Agrees(s.reports[|s.reports| - 1], s.Last().status)
  }

  /** The status write of this step takes effect. */
  predicate Writes(s: State, step: Step)
    requires Sane(s)
  {
    step.Store? && |Next(s, step).history| > |s.history|
  }

  /** Is the control plane still owed the report of the last status write, after a step from `s`? It is when
      the answer to the write was lost, or the report was refused or forgotten in a crash. */
  predicate StillOwed(s: State, step: Step, owed: bool)
    requires Sane(s)
  {
    if Writes(s, step) then step.verdict == Lost
    else owed || (s.worker.Reporting? && (step == Crash || step == Send(Refused)))
  }

  predicate Owed(steps: seq<Step>, n: nat)
    requires n <= |steps|
  {
    n > 0 && StillOwed(After(steps, n - 1), steps[n - 1], Owed(steps, n - 1))
  }

  /** A report is owed or the stored status is told; one under way is not owed. */
  ghost predicate ToldOrOwed(s: State, owed: bool)
    requires Sane(s)
  {
    (owed || UpToDate(s)) && (s.worker.Reporting? ==> !owed)
  }

  lemma {:induction false} StepTellsOrOwes(s: State, step: Step, owed: bool)
    requires Sane(s) && ToldOrOwed(s, owed)
    ensures ToldOrOwed(Next(s, step), StillOwed(s, step, owed))
  {
  }

  lemma {:induction false} RunTellsOrOwes(steps: seq<Step>, n: nat)
    requires n <= |steps|
    ensures ToldOrOwed(After(steps, n), Owed(steps, n))
  {
    var s, owed := START, false;
    for k := 0 to n
      invariant s == After(steps, k) && owed == Owed(steps, k)
      invariant ToldOrOwed(s, owed)
    {
      StepTellsOrOwes(s, steps[k], owed);
      s, owed := Next(s, steps[k]), StillOwed(s, steps[k], owed);
    }
  }

  /** Every status write of the run is at a later time than those before. */
  ghost predicate ClockAdvances(steps: seq<Step>) {
    forall i, j :: 0 <= i < j < |steps| && steps[i].Store? && steps[j].Store? ==> steps[i].now < steps[j].now
  }

  /** Everything reported so far, or under way, was observed before that time. */
  ghost predicate ReportedBefore(s: State, time: int) {
    (forall i :: 0 <= i < |s.reports| ==> s.reports[i].observedAt < time) &&
    (s.worker.Reporting? ==> s.worker.report.observedAt < time)
  }

  /** Reports are older than the one under way, and than a stored status whose report is owed. */
  ghost predicate OlderReports(s: State, owed: bool)
    requires Sane(s)
  {
    (s.worker.Reporting? ==>
       forall i :: 0 <= i < |s.reports| ==> s.reports[i].observedAt < s.worker.report.observedAt) &&
    (owed && s.present && s.Last().status != NO_STATUS ==>
       forall i :: 0 <= i < |s.reports| ==> s.reports[i].observedAt < s.Last().status.lastObservedAt)
  }

  lemma {:induction false} StepKeepsOlder(s: State, step: Step, owed: bool)
    requires Sane(s) && ToldOrOwed(s, owed) && OlderReports(s, owed)
    requires step.Store? ==> ReportedBefore(s, step.now)
    ensures OlderReports(Next(s, step), StillOwed(s, step, owed))
  {
  }

  lemma {:induction false} StepReportsBefore(s: State, step: Step, time: int)
    requires Sane(s) && ReportedBefore(s, time) && (step.Store? ==> step.now < time)
    ensures ReportedBefore(Next(s, step), time)
  {
  }

  lemma {:induction false} RunReportsBefore(steps: seq<Step>, n: nat, k: nat)
    requires n <= k < |steps| && ClockAdvances(steps) && steps[k].Store?
    ensures ReportedBefore(After(steps, n), steps[k].now)
  {
    if n > 0 {
      RunReportsBefore(steps, n - 1, k);
      StepReportsBefore(After(steps, n - 1), steps[n - 1], steps[k].now);
    }
  }

  lemma {:induction false} RunKeepsOlder(steps: seq<Step>, n: nat)
    requires n <= |steps| && ClockAdvances(steps)
    ensures OlderReports(After(steps, n), Owed(steps, n))
  {
    var s, owed := START, false;
    for k := 0 to n
      invariant s == After(steps, k) && owed == Owed(steps, k)
      invariant ToldOrOwed(s, owed) && OlderReports(s, owed)
    {
      if steps[k].Store? {
        RunReportsBefore(steps, k, k);
      }
      StepTellsOrOwes(s, steps[k], owed);
      StepKeepsOlder(s, steps[k], owed);
      s, owed := Next(s, steps[k]), StillOwed(s, steps[k], owed);
    }
  }

  /** Main result: along every run, whatever fails or crashes, the stored status is the one that the last report
      told or that the report under way tells, unless that report is owed; and when the clock advances it is
      so exactly when the object is absent or new or no report is owed. */
  lemma {:induction false} ReportsAgree(steps: seq<Step>, n: nat)
    requires n <= |steps|
    ensures var s := After(steps, n);
            (!Owed(steps, n) ==> UpToDate(s)) &&
            (ClockAdvances(steps) ==>
               (UpToDate(s) <==> !s.present || s.Last().status == NO_STATUS || !Owed(steps, n)))
  {
    RunTellsOrOwes(steps, n);
    if ClockAdvances(steps) {
      RunKeepsOlder(steps, n);
    }
  }

  // ----- a reconcile that succeeds is three of these steps

  /** An undisturbed reconcile of the current version. */
  function Undisturbed(s: State, observed: Option<DeploymentStatus>, now: int): State
    requires Sane(s) && s.history != []
  {
    Next(Next(Next(s, Fetch(|s.history| - 1)), Store(observed, now, Done)), Send(Done))
  }

  lemma {:induction false} UndisturbedStoresFinding(s: State, observed: Option<DeploymentStatus>, now: int)
    requires Sane(s) && s.present && s.worker == Idle
    ensures var found := FindingFor(s.Last(), observed);
            var sent := Undisturbed(s, observed, now);
            sent.present && sent.worker == Idle &&
            if StatusEquivalent(s.Last().status, found) then sent == s
            else
              sent.history == s.history + [s.Last().(status := found.(lastObservedAt := now))] &&
              sent.reports == s.reports + [ReportOf(s.Last().spec, found.(lastObservedAt := now))]
  {
  }

  /** Main result: from any state, a reconcile of the current version that nothing interrupts stores and
      reports exactly what the reconciler's own specification says, and the stored status is then about
      the current spec. */
  lemma {:induction false} ReconcileIsThreeSteps(s: State, w: World, key: Key, defaults: Defaulting, now: int)
    requires Sane(s) && s.present && s.worker == Idle
    requires key in w.bots && w.bots[key] == s.Last() && w.reports == s.reports
    ensures var sent := Undisturbed(s, Observed(w, DeploymentKey(key, s.Last())), now);
            var r := Reconciled(w, key, defaults, now, true);
            sent.present && sent.Last() == r.bots[key] && sent.reports == r.reports &&
            sent.Last().status.observedGeneration == s.Last().spec.generation
  {
    UndisturbedStoresFinding(s, Observed(w, DeploymentKey(key, s.Last())), now);
  }

  /** Main result: the feed must not go back. When a reconciled bot is given another contract, its stored
      observed generation stays within its spec exactly when the new generation is no lower. */
  lemma {:induction false} FeedMustNotGoBack(s: State, observed: Option<DeploymentStatus>, now: int, c: Contract)
    requires Sane(s) && s.present && s.worker == Idle
    ensures var last := Next(Undisturbed(s, observed, now), Sync(c, Done)).Last();
            last.status.observedGeneration <= last.spec.generation <==> s.Last().spec.generation <= c.spec.generation
  {
    UndisturbedStoresFinding(s, observed, now);
  }
}
