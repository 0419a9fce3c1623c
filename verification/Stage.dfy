/** Turns of a running experiment: others arrange the Leases, and the controller
    reconciles. The steps from which whole runs are put together. */
module Stage {
  import opened Wrappers
  import opened Machine
  import Helpers
  import opened Names
  import opened Api
  import opened PodSelection
  import opened Cluster
  import opened Validation
  import opened Ticks
  import opened Protocol
  import Execution
  import Apart
  import Lifecycle
  import opened Reconciler
  import opened Lifetime
  import opened Rehearsal
  import Experiment
  import LeaseProtocol
  import Mesh
  import Targets

  /** What stays the same through a run: the controller, the experiment and its start, what
      is counted and listed, and the order targets are visited in. */
  datatype Setting = Setting(
    c: Controller,
    id: Identity,
    spec: Spec,
    start: int,
    meshCounts: PodCounts,
    podCounts: PodCounts,
    order: seq<string>,
    pods: seq<Pod>)

  /** Every tick of the experiment has a name. */
  ghost predicate AllNameable(h: Helpers.Hash, id: Identity, spec: Spec) {
    forall a, age :: a in spec.podFaults && 0 <= age <= spec.durationSeconds * SECOND ==> NameableNow(h, id, a, age, 0)
  }

  /** A valid experiment started at a real instant, in a namespace its guardrails let in. */
  ghost predicate Viable(s: Setting) {
    && ValidSpec(s.id, s.spec, s.meshCounts, s.podCounts) && !s.spec.cancel && s.spec.durationSeconds <= Lifecycle.MAX_SECONDS
    && s.start >= LeaseProtocol.UNIX_EPOCH && AllNameable(s.c.hash, s.id, s.spec)
    && forall a :: a in s.spec.podFaults ==> Wrap32(|Candidates(s.pods)|) >= a.refuseIfPodsLessThan
  }

  predicate InTime(s: Setting, now: int) {
    s.start <= now <= s.start + s.spec.durationSeconds * SECOND
  }

  function PlansAt(s: Setting, now: int): seq<Plan> {
    DuePlans(s.c.hash, s.id, s.spec, s.spec.podFaults, now, s.start)
  }

  /** The experiment is under way, with its rules in place. */
  ghost predicate Onstage(s: Setting, w: World) {
    && w.fi.id == s.id && w.fi.spec == s.spec
    && w.fi.status.startedAt == Some(s.start) && w.fi.status.expiresAt == Some(s.start + s.spec.durationSeconds * SECOND)
    && Mesh.AllDereferenceable(s.spec.meshFaults) && Injecting(w, s.c, s.order) == (w.WithPhase(Running), Targets.NoFailure)
  }

  // ---------------------------------------------------------------- one reconcile

  /** All calls go well; the Job `jobName` completes just before the plan at `at`, if there
      is one. */
  function RoundAt(s: Setting, now: int, at: nat, jobName: string): Round {
    Round(now, now, s.meshCounts, s.podCounts, s.order, (i: nat) => CallAt(s, at, jobName, i), now, now, now)
  }

  function CallAt(s: Setting, at: nat, jobName: string, i: nat): Surroundings {
    Surroundings(if i == at then [Finish(jobName, true, false)] else [], true, Some(s.pods), Ok, Ok, Ok, Ok, Ok, Ok)
  }

  lemma NameableAt(h: Helpers.Hash, id: Identity, spec: Spec, a: PodAction, now: int, startedAt: int)
    requires NameableNow(h, id, a, now - startedAt, 0)
    ensures NameableNow(h, id, a, now, startedAt)
  {
    SameDueTick(a, now, startedAt);
  }

  lemma NameableThroughout(h: Helpers.Hash, id: Identity, spec: Spec, now: int, startedAt: int)
    requires AllNameable(h, id, spec) && 0 <= now - startedAt <= spec.durationSeconds * SECOND
    ensures forall a :: a in spec.podFaults ==> NameableNow(h, id, a, now, startedAt)
  {
    forall a | a in spec.podFaults ensures NameableNow(h, id, a, now, startedAt) {
      assert NameableNow(h, id, a, now - startedAt, 0);
      NameableAt(h, id, spec, a, now, startedAt);
    }
  }

  lemma PlansBuilt(s: Setting, now: int)
    requires Viable(s) && InTime(s, now)
    ensures BuildPlans(s.c.hash, s.id, s.spec, now, s.start).ok
    ensures BuildPlans(s.c.hash, s.id, s.spec, now, s.start).plans == PlansAt(s, now)
  {
    NameableThroughout(s.c.hash, s.id, s.spec, now, s.start);
    ValidPlansBuilt(s.c.hash, s.id, s.spec, s.podCounts, now, s.start);
    PlansAreDue(s.c.hash, s.id, s.spec, now, s.start);
  }

  ghost predicate LetIn(s: Setting, plans: seq<Plan>) {
    OneName(plans) && forall p :: p in plans ==> p.jobName != "" && Wrap32(|Candidates(s.pods)|) >= p.refuseIfPodsLessThan
  }

  lemma PlansLetIn(s: Setting, now: int)
    requires Viable(s)
    ensures LetIn(s, PlansAt(s, now)) && Execution.NamedBy(PlansAt(s, now), Execution.NameOf(s.c.hash, s.id))
  {
    forall p | p in PlansAt(s, now)
      ensures p.leaseName == p.jobName && p.jobName == Execution.NameOf(s.c.hash, s.id)(PlanKey(p))
      ensures p.jobName != "" && Wrap32(|Candidates(s.pods)|) >= p.refuseIfPodsLessThan
    {
      var a := Apart.PlanMember(s.c.hash, s.id, s.spec, now, s.start, p);
      PodFaultNameValid(s.c.hash, s.id, p.action, p.tick);
    }
  }

  lemma SteadyLifecycle(s: Setting, w: World, clock: int)
    requires Onstage(s, w) && 0 < s.spec.durationSeconds <= Lifecycle.MAX_SECONDS
    ensures WithLifecycle(w, clock) == w
  {
    assert Seconds(s.spec.durationSeconds) == s.spec.durationSeconds * SECOND;
  }

  lemma RoundIsPass(s: Setting, w: World, r: Round)
    requires Viable(s) && Onstage(s, w) && InTime(s, r.now)
    requires r.meshCounts == s.meshCounts && r.podCounts == s.podCounts && r.order == s.order
    ensures WithLifecycle(w, r.lifecycleClock) == w && Acceptable(w, r)
    ensures var plans := PlansAt(s, r.now);
      Reconciled(w, s.c, r).0
      == Pass(w.WithPhase(Running), w.fi.status.ticks, plans, r.now, Holder(s.c), CallsFor(r, |plans|), false).0
  {
    SteadyLifecycle(s, w, r.lifecycleClock);
    PlansBuilt(s, r.now);
    Experiment.ActiveMesh(w, s.c, r);
    var w0 := w.WithPhase(Running);
    assert w0.fi.status.ticks == w.fi.status.ticks;
    ExecutesPlans(s, w0, r);
  }

  lemma ExecutesPlans(s: Setting, w: World, r: Round)
    requires Viable(s) && InTime(s, r.now) && w.fi.id == s.id && w.fi.spec == s.spec && w.fi.status.startedAt == Some(s.start)
    ensures var plans := PlansAt(s, r.now);
      Executing(w, s.c, r, s.start + s.spec.durationSeconds * SECOND).0
      == Pass(w, w.fi.status.ticks, plans, r.now, Holder(s.c), CallsFor(r, |plans|), false).0
  {
    PlansBuilt(s, r.now);
    if s.spec.podFaults == [] { assert PlansAt(s, r.now) == []; }
  }

  // ---------------------------------------------------------------- turns

  /** Jobs and creations are these, and no outcome is on record but for the closed ticks. */
  ghost predicate Scene(s: Setting, w: World, jobs: map<string, Job>, log: seq<Creation>, closed: iset<TickKey>) {
    && Onstage(s, w) && w.jobs == jobs && w.log == log
    && forall k :: k !in closed ==> Open(w.fi.status.ticks, k)
  }

  /** A Lease someone else has just taken. */
  function Taken(id: Identity, now: int): LeaseProtocol.Lease {
    LeaseProtocol.Lease(LeaseProtocol.Owner(id.name + "'", ""), Some("someone else"), Some(now), Some(now), Some(LeaseProtocol.DEFAULT_SECONDS))
  }

  function TakenLeases(id: Identity, plans: seq<Plan>, free: string, now: int): map<string, LeaseProtocol.Lease> {
    map p | p in plans && p.jobName != free :: p.jobName := Taken(id, now)
  }

  function Turn(s: Setting, leases: map<string, LeaseProtocol.Lease>, r: Round): seq<Experiment.Event> {
    [Experiment.OtherLeases(leases), Experiment.Reconciling(r)]
  }

  lemma TurnUnfolds(w: World, c: Controller, leases: map<string, LeaseProtocol.Lease>, r: Round, t: int)
    ensures var events := [Experiment.OtherLeases(leases), Experiment.Reconciling(r)];
      && Experiment.RunOf(w, c, events) == Experiment.Next(w.(leases := leases), c, Experiment.Reconciling(r))
      && (OrderlyRun(w, c, events, t) <==> Orderly(w.(leases := leases), Experiment.Reconciling(r), t))
  {
    TwoEvents(w, c, Experiment.OtherLeases(leases), Experiment.Reconciling(r), t);
    OneEvent(w.(leases := leases), c, Experiment.Reconciling(r), t);
  }

  lemma TwoEvents(w: World, c: Controller, x: Experiment.Event, y: Experiment.Event, t: int)
    ensures Experiment.RunOf(w, c, [x, y]) == Experiment.RunOf(Experiment.Next(w, c, x), c, [y])
    ensures OrderlyRun(w, c, [x, y], t) <==> Orderly(w, x, t) && OrderlyRun(Experiment.Next(w, c, x), c, [y], Clock(x, t))
  {
    assert [x, y][1..] == [y];
  }

  lemma OneEvent(w: World, c: Controller, ev: Experiment.Event, t: int)
    ensures Experiment.RunOf(w, c, [ev]) == Experiment.Next(w, c, ev)
    ensures OrderlyRun(w, c, [ev], t) <==> Orderly(w, ev, t)
  {
    assert [ev][1..] == [];
  }

  lemma TurnRuns(s: Setting, w: World, leases: map<string, LeaseProtocol.Lease>, r: Round, t: int)
    requires Viable(s) && Onstage(s, w) && InTime(s, r.now) && t <= r.now
    requires r.meshCounts == s.meshCounts && r.podCounts == s.podCounts && r.order == s.order
    ensures OrderlyRun(w, s.c, Turn(s, leases, r), t) && TurnWith(Turn(s, leases, r), leases)
    ensures var plans := PlansAt(s, r.now);
      Experiment.RunOf(w, s.c, Turn(s, leases, r))
      == Pass(w.(leases := leases).WithPhase(Running), w.fi.status.ticks, plans, r.now, Holder(s.c), CallsFor(r, |plans|), false).0
  {
    var w0 := w.(leases := leases);
    StillOnstage(s, w, w0);
    TurnUnfolds(w, s.c, leases, r, t);
    RoundIsPass(s, w0, r);
  }

  /** A turn of rounds in which all calls go well. */
  lemma TurnAt(s: Setting, w: World, leases: map<string, LeaseProtocol.Lease>, now: int, t: int, at: nat, jobName: string) returns (events: seq<Experiment.Event>)
    requires Viable(s) && Onstage(s, w) && InTime(s, now) && t <= now
    ensures OrderlyRun(w, s.c, events, t) && TurnWith(events, leases) && EventsAt(events, now, s.pods)
    ensures var plans := PlansAt(s, now);
      Experiment.RunOf(w, s.c, events)
      == Pass(w.(leases := leases).WithPhase(Running), w.fi.status.ticks, plans, now, Holder(s.c), CallsFor(RoundAt(s, now, at, jobName), |plans|), false).0
  {
    var r := RoundAt(s, now, at, jobName);
    TurnRuns(s, w, leases, r, t);
    events := Turn(s, leases, r);
  }

  /** What a turn leaves is a scene again. */
  lemma NextScene(s: Setting, w: World, w0: World, w1: World, jobs: map<string, Job>, leases: map<string, LeaseProtocol.Lease>, log: seq<Creation>, closed: iset<TickKey>, more: iset<TickKey>)
    requires Onstage(s, w) && (forall k :: k !in closed ==> Open(w.fi.status.ticks, k))
    requires w0 == w.(leases := w0.leases).WithPhase(Running) && Becomes(w0, w1, jobs, leases, log, more)
    ensures Scene(s, w1, jobs, log, closed + more)
  {
    StillOnstage(s, w, w1);
  }

  lemma StillOnstage(s: Setting, w: World, w1: World)
    requires Onstage(s, w) && w1.vss == w.vss && w1.fi.id == w.fi.id && w1.fi.spec == w.fi.spec
    requires w1.fi.status.startedAt == w.fi.status.startedAt && w1.fi.status.expiresAt == w.fi.status.expiresAt
    ensures Onstage(s, w1)
  {
  }

  lemma AllLet(s: Setting, plans: seq<Plan>, r: Round, at: nat, jobName: string)
    requires forall p :: p in plans ==> Wrap32(|Candidates(s.pods)|) >= p.refuseIfPodsLessThan
    requires r == RoundAt(s, r.now, at, jobName)
    ensures var es := CallsFor(r, |plans|);
      forall i :: 0 <= i < |plans| ==> Lets(es[i], plans[i]) && es[i] == CallAt(s, at, jobName, i)
  {
    var es := CallsFor(r, |plans|);
    forall i | 0 <= i < |plans| ensures Lets(es[i], plans[i]) && es[i] == CallAt(s, at, jobName, i) {
      assert plans[i] in plans;
    }
  }

  lemma TakenIsBusy(w: World, p: Plan, now: int)
    requires p.leaseName == p.jobName && p.jobName !in w.jobs && p.jobName in w.leases && w.leases[p.jobName] == Taken(w.fi.id, now)
    requires now >= LeaseProtocol.UNIX_EPOCH
    ensures Busy(w, p, now) && !LeaseProtocol.Stale(w.leases[p.jobName], now)
  {
  }

  function PickOf(s: Setting, p: Plan): seq<string> {
    Select(Candidates(s.pods), p.count, p.percent, p.cap)
  }

  /** Leases before a pass: those of all plans but `free` taken by someone else, and the
      experiment's own as given. */
  function CrowdedLeases(id: Identity, plans: seq<Plan>, free: string, now: int, own: map<string, LeaseProtocol.Lease>): map<string, LeaseProtocol.Lease> {
    TakenLeases(id, plans, free, now) + own
  }

  function CrowdedWorld(w: World, plans: seq<Plan>, free: string, now: int, own: map<string, LeaseProtocol.Lease>): World {
    w.(leases := CrowdedLeases(w.fi.id, plans, free, now, own)).WithPhase(Running)
  }

  /** Own Leases bear no name but this one, and have run out. */
  ghost predicate OwnStale(own: map<string, LeaseProtocol.Lease>, n: string, now: int) {
    own.Keys <= {n} && forall m :: m in own ==> LeaseProtocol.Stale(own[m], now)
  }

  /** Own Leases still hold. */
  ghost predicate OwnHold(own: map<string, LeaseProtocol.Lease>, now: int) {
    forall m :: m in own ==> !LeaseProtocol.Stale(own[m], now)
  }

  lemma CrowdIsBusy(s: Setting, w: World, plans: seq<Plan>, free: string, now: int, own: map<string, LeaseProtocol.Lease>)
    requires LetIn(s, plans) && now >= LeaseProtocol.UNIX_EPOCH && w.jobs == map[] && own.Keys <= {free}
    ensures var w0 := CrowdedWorld(w, plans, free, now, own);
      forall i :: 0 <= i < |plans| && plans[i].jobName != free ==> Busy(w0, plans[i], now)
  {
    var w0 := CrowdedWorld(w, plans, free, now, own);
    forall i | 0 <= i < |plans| && plans[i].jobName != free ensures Busy(w0, plans[i], now) {
      assert plans[i] in plans && plans[i].jobName !in own;
      TakenIsBusy(w0, plans[i], now);
    }
  }

  lemma LaunchPass(s: Setting, w: World, plans: seq<Plan>, now: int, x: nat, own: map<string, LeaseProtocol.Lease>) returns (jobs: map<string, Job>)
    requires LetIn(s, plans) && now >= LeaseProtocol.UNIX_EPOCH && w.jobs == map[] && x < |plans| && OwnStale(own, plans[x].jobName, now)
    requires Open(w.fi.status.ticks, PlanKey(plans[x])) && PickOf(s, plans[x]) != []
    requires forall i :: 0 <= i < x ==> plans[i].jobName != plans[x].jobName
    ensures var p := plans[x];
      var w0 := CrowdedWorld(w, plans, p.jobName, now, own);
      && Becomes(w0, Pass(w0, w.fi.status.ticks, plans, now, Holder(s.c), CallsFor(RoundAt(s, now, |plans|, ""), |plans|), false).0,
                 jobs, Leased(w0, p, now, Holder(s.c)), w.log + [Creation(p.action, p.tick, PickOf(s, p))], iset{})
      && jobs.Keys == {p.jobName} && !jobs[p.jobName].complete && !jobs[p.jobName].failed
  {
    var p := plans[x];
    var w0 := CrowdedWorld(w, plans, p.jobName, now, own);
    var r := RoundAt(s, now, |plans|, "");
    var es := CallsFor(r, |plans|);
    assert p in plans;
    AllLet(s, plans, r, |plans|, "");
    CrowdIsBusy(s, w, plans, p.jobName, now, own);
    OpenIsNotSkipped(w.fi.status.ticks, p);
    PassLaunches(w0, w.fi.status.ticks, plans, now, Holder(s.c), es, false, x);
    jobs := Launched(w0, p, es[x]);
  }

  /** Everyone else is kept out, and plan x launches its Job. */
  lemma LaunchTurn(s: Setting, w: World, log: seq<Creation>, closed: iset<TickKey>, now: int, t: int, x: nat, own: map<string, LeaseProtocol.Lease>) returns (events: seq<Experiment.Event>, jobs: map<string, Job>)
    requires Viable(s) && Scene(s, w, map[], log, closed) && InTime(s, now) && t <= now && x < |PlansAt(s, now)| && OwnStale(own, PlansAt(s, now)[x].jobName, now)
    requires x < |PlansAt(s, now)| && PlanKey(PlansAt(s, now)[x]) !in closed && PickOf(s, PlansAt(s, now)[x]) != []
    requires forall i :: 0 <= i < x ==> PlansAt(s, now)[i].jobName != PlansAt(s, now)[x].jobName
    ensures OrderlyRun(w, s.c, events, t) && EventsAt(events, now, s.pods)
    ensures TurnWith(events, CrowdedLeases(s.id, PlansAt(s, now), PlansAt(s, now)[x].jobName, now, own))
    ensures Experiment.RunOf(w, s.c, events).leases
         == Leased(CrowdedWorld(w, PlansAt(s, now), PlansAt(s, now)[x].jobName, now, own), PlansAt(s, now)[x], now, Holder(s.c))
    ensures var p := PlansAt(s, now)[x];
      && Scene(s, Experiment.RunOf(w, s.c, events), jobs, log + [Creation(p.action, p.tick, PickOf(s, p))], closed)
      && jobs.Keys == {p.jobName} && !jobs[p.jobName].complete && !jobs[p.jobName].failed
  {
    var plans := PlansAt(s, now);
    var p := plans[x];
    PlansLetIn(s, now);
    jobs := LaunchPass(s, w, plans, now, x, own);
    assert closed + iset{} == closed;
    var leases := Leased(CrowdedWorld(w, plans, p.jobName, now, own), p, now, Holder(s.c));
    events := PlayTurn(s, w, closed, now, t, p.jobName, own, |plans|, "", jobs, leases, log + [Creation(p.action, p.tick, PickOf(s, p))], iset{});
  }

  /** One Job, still running. */
  ghost predicate OneRunning(jobs: map<string, Job>, n: string) {
    jobs.Keys == {n} && !jobs[n].complete && !jobs[n].failed
  }

  lemma TakenHolds(id: Identity, now: int)
    requires now >= LeaseProtocol.UNIX_EPOCH
    ensures !LeaseProtocol.Stale(Taken(id, now), now)
  {
  }

  /** With one Job running, its own plans wait for it and all others find their Leases
      taken. */
  lemma RunningCrowd(s: Setting, w: World, plans: seq<Plan>, free: string, now: int, n: string, own: map<string, LeaseProtocol.Lease>)
    requires LetIn(s, plans) && now >= LeaseProtocol.UNIX_EPOCH && OneRunning(w.jobs, n)
    requires if free == "" then OwnHold(own, now) else free == n && own.Keys <= {n}
    ensures var w0 := CrowdedWorld(w, plans, free, now, own);
      forall i :: 0 <= i < |plans| ==>
        && Busy(w0, plans[i], now)
        && (free == "" ==> plans[i].leaseName in w0.leases && !LeaseProtocol.Stale(w0.leases[plans[i].leaseName], now))
  {
    var w0 := CrowdedWorld(w, plans, free, now, own);
    TakenHolds(w.fi.id, now);
    forall i | 0 <= i < |plans|
      ensures Busy(w0, plans[i], now)
      ensures free == "" ==> plans[i].leaseName in w0.leases && !LeaseProtocol.Stale(w0.leases[plans[i].leaseName], now)
    {
      var p := plans[i];
      assert p in plans && (p.jobName in w.jobs <==> p.jobName in w.jobs.Keys);
      assert p.jobName != free && p.jobName !in own ==> w0.leases[p.jobName] == Taken(w.fi.id, now);
    }
  }

  lemma FinishPass(s: Setting, w: World, plans: seq<Plan>, now: int, x: nat, own: map<string, LeaseProtocol.Lease>)
    requires LetIn(s, plans) && now >= LeaseProtocol.UNIX_EPOCH && x < |plans| && OneRunning(w.jobs, plans[x].jobName) && OwnHold(own, now)
    requires Open(w.fi.status.ticks, PlanKey(plans[x]))
    ensures var p := plans[x];
      var w0 := CrowdedWorld(w, plans, "", now, own);
      Becomes(w0, Pass(w0, w.fi.status.ticks, plans, now, Holder(s.c), CallsFor(RoundAt(s, now, x, p.jobName), |plans|), false).0,
              map[], w0.leases, w.log, iset{PlanKey(p)})
  {
    var p := plans[x];
    var w0 := CrowdedWorld(w, plans, "", now, own);
    var r := RoundAt(s, now, x, p.jobName);
    var es := CallsFor(r, |plans|);
    AllLet(s, plans, r, x, p.jobName);
    RunningCrowd(s, w, plans, "", now, p.jobName, own);
    OpenIsNotSkipped(w.fi.status.ticks, p);
    PassFinishes(w0, w.fi.status.ticks, plans, now, Holder(s.c), es, false, x);
    assert w0.jobs - {p.jobName} == map[];
  }

  /** Plan x books its Job, which has just completed. */
  lemma FinishTurn(s: Setting, w: World, jobs: map<string, Job>, log: seq<Creation>, closed: iset<TickKey>, now: int, t: int, x: nat, own: map<string, LeaseProtocol.Lease>) returns (events: seq<Experiment.Event>)
    requires Viable(s) && Scene(s, w, jobs, log, closed) && InTime(s, now) && t <= now && OwnHold(own, now)
    requires x < |PlansAt(s, now)| && PlanKey(PlansAt(s, now)[x]) !in closed && OneRunning(jobs, PlansAt(s, now)[x].jobName)
    ensures OrderlyRun(w, s.c, events, t) && EventsAt(events, now, s.pods)
    ensures TurnWith(events, CrowdedLeases(s.id, PlansAt(s, now), "", now, own))
    ensures Experiment.RunOf(w, s.c, events).leases == CrowdedLeases(s.id, PlansAt(s, now), "", now, own)
    ensures Scene(s, Experiment.RunOf(w, s.c, events), map[], log, closed + iset{PlanKey(PlansAt(s, now)[x])})
  {
    var plans := PlansAt(s, now);
    PlansLetIn(s, now);
    FinishPass(s, w, plans, now, x, own);
    events := PlayTurn(s, w, closed, now, t, "", own, x, plans[x].jobName, map[], CrowdedLeases(s.id, plans, "", now, own), log, iset{PlanKey(plans[x])});
  }

  lemma RepeatPass(s: Setting, w: World, plans: seq<Plan>, now: int, x: nat, y: nat, own: map<string, LeaseProtocol.Lease>) returns (w1: World)
    requires x < |plans| && OwnStale(own, plans[x].jobName, now) && LetIn(s, plans) && now >= LeaseProtocol.UNIX_EPOCH && x < y < |plans| && OneRunning(w.jobs, plans[x].jobName)
    requires plans[y].jobName == plans[x].jobName && forall i :: x < i < y ==> plans[i].jobName != plans[x].jobName
    requires Open(w.fi.status.ticks, PlanKey(plans[x])) && Open(w.fi.status.ticks, PlanKey(plans[y])) && PickOf(s, plans[y]) != []
    ensures var w0 := CrowdedWorld(w, plans, plans[x].jobName, now, own);
      w1 == Pass(w0, w.fi.status.ticks, plans, now, Holder(s.c), CallsFor(RoundAt(s, now, x, plans[x].jobName), |plans|), false).0
    ensures w1.log == w.log + [Creation(plans[y].action, plans[y].tick, PickOf(s, plans[y]))]
  {
    var n := plans[x].jobName;
    var w0 := CrowdedWorld(w, plans, n, now, own);
    assert plans[x] in plans && plans[y] in plans;
    var r := RoundAt(s, now, x, n);
    var es := CallsFor(r, |plans|);
    AllLet(s, plans, r, x, n);
    RunningCrowd(s, w, plans, n, now, n, own);
    OpenIsNotSkipped(w.fi.status.ticks, plans[x]);
    OpenIsNotSkipped(w.fi.status.ticks, plans[y]);
    PassRepeats(w0, w.fi.status.ticks, plans, now, Holder(s.c), es, x, y);
    w1 := Pass(w0, w.fi.status.ticks, plans, now, Holder(s.c), es, false).0;
  }

  /** Plan x books its Job, which has just completed, and plan y creates it again. */
  lemma RepeatTurn(s: Setting, w: World, jobs: map<string, Job>, log: seq<Creation>, closed: iset<TickKey>, now: int, t: int, x: nat, y: nat, own: map<string, LeaseProtocol.Lease>) returns (events: seq<Experiment.Event>)
    requires Viable(s) && Scene(s, w, jobs, log, closed) && InTime(s, now) && t <= now && x < |PlansAt(s, now)| && OwnStale(own, PlansAt(s, now)[x].jobName, now)
    requires var plans := PlansAt(s, now);
      && x < y < |plans| && OneRunning(jobs, plans[x].jobName)
      && plans[y].jobName == plans[x].jobName && (forall i :: x < i < y ==> plans[i].jobName != plans[x].jobName)
      && PlanKey(plans[x]) !in closed && PlanKey(plans[y]) !in closed && PickOf(s, plans[y]) != []
    ensures OrderlyRun(w, s.c, events, t) && EventsAt(events, now, s.pods)
    ensures TurnWith(events, CrowdedLeases(s.id, PlansAt(s, now), PlansAt(s, now)[x].jobName, now, own))
    ensures var p := PlansAt(s, now)[y];
      Experiment.RunOf(w, s.c, events).log == log + [Creation(p.action, p.tick, PickOf(s, p))]
  {
    var plans := PlansAt(s, now);
    PlansLetIn(s, now);
    var w1 := RepeatPass(s, w, plans, now, x, y, own);
    events := TurnAt(s, w, CrowdedLeases(s.id, plans, plans[x].jobName, now, own), now, t, x, plans[x].jobName);
  }

  /** The events of a turn that arranges these Leases. */
  ghost predicate TurnWith(events: seq<Experiment.Event>, leases: map<string, LeaseProtocol.Lease>) {
    |events| == 2 && events[0] == Experiment.OtherLeases(leases) && events[1].Reconciling?
  }

  /** A turn, from what its pass leaves. */
  lemma PlayTurn(s: Setting, w: World, closed: iset<TickKey>, now: int, t: int, free: string, own: map<string, LeaseProtocol.Lease>, at: nat, jobName: string, jobs: map<string, Job>, leases: map<string, LeaseProtocol.Lease>, log: seq<Creation>, more: iset<TickKey>) returns (events: seq<Experiment.Event>)
    requires Viable(s) && Onstage(s, w) && (forall k :: k !in closed ==> Open(w.fi.status.ticks, k)) && InTime(s, now) && t <= now
    requires var plans := PlansAt(s, now);
      var w0 := CrowdedWorld(w, plans, free, now, own);
      Becomes(w0, Pass(w0, w.fi.status.ticks, plans, now, Holder(s.c), CallsFor(RoundAt(s, now, at, jobName), |plans|), false).0, jobs, leases, log, more)
    ensures OrderlyRun(w, s.c, events, t) && EventsAt(events, now, s.pods)
    ensures TurnWith(events, CrowdedLeases(s.id, PlansAt(s, now), free, now, own)) && Experiment.RunOf(w, s.c, events).leases == leases
    ensures Scene(s, Experiment.RunOf(w, s.c, events), jobs, log, closed + more)
  {
    var plans := PlansAt(s, now);
    events := TurnAt(s, w, CrowdedLeases(s.id, plans, free, now, own), now, t, at, jobName);
    NextScene(s, w, CrowdedWorld(w, plans, free, now, own), Experiment.RunOf(w, s.c, events), jobs, leases, log, closed, more);
  }

  /** All reconciles of these events are at `now` and list these pods. */
  ghost predicate EventsAt(events: seq<Experiment.Event>, now: int, pods: seq<Pod>) {
    forall i :: 0 <= i < |events| ==> EventAt(events[i], now, pods)
  }

  ghost predicate EventAt(ev: Experiment.Event, now: int, pods: seq<Pod>) {
    ev.Reconciling? ==>
      ev.round.now == now && ev.round.lifecycleClock == now && forall i: nat :: ev.round.calls(i).pods == Some(pods)
  }
}
