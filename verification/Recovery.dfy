/** Phase Error does not stop an experiment: the tick after a failed one runs. */
module Recovery {
  import opened Api
  import opened Cluster
  import Mesh
  import Targets
  import opened Ticks
  import opened Protocol
  import opened Execution
  import opened Reconciler
  import Apart
  import opened Rehearsal
  import Experiment
  import LeaseProtocol

  /** The plan meets no failure: calls go well, there are pods enough, and a Job of its
      name, if any, has not failed. */
  ghost predicate Smooth(w: World, p: Plan, e: Surroundings) {
    Lets(e, p) && e.finished == [] && (p.jobName in w.jobs ==> w.jobs[p.jobName].complete || !w.jobs[p.jobName].failed)
  }

  /** Nothing changes but under the plan's own name. */
  ghost predicate Aside(w: World, w1: World, p: Plan) {
    && w1.fi.status.phase == w.fi.status.phase && w.log <= w1.log
    && w1.jobs - {p.jobName} == w.jobs - {p.jobName} && w1.leases - {p.leaseName} == w.leases - {p.leaseName}
  }

  lemma SmoothStep(w: World, snapshot: seq<Tick>, p: Plan, now: int, holder: string, e: Surroundings)
    requires Smooth(w, p, e)
    ensures var (w1, v) := PlanStep(w, snapshot, p, now, holder, e); v.Continue? && Aside(w, w1, p)
  {
    assert w.(jobs := FinishJobs(w.jobs, [])) == w;
    if p.jobName in w.jobs { SmoothObserve(w, p, now, e); } else { SmoothLaunch(w, p, now, holder, e); }
  }

  lemma SmoothObserve(w: World, p: Plan, now: int, e: Surroundings)
    requires Smooth(w, p, e) && p.jobName in w.jobs
    ensures var (w1, v) := Observe(w, p, now, e); v.Continue? && Aside(w, w1, p)
  {
    assert w.jobs - {p.jobName} - {p.jobName} == w.jobs - {p.jobName};
  }

  lemma SmoothLaunch(w: World, p: Plan, now: int, holder: string, e: Surroundings)
    requires Smooth(w, p, e) && p.jobName !in w.jobs
    ensures var (w1, v) := Launch(w, p, now, holder, e); v.Continue? && Aside(w, w1, p)
  {
    var selected := Pick(e, p);
    var w1 := w.WithTicks(RecordPlanned(w.fi.status.ticks, PlanKey(p), p.jobName, selected, now));
    assert Aside(w, w1, p);
    SmoothLaunchSelected(w1, p, selected, now, holder, e);
  }

  lemma SmoothLaunchSelected(w: World, p: Plan, selected: seq<string>, now: int, holder: string, e: Surroundings)
    requires Calm(e) && p.jobName !in w.jobs
    ensures var (w1, v) := LaunchSelected(w, p, selected, now, holder, e); v.Continue? && Aside(w, w1, p)
  {
    var jobs := w.jobs[p.jobName := Job(OwnerOf(w.fi), p.action, p.tick, selected, false, false)];
    assert jobs - {p.jobName} == w.jobs - {p.jobName};
    var (lease, ok) := LeaseProtocol.Acquire(Lookup(w.leases, p.leaseName), OwnerOf(w.fi), holder, now);
    assert w.leases[p.leaseName := lease.value] - {p.leaseName} == w.leases - {p.leaseName};
  }

  ghost predicate AllSmooth(w: World, plans: seq<Plan>, es: seq<Surroundings>)
    requires |es| == |plans|
  {
    forall i :: 0 <= i < |plans| ==> Smooth(w, plans[i], es[i])
  }

  ghost predicate Elsewhere(plans: seq<Plan>, n: string) {
    forall p :: p in plans ==> p.jobName != n
  }

  lemma SmoothRest(w: World, w1: World, plans: seq<Plan>, es: seq<Surroundings>)
    requires |es| == |plans| && plans != [] && AllSmooth(w, plans, es) && PlansApart(plans) && Aside(w, w1, plans[0])
    ensures AllSmooth(w1, plans[1..], es[1..])
  {
    forall i | 0 <= i < |plans[1..]| ensures Smooth(w1, plans[1..][i], es[1..][i]) {
      var q := plans[i + 1];
      assert plans[1..][i] == q && es[1..][i] == es[i + 1] && Smooth(w, q, es[i + 1]) && q.jobName != plans[0].jobName;
      assert q.jobName in w1.jobs <==> q.jobName in w1.jobs - {plans[0].jobName};
      assert q.jobName in w.jobs <==> q.jobName in w.jobs - {plans[0].jobName};
      if q.jobName in w1.jobs { assert w1.jobs[q.jobName] == (w1.jobs - {plans[0].jobName})[q.jobName]; }
    }
  }

  lemma AsideElsewhere(w: World, w1: World, p: Plan, n: string)
    requires Aside(w, w1, p) && p.leaseName == p.jobName != n
    ensures Lookup(w1.jobs, n) == Lookup(w.jobs, n) && Lookup(w1.leases, n) == Lookup(w.leases, n)
  {
    assert n in w1.jobs <==> n in w1.jobs - {p.jobName};
    assert n in w.jobs <==> n in w.jobs - {p.jobName};
    assert n in w1.leases <==> n in w1.leases - {p.leaseName};
    assert n in w.leases <==> n in w.leases - {p.leaseName};
    if n in w1.jobs { assert w1.jobs[n] == (w1.jobs - {p.jobName})[n]; }
    if n in w1.leases { assert w1.leases[n] == (w1.leases - {p.leaseName})[n]; }
  }

  /** Plans that meet no failure run through, and leave other names alone. */
  lemma {:induction false} SmoothPass(w: World, snapshot: seq<Tick>, plans: seq<Plan>, now: int, holder: string, es: seq<Surroundings>, pending: bool, n: string)
    requires |es| == |plans| && AllSmooth(w, plans, es) && PlansApart(plans) && OneName(plans) && Elsewhere(plans, n)
    ensures var (w1, v) := Pass(w, snapshot, plans, now, holder, es, pending);
      && v.Continue? && w1.fi.status.phase == w.fi.status.phase && w.log <= w1.log
      && Lookup(w1.jobs, n) == Lookup(w.jobs, n) && Lookup(w1.leases, n) == Lookup(w.leases, n)
    decreases plans
  {
    if plans != [] {
      assert plans[0] in plans;
      var (w0, v) := PlanStep(w, snapshot, plans[0], now, holder, es[0]);
      SmoothStep(w, snapshot, plans[0], now, holder, es[0]);
      AsideElsewhere(w, w0, plans[0], n);
      SmoothRest(w, w0, plans, es);
      ApartRest(plans);
      SmoothPass(w0, snapshot, plans[1..], now, holder, es[1..], pending || v.pending, n);
    }
  }

  /** A plan whose name is free: no Job, and no Lease that still holds. */
  ghost predicate Free(w: World, p: Plan, now: int) {
    p.jobName !in w.jobs && (p.leaseName in w.leases ==> LeaseProtocol.Stale(w.leases[p.leaseName], now))
  }

  lemma FreeStep(w: World, snapshot: seq<Tick>, p: Plan, now: int, holder: string, e: Surroundings)
    requires Smooth(w, p, e) && Free(w, p, now) && !Skipped(snapshot, p) && Pick(e, p) != []
    ensures var w1 := PlanStep(w, snapshot, p, now, holder, e).0;
      Held(w1, p.jobName) && w1.log == w.log + [Creation(p.action, p.tick, Pick(e, p))]
  {
    assert w.(jobs := FinishJobs(w.jobs, [])) == w;
  }

  lemma LogGrows(log: seq<Creation>, c: Creation, log1: seq<Creation>)
    requires log + [c] <= log1
    ensures c in log1
  {
    assert log1[|log|] == (log + [c])[|log|];
  }

  /** Among plans that meet no failure, one that is open and free gets its Job. */
  lemma {:induction false} OpenPlanLaunched(w: World, snapshot: seq<Tick>, plans: seq<Plan>, now: int, holder: string, es: seq<Surroundings>, pending: bool, x: nat)
    requires |es| == |plans| && x < |plans| && AllSmooth(w, plans, es) && PlansApart(plans) && OneName(plans)
    requires Free(w, plans[x], now) && !Skipped(snapshot, plans[x]) && Pick(es[x], plans[x]) != []
    ensures var (w1, v) := Pass(w, snapshot, plans, now, holder, es, pending);
      && v.Continue? && w1.fi.status.phase == w.fi.status.phase && plans[x].jobName in w1.jobs
      && Creation(plans[x].action, plans[x].tick, Pick(es[x], plans[x])) in w1.log
    decreases plans
  {
    var n := plans[x].jobName;
    var (w0, v) := PlanStep(w, snapshot, plans[0], now, holder, es[0]);
    assert plans[0] in plans && plans[x] in plans;
    SmoothStep(w, snapshot, plans[0], now, holder, es[0]);
    SmoothRest(w, w0, plans, es);
    ApartRest(plans);
    if x == 0 {
      FreeStep(w, snapshot, plans[0], now, holder, es[0]);
      SmoothPass(w0, snapshot, plans[1..], now, holder, es[1..], pending || v.pending, n);
      var c := Creation(plans[0].action, plans[0].tick, Pick(es[0], plans[0]));
      LogGrows(w.log, c, Pass(w0, snapshot, plans[1..], now, holder, es[1..], pending || v.pending).0.log);
    } else {
      AsideElsewhere(w, w0, plans[0], n);
      assert plans[1..][x - 1] == plans[x] && es[1..][x - 1] == es[x];
      OpenPlanLaunched(w0, snapshot, plans[1..], now, holder, es[1..], pending || v.pending, x - 1);
    }
  }

  /** What the reconcile after a failed tick meets: the spec is accepted and not expired,
      its targets take their rules, no plan meets a failure, and plan x is open and free. */
  ghost predicate NextTickReady(l: World, c: Controller, r: Round, x: nat) {
    && Timed(l.fi.status) && r.now <= l.fi.status.expiresAt.value && Acceptable(l, r) && Mesh.AllDereferenceable(l.fi.spec.meshFaults)
    && Injecting(l, c, r.order).1 == Targets.NoFailure
    && var b := BuildPlans(c.hash, l.fi.id, l.fi.spec, r.now, l.fi.status.startedAt.value);
       var es := CallsFor(r, |b.plans|);
       && b.ok && PlansApart(b.plans) && AllSmooth(l, b.plans, es)
       && x < |b.plans| && Free(l, b.plans[x], r.now) && !Skipped(l.fi.status.ticks, b.plans[x]) && Pick(es[x], b.plans[x]) != []
  }

  /** A failed tick does not stop the ticks after it. Whatever put the experiment in phase
      Error, its next such reconcile ends Running, with the new tick's Job created. */
  lemma FailedTickDoesNotStop(w: World, c: Controller, r: Round, x: nat)
    requires w.fi.status.phase == Error && !w.fi.spec.cancel
    ensures var l := WithLifecycle(w, r.lifecycleClock);
      NextTickReady(l, c, r, x) ==>
        var p := BuildPlans(c.hash, l.fi.id, l.fi.spec, r.now, l.fi.status.startedAt.value).plans[x];
        var w1 := Reconciled(w, c, r).0;
        && w1.fi.status.phase == Running && p.jobName in w1.jobs
        && Creation(p.action, p.tick, Pick(r.calls(x), p)) in w1.log
  {
    var l := WithLifecycle(w, r.lifecycleClock);
    if NextTickReady(l, c, r, x) {
      Experiment.ActiveMesh(l, c, r);
      NextTickRuns(l, Injecting(l, c, r.order).0, c, r, x);
    }
  }

  lemma NextTickRuns(l: World, w0: World, c: Controller, r: Round, x: nat)
    requires NextTickReady(l, c, r, x) && w0 == Injecting(l, c, r.order).0
    ensures var p := BuildPlans(c.hash, l.fi.id, l.fi.spec, r.now, l.fi.status.startedAt.value).plans[x];
      var w1 := Executing(w0, c, r, l.fi.status.expiresAt.value).0;
      && w1.fi.status.phase == Running && p.jobName in w1.jobs
      && Creation(p.action, p.tick, Pick(r.calls(x), p)) in w1.log
  {
    var plans := BuildPlans(c.hash, l.fi.id, l.fi.spec, r.now, l.fi.status.startedAt.value).plans;
    var es := CallsFor(r, |plans|);
    forall p | p in plans ensures p.leaseName == p.jobName {
      Apart.BuiltNamed(c.hash, l.fi.id, l.fi.spec, r.now, l.fi.status.startedAt.value);
      PlansAreDue(c.hash, l.fi.id, l.fi.spec, r.now, l.fi.status.startedAt.value);
      var a := Apart.PlanMember(c.hash, l.fi.id, l.fi.spec, r.now, l.fi.status.startedAt.value, p);
    }
    forall i | 0 <= i < |plans| ensures Smooth(w0, plans[i], es[i]) { assert Smooth(l, plans[i], es[i]); }
    OpenPlanLaunched(w0, w0.fi.status.ticks, plans, r.now, Holder(c), es, false, x);
  }
}
