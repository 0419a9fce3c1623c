/** What a reconcile answers: when it comes back, and by when. */
module Answers {
  import opened Wrappers
  import opened Machine
  import opened Names
  import opened Helpers
  import opened Api
  import opened VirtualServices
  import opened Cluster
  import opened Mesh
  import opened Validation
  import opened Targets
  import opened PodSelection
  import opened Ticks
  import opened Protocol
  import opened Execution
  import opened Lifecycle
  import opened Reconciler
  import opened Guardrails
  import LeaseProtocol
  import Experiment
  import Lifetime
  import Outcomes

  // ---------------------------------------------------------------- one plan

  /** Enough candidates for the plan's refusal floor. */
  predicate Enough(pods: seq<Pod>, p: Plan) {
    Wrap32(|Candidates(pods)|) >= p.refuseIfPodsLessThan
  }

  /** Nobody holds the plan's Lease. */
  predicate LeaseFree(w: World, p: Plan, now: int) {
    p.leaseName in w.leases ==> LeaseProtocol.Stale(w.leases[p.leaseName], now)
  }

  function Picked(pods: seq<Pod>, p: Plan): seq<string> {
    Select(Candidates(pods), p.count, p.percent, p.cap)
  }

  /** The plan is looked at, and its Job is there or not. */
  predicate Looked(w: World, snapshot: seq<Tick>, p: Plan, e: Surroundings, there: bool) {
    !Skipped(snapshot, p) && e.getJobOk && (p.jobName in Outcomes.JobsSeen(w, e)) == there
  }

  /** Its Job is running, or is created. */
  predicate Waits(w: World, snapshot: seq<Tick>, p: Plan, now: int, e: Surroundings) {
    var jobs := Outcomes.JobsSeen(w, e);
    || (Looked(w, snapshot, p, e, true) && !jobs[p.jobName].complete && !jobs[p.jobName].failed)
    || (Looked(w, snapshot, p, e, false) && e.pods.Some? && Enough(e.pods.value, p) && Picked(e.pods.value, p) != []
        && LeaseFree(w, p, now) && e.lease == Ok && e.create == Ok)
  }

  /** A failed Job is booked, or the plan refused, and phase Error written. */
  predicate Stops(w: World, snapshot: seq<Tick>, p: Plan, e: Surroundings) {
    var jobs := Outcomes.JobsSeen(w, e);
    && e.phase == Ok
    && (|| (Looked(w, snapshot, p, e, true) && !jobs[p.jobName].complete && jobs[p.jobName].failed && e.executed == Ok)
        || (Looked(w, snapshot, p, e, false) && e.pods.Some? && !Enough(e.pods.value, p)))
  }

  /** A call the plan depends on fails, or its reply is lost. */
  predicate CallFails(w: World, snapshot: seq<Tick>, p: Plan, now: int, e: Surroundings) {
    var jobs := Outcomes.JobsSeen(w, e);
    || (!Skipped(snapshot, p) && !e.getJobOk)
    || (Looked(w, snapshot, p, e, true) && (jobs[p.jobName].complete || jobs[p.jobName].failed)
        && (e.executed != Ok || (!jobs[p.jobName].complete && e.phase != Ok)))
    || (Looked(w, snapshot, p, e, false)
        && (|| e.pods.None?
            || (!Enough(e.pods.value, p) && e.phase != Ok)
            || (Enough(e.pods.value, p) && Picked(e.pods.value, p) != [] && (e.lease != Ok || (LeaseFree(w, p, now) && e.create != Ok)))))
  }

  /** What a verdict other than to go on with nothing pending means. */
  predicate Means(v: PlanVerdict, w: World, snapshot: seq<Tick>, p: Plan, now: int, e: Surroundings) {
    match v
    case Stop => Stops(w, snapshot, p, e)
    case Fail => CallFails(w, snapshot, p, now, e)
    case Continue(_) => Waits(w, snapshot, p, now, e)
  }

  ghost predicate Telling(v: PlanVerdict) { v != Continue(false) }

  lemma StepVerdict(w: World, snapshot: seq<Tick>, p: Plan, now: int, holder: string, e: Surroundings, v: PlanVerdict)
    requires Telling(v)
    ensures PlanStep(w, snapshot, p, now, holder, e).1 == v <==> Means(v, w, snapshot, p, now, e)
  {
    var w0 := w.(jobs := FinishJobs(w.jobs, e.finished));
    if !Skipped(snapshot, p) && e.getJobOk {
      if p.jobName in w0.jobs { ObserveVerdict(w0, p, now, e); } else { LaunchVerdict(w0, p, now, holder, e); }
    }
  }

  lemma ObserveVerdict(w: World, p: Plan, now: int, e: Surroundings)
    requires p.jobName in w.jobs
    ensures var job := w.jobs[p.jobName];
      Observe(w, p, now, e).1
      == if !job.complete && !job.failed then Continue(true)
         else if e.executed != Ok then Fail
         else if job.complete then Continue(false)
         else if e.phase == Ok then Stop else Fail
  {
  }

  lemma LaunchVerdict(w: World, p: Plan, now: int, holder: string, e: Surroundings)
    requires p.jobName !in w.jobs
    ensures Launch(w, p, now, holder, e).1
      == if e.pods.None? then Fail
         else if !Enough(e.pods.value, p) then (if e.phase == Ok then Stop else Fail)
         else if Picked(e.pods.value, p) == [] then Continue(false)
         else if e.lease != Ok then Fail
         else if !LeaseFree(w, p, now) then Continue(false)
         else if e.create == Ok then Continue(true) else Fail
  {
  }

  // ---------------------------------------------------------------- one pass

  /** The pass gets to plan k, and there this happens. */
  ghost predicate MeansAt(v: PlanVerdict, w: World, snapshot: seq<Tick>, plans: seq<Plan>, now: int, holder: string, es: seq<Surroundings>, pending: bool, k: nat)
    requires |es| == |plans| && k < |plans|
  {
    var (w1, before) := Pass(w, snapshot, plans[..k], now, holder, es[..k], pending);
    before.Continue? && Means(v, w1, snapshot, plans[k], now, es[k])
  }

  ghost predicate Somewhere(v: PlanVerdict, w: World, snapshot: seq<Tick>, plans: seq<Plan>, now: int, holder: string, es: seq<Surroundings>, pending: bool)
    requires |es| == |plans|
  {
    exists k :: 0 <= k < |plans| && MeansAt(v, w, snapshot, plans, now, holder, es, pending, k)
  }

  lemma MeansFirst(v: PlanVerdict, w: World, snapshot: seq<Tick>, plans: seq<Plan>, now: int, holder: string, es: seq<Surroundings>, pending: bool)
    requires |es| == |plans| && plans != []
    ensures MeansAt(v, w, snapshot, plans, now, holder, es, pending, 0) <==> Means(v, w, snapshot, plans[0], now, es[0])
  {
    assert plans[..0] == [] && es[..0] == [];
  }

  lemma MeansLater(v: PlanVerdict, w: World, snapshot: seq<Tick>, plans: seq<Plan>, now: int, holder: string, es: seq<Surroundings>, pending: bool, k: nat)
    requires |es| == |plans| && 0 < k < |plans|
    ensures var (w1, u) := PlanStep(w, snapshot, plans[0], now, holder, es[0]);
      MeansAt(v, w, snapshot, plans, now, holder, es, pending, k)
      <==> u.Continue? && MeansAt(v, w1, snapshot, plans[1..], now, holder, es[1..], pending || u.pending, k - 1)
  {
    Experiment.PassHead(w, snapshot, plans, now, holder, es, pending, k);
  }

  lemma SomewhereSplit(v: PlanVerdict, w: World, snapshot: seq<Tick>, plans: seq<Plan>, now: int, holder: string, es: seq<Surroundings>, pending: bool)
    requires |es| == |plans| && plans != []
    ensures var (w1, u) := PlanStep(w, snapshot, plans[0], now, holder, es[0]);
      Somewhere(v, w, snapshot, plans, now, holder, es, pending)
      <==> Means(v, w, snapshot, plans[0], now, es[0])
           || (u.Continue? && Somewhere(v, w1, snapshot, plans[1..], now, holder, es[1..], pending || u.pending))
  {
    var (w1, u) := PlanStep(w, snapshot, plans[0], now, holder, es[0]);
    MeansFirst(v, w, snapshot, plans, now, holder, es, pending);
    if k :| 0 <= k < |plans| && MeansAt(v, w, snapshot, plans, now, holder, es, pending, k) {
      if k > 0 { MeansLater(v, w, snapshot, plans, now, holder, es, pending, k); }
    }
    if u.Continue? && Somewhere(v, w1, snapshot, plans[1..], now, holder, es[1..], pending || u.pending) {
      var k :| 0 <= k < |plans[1..]| && MeansAt(v, w1, snapshot, plans[1..], now, holder, es[1..], pending || u.pending, k);
      MeansLater(v, w, snapshot, plans, now, holder, es, pending, k + 1);
    }
  }

  /** A pass stops or fails exactly by a plan it gets to, and goes on with something pending
      exactly when some Job on the way is running or was created. */
  lemma {:induction false} PassVerdict(w: World, snapshot: seq<Tick>, plans: seq<Plan>, now: int, holder: string, es: seq<Surroundings>, pending: bool)
    requires |es| == |plans|
    ensures var v := Pass(w, snapshot, plans, now, holder, es, pending).1;
      && (v == Stop <==> Somewhere(Stop, w, snapshot, plans, now, holder, es, pending))
      && (v == Fail <==> Somewhere(Fail, w, snapshot, plans, now, holder, es, pending))
      && (v.Continue? ==> (v.pending <==> pending || Somewhere(Continue(true), w, snapshot, plans, now, holder, es, pending)))
    decreases plans
  {
    if plans != [] {
      var (w1, u) := PlanStep(w, snapshot, plans[0], now, holder, es[0]);
      forall v | v in {Stop, Fail, Continue(true)}
        ensures u == v <==> Means(v, w, snapshot, plans[0], now, es[0])
        ensures Somewhere(v, w, snapshot, plans, now, holder, es, pending)
           <==> u == v || (u.Continue? && Somewhere(v, w1, snapshot, plans[1..], now, holder, es[1..], pending || u.pending))
      {
        StepVerdict(w, snapshot, plans[0], now, holder, es[0], v);
        SomewhereSplit(v, w, snapshot, plans, now, holder, es, pending);
      }
      if u.Continue? { PassVerdict(w1, snapshot, plans[1..], now, holder, es[1..], pending || u.pending); }
    }
  }

  // ---------------------------------------------------------------- Jobs that are there afterwards

  /** A step that leaves nothing pending makes no Job, and where it leaves its plan's there
      the tick is booked. */
  lemma StepLeaves(w: World, snapshot: seq<Tick>, p: Plan, now: int, holder: string, e: Surroundings)
    requires PlanStep(w, snapshot, p, now, holder, e).1 == Continue(false)
    ensures var w1 := PlanStep(w, snapshot, p, now, holder, e).0;
      w1.jobs.Keys <= w.jobs.Keys && (!Skipped(snapshot, p) && p.jobName in w1.jobs ==> IsDone(w1, PlanKey(p)))
  {
    FinishJobsKeys(w.jobs, e.finished);
    var w0 := w.(jobs := FinishJobs(w.jobs, e.finished));
    if !Skipped(snapshot, p) {
      if p.jobName in w0.jobs {
        ObserveVerdict(w0, p, now, e);
        Outcomes.StepBooks(w, snapshot, p, now, holder, e);
        Outcomes.ObserveJobs(w0, p, now, e);
      } else {
        LaunchLeaves(w0, p, now, holder, e);
      }
    }
  }

  lemma LaunchLeaves(w: World, p: Plan, now: int, holder: string, e: Surroundings)
    requires p.jobName !in w.jobs && Launch(w, p, now, holder, e).1 == Continue(false)
    ensures Launch(w, p, now, holder, e).0.jobs == w.jobs
  {
  }

  lemma StepStaysDone(w: World, snapshot: seq<Tick>, p: Plan, now: int, holder: string, e: Surroundings, k: TickKey)
    requires IsDone(w, k)
    ensures IsDone(PlanStep(w, snapshot, p, now, holder, e).0, k)
  {
    StepHasEffect(w, snapshot, p, now, holder, e);
    if PlanKey(p) == k { Outcomes.StepBooks(w, snapshot, p, now, holder, e); }
  }

  lemma {:induction false} PassStaysDone(w: World, snapshot: seq<Tick>, plans: seq<Plan>, now: int, holder: string, es: seq<Surroundings>, pending: bool, k: TickKey)
    requires |es| == |plans| && IsDone(w, k)
    ensures IsDone(Pass(w, snapshot, plans, now, holder, es, pending).0, k)
    decreases plans
  {
    if plans != [] {
      var (w1, v) := PlanStep(w, snapshot, plans[0], now, holder, es[0]);
      StepStaysDone(w, snapshot, plans[0], now, holder, es[0], k);
      if v.Continue? { PassStaysDone(w1, snapshot, plans[1..], now, holder, es[1..], pending || v.pending, k); }
    }
  }

  /** After a pass that leaves nothing pending, a plan's Job is there only if the tick is
      booked. */
  lemma {:induction false} PassLeaves(w: World, snapshot: seq<Tick>, plans: seq<Plan>, now: int, holder: string, es: seq<Surroundings>)
    requires |es| == |plans| && Pass(w, snapshot, plans, now, holder, es, false).1 == Continue(false)
    ensures var w1 := Pass(w, snapshot, plans, now, holder, es, false).0;
      w1.jobs.Keys <= w.jobs.Keys && forall p :: p in plans && !Skipped(snapshot, p) && p.jobName in w1.jobs ==> IsDone(w1, PlanKey(p))
    decreases plans
  {
    if plans != [] {
      var p, rest := plans[0], plans[1..];
      var (w1, v) := PlanStep(w, snapshot, p, now, holder, es[0]);
      if v.Continue? { PendingStays(w1, snapshot, rest, now, holder, es[1..], v.pending); }
      StepLeaves(w, snapshot, p, now, holder, es[0]);
      PassLeaves(w1, snapshot, rest, now, holder, es[1..]);
      if IsDone(w1, PlanKey(p)) { PassStaysDone(w1, snapshot, rest, now, holder, es[1..], false, PlanKey(p)); }
      assert plans == [p] + rest;
    }
  }

  lemma {:induction false} PendingStays(w: World, snapshot: seq<Tick>, plans: seq<Plan>, now: int, holder: string, es: seq<Surroundings>, pending: bool)
    requires |es| == |plans|
    ensures pending ==> Pass(w, snapshot, plans, now, holder, es, pending).1 != Continue(false)
    decreases plans
  {
    if plans != [] {
      var (w1, v) := PlanStep(w, snapshot, plans[0], now, holder, es[0]);
      if v.Continue? { PendingStays(w1, snapshot, plans[1..], now, holder, es[1..], pending || v.pending); }
    }
  }

  // ---------------------------------------------------------------- targets that do not take rules

  /** The object may be made, or is there with somewhere to send requests. */
  ghost predicate Takes(d: Wanted, current: Option<VirtualService>) {
    d.managed || (current.Some? && exists v :: v in HttpOf(current.value.spec) && RouteOf(v).Some?)
  }

  /** Target j is the first in the order visited that does not take its rules. */
  ghost predicate StuckAt(desired: map<string, Wanted>, vss: map<Key, VirtualService>, order: seq<string>, j: nat)
    requires forall k :: k in order ==> k in desired
  {
    && j < |order| && !Takes(desired[order[j]], Lookup(vss, SplitKey(order[j])))
    && forall i :: 0 <= i < j ==> Takes(desired[order[i]], Lookup(vss, SplitKey(order[i])))
  }

  lemma {:induction false} NoRouteAnywhere(list: seq<Value>)
    ensures FirstRoute(list).Some? <==> exists v :: v in list && RouteOf(v).Some?
  {
    if list != [] {
      assert list == [list[0]] + list[1..];
      NoRouteAnywhere(list[1..]);
    }
  }

  lemma OutcomeExact(id: Identity, current: Option<VirtualService>, d: Wanted, render: Render)
    ensures var o := ApplyOne(id, current, d, render);
      && (o.Applied? <==> Takes(d, current))
      && (o.Missing? <==> !Takes(d, current) && current.None?)
  {
    if current.Some? {
      HttpOfGateways(current.value.spec, d.managed);
      NoRouteAnywhere(HttpOf(current.value.spec));
    }
  }

  /** The mesh part fails exactly by the first target that does not take its rules: missing
      if it is not there, unsafe if it is. */
  lemma FailureExact(id: Identity, actions: seq<MeshAction>, vss: map<Key, VirtualService>, order: seq<string>, render: Render)
    requires AllDereferenceable(actions) && '/' !in id.ns && Enumerates(order, DesiredByTarget(id, actions).Keys)
    ensures var d := DesiredByTarget(id, actions);
      var failure := ApplyAll(id, vss, d, order, render).1;
      if forall k :: k in order ==> Takes(d[k], Lookup(vss, SplitKey(k))) then failure == NoFailure
      else exists j: nat :: StuckAt(d, vss, order, j) && failure == if SplitKey(order[j]) in vss then UnsafeTarget else MissingTarget
  {
    var d := DesiredByTarget(id, actions);
    var effect := EffectOf(id, d, render);
    TargetsDistinct(id, actions, order);
    VisitPointwise(vss, order, effect);
    forall k | k in order ensures effect(k, Lookup(vss, SplitKey(k))).Applied? <==> Takes(d[k], Lookup(vss, SplitKey(k))) {
      OutcomeExact(id, Lookup(vss, SplitKey(k)), d[k], render);
    }
    if VisitAll(vss, order, effect).1 != NoFailure {
      var j := FailureKeepsEarlier(vss, order, effect);
      StuckThere(id, d, vss, order, render, j);
      assert StuckAt(d, vss, order, j);
    }
  }

  lemma StuckThere(id: Identity, d: map<string, Wanted>, vss: map<Key, VirtualService>, order: seq<string>, render: Render, j: nat)
    requires (forall k :: k in order ==> k in d) && DistinctTargets(order) && j < |order|
    requires var effect := EffectOf(id, d, render);
      && VisitAll(vss, order[..j], effect).1 == NoFailure
      && !effect(order[j], Lookup(VisitAll(vss, order[..j], effect).0, SplitKey(order[j]))).Applied?
    ensures StuckAt(d, vss, order, j)
    ensures Visit(VisitAll(vss, order[..j], EffectOf(id, d, render)).0, order[j], EffectOf(id, d, render)).1
         == if SplitKey(order[j]) in vss then UnsafeTarget else MissingTarget
  {
    var effect := EffectOf(id, d, render);
    VisitPointwise(vss, order[..j], effect);
    forall k | k in order[..j] ensures SplitKey(k) != SplitKey(order[j]) {
      var i :| 0 <= i < j && order[..j][i] == k;
      assert order[i] == k;
    }
    var current := Lookup(vss, SplitKey(order[j]));
    assert Lookup(VisitAll(vss, order[..j], effect).0, SplitKey(order[j])) == current;
    OutcomeExact(id, current, d[order[j]], render);
    forall i | 0 <= i < j ensures Takes(d[order[i]], Lookup(vss, SplitKey(order[i]))) {
      assert order[i] in order[..j] by { assert order[..j][i] == order[i]; }
      OutcomeExact(id, Lookup(vss, SplitKey(order[i])), d[order[i]], render);
    }
  }

  // ---------------------------------------------------------------- what is answered

  /** The reconcile gets to inject faults: it comes before expiry, and under every guardrail. */
  ghost predicate Accepted(w: World, r: Round) {
    Ongoing(w, r) && !Unsound(w.fi.id, w.fi.spec, r.meshCounts, r.podCounts)
  }

  /** How the mesh part of an accepted reconcile ends (`FailureExact`). */
  ghost function MeshFailure(w: World, c: Controller, r: Round): Failure {
    if AllDereferenceable(w.fi.spec.meshFaults)
    then ApplyAll(w.fi.id, w.vss, DesiredByTarget(w.fi.id, w.fi.spec.meshFaults), r.order, c.render).1
    else NoFailure
  }

  /** Every pod action's tick that is due has a name. */
  ghost predicate Nameable(w: World, c: Controller, r: Round) {
    var st := WithLifecycle(w, r.lifecycleClock).fi.status;
    st.startedAt.Some? && forall a :: a in w.fi.spec.podFaults ==> NameableNow(c.hash, w.fi.id, a, r.now, st.startedAt.value)
  }

  /** In the pod part of an accepted reconcile, some plan it gets to has this verdict. */
  ghost predicate PodsMean(v: PlanVerdict, w: World, c: Controller, r: Round) {
    var l := WithLifecycle(w, r.lifecycleClock);
    && l.fi.status.startedAt.Some? && AllDereferenceable(w.fi.spec.meshFaults)
    && var w0 := Injecting(l, c, r.order).0;
       var plans := BuildPlans(c.hash, w.fi.id, w.fi.spec, r.now, l.fi.status.startedAt.value).plans;
       Somewhere(v, w0, w0.fi.status.ticks, plans, r.now, Holder(c), CallsFor(r, |plans|), false)
  }

  lemma ExecutingAnswer(w: World, c: Controller, r: Round, expiresAt: int)
    requires PodsValid(w.fi.id, w.fi.spec, r.podCounts) && w.fi.status.startedAt.Some?
    ensures var startedAt := w.fi.status.startedAt.value;
      var b := BuildPlans(c.hash, w.fi.id, w.fi.spec, r.now, startedAt);
      var v := Pass(w, w.fi.status.ticks, b.plans, r.now, Holder(c), CallsFor(r, |b.plans|), false).1;
      && (b.ok <==> forall a :: a in w.fi.spec.podFaults ==> NameableNow(c.hash, w.fi.id, a, r.now, startedAt))
      && Executing(w, c, r, expiresAt).1
         == if !b.ok then Retry
            else match v
              case Stop => Done
              case Fail => Retry
              case Continue(pending) => After(RequeueAfter(expiresAt, NextDue(b.earliestDue, pending, r.now), r.c1, r.c2, r.c3))
  {
    ValidPlansBuilt(c.hash, w.fi.id, w.fi.spec, r.podCounts, r.now, w.fi.status.startedAt.value);
  }

  /** The pod part of an accepted reconcile answers for the whole. */
  lemma AcceptedAnswer(w: World, c: Controller, r: Round)
    requires Accepted(w, r)
    ensures var l := WithLifecycle(w, r.lifecycleClock);
      && AllDereferenceable(w.fi.spec.meshFaults) && Acceptable(l, r)
      && Injecting(l, c, r.order).1 == MeshFailure(w, c, r)
      && Reconciled(w, c, r).1
         == match MeshFailure(w, c, r)
            case MissingTarget => Retry
            case UnsafeTarget => Done
            case NoFailure => Executing(Injecting(l, c, r.order).0, c, r, l.fi.status.expiresAt.value).1
  {
    ValidIsUnbroken(w.fi.id, w.fi.spec, r.meshCounts, r.podCounts);
    ValidDereferenceable(w.fi.spec, r.meshCounts);
    var l := WithLifecycle(w, r.lifecycleClock);
    assert Reconciled(w, c, r) == Active(l, c, r);
  }

  lemma NotAcceptedAnswer(w: World, c: Controller, r: Round)
    requires !Accepted(w, r)
    ensures Reconciled(w, c, r).1 == Done
  {
    ValidIsUnbroken(w.fi.id, w.fi.spec, r.meshCounts, r.podCounts);
    var l := WithLifecycle(w, r.lifecycleClock);
    assert !Timed(l.fi.status) ==> !EnsureLifecycle(l.fi.spec.durationSeconds, l.fi.status, r.now).1;
  }

  /** The pod part's answer, by what its plans meet. */
  lemma PodAnswer(w: World, c: Controller, r: Round)
    requires Accepted(w, r) && MeshFailure(w, c, r) == NoFailure
    ensures Reconciled(w, c, r).1 == Done <==> Nameable(w, c, r) && PodsMean(Stop, w, c, r)
    ensures Reconciled(w, c, r).1 == Retry <==> !Nameable(w, c, r) || PodsMean(Fail, w, c, r)
    ensures Reconciled(w, c, r).1 != Again
  {
    AcceptedAnswer(w, c, r);
    var l := WithLifecycle(w, r.lifecycleClock);
    var w0 := Injecting(l, c, r.order).0;
    Lifetime.InjectingSamePods(l, c, r.order);
    var plans := BuildPlans(c.hash, w.fi.id, w.fi.spec, r.now, l.fi.status.startedAt.value).plans;
    ExecutingAnswer(w0, c, r, l.fi.status.expiresAt.value);
    PassVerdict(w0, w0.fi.status.ticks, plans, r.now, Holder(c), CallsFor(r, |plans|), false);
  }

  /** Exactly when a reconcile is done with the experiment for now, is to be retried, or
      comes back by itself. It never asks to be called again at once: the branch that does
      is out of reach. */
  lemma AnswerExact(w: World, c: Controller, r: Round)
    ensures var answer := Reconciled(w, c, r).1;
      var failure := MeshFailure(w, c, r);
      && answer != Again
      && (answer == Done <==>
            || !Accepted(w, r) || failure == UnsafeTarget
            || (failure == NoFailure && Nameable(w, c, r) && PodsMean(Stop, w, c, r)))
      && (answer == Retry <==>
            && Accepted(w, r)
            && (failure == MissingTarget || (failure == NoFailure && (!Nameable(w, c, r) || PodsMean(Fail, w, c, r)))))
  {
    if !Accepted(w, r) {
      NotAcceptedAnswer(w, c, r);
    } else {
      AcceptedAnswer(w, c, r);
      if MeshFailure(w, c, r) == NoFailure { PodAnswer(w, c, r); }
    }
  }

  /** Whatever fails, what was done stays. The targets before the failing one keep their
      rules, and the phase is Error; and what the calls of the pod part did before one of
      them failed is not undone. */
  lemma FailureLeavesWhatWasDone(w: World, c: Controller, r: Round)
    requires Accepted(w, r) && '/' !in w.fi.id.ns
    requires AllDereferenceable(w.fi.spec.meshFaults) && Enumerates(r.order, DesiredByTarget(w.fi.id, w.fi.spec.meshFaults).Keys)
    ensures var w1 := Reconciled(w, c, r).0;
      var l := WithLifecycle(w, r.lifecycleClock);
      var d := DesiredByTarget(w.fi.id, w.fi.spec.meshFaults);
      if MeshFailure(w, c, r) == NoFailure then w1 == Lifetime.PassOf(Injecting(l, c, r.order).0, c, r)
      else
        && w1 == l.(vss := w1.vss).WithPhase(Error)
        && exists j: nat :: StuckAt(d, w.vss, r.order, j) && ApplyAll(w.fi.id, w.vss, d, r.order[..j], c.render) == (w1.vss, NoFailure)
  {
    AcceptedAnswer(w, c, r);
    var l := WithLifecycle(w, r.lifecycleClock);
    Experiment.ActiveMesh(l, c, r);
    if MeshFailure(w, c, r) == NoFailure {
      Lifetime.InjectingSamePods(l, c, r.order);
      Lifetime.ExecutingIsPass(Injecting(l, c, r.order).0, c, r, l.fi.status.expiresAt.value);
    } else {
      var j := StuckSomewhere(w.fi.id, w.fi.spec.meshFaults, w.vss, r.order, c.render);
    }
  }

  lemma StuckSomewhere(id: Identity, actions: seq<MeshAction>, vss: map<Key, VirtualService>, order: seq<string>, render: Render) returns (j: nat)
    requires AllDereferenceable(actions) && '/' !in id.ns && Enumerates(order, DesiredByTarget(id, actions).Keys)
    requires ApplyAll(id, vss, DesiredByTarget(id, actions), order, render).1 != NoFailure
    ensures var d := DesiredByTarget(id, actions);
      && StuckAt(d, vss, order, j)
      && ApplyAll(id, vss, d, order[..j], render) == (ApplyAll(id, vss, d, order, render).0, NoFailure)
  {
    var d := DesiredByTarget(id, actions);
    TargetsDistinct(id, actions, order);
    j := FailureKeepsEarlier(vss, order, EffectOf(id, d, render));
    StuckThere(id, d, vss, order, render, j);
  }

  // ---------------------------------------------------------------- when it comes back

  /** The first time after `now` at which an interval begins. */
  function NextStart(intervalSeconds: int, startedAt: int, now: int): int
    requires intervalSeconds >= 1
  {
    if now < startedAt then startedAt
    else startedAt + ((now - startedAt) / (intervalSeconds * 1_000_000_000) + 1) * (intervalSeconds * 1_000_000_000)
  }

  predicate Follows(a: PodAction) {
    SaysWindowed(a) && a.window.Some? && a.window.value.intervalSeconds >= 1
  }

  /** Some window's next tick begins then. */
  ghost predicate TickStarts(spec: Spec, startedAt: int, now: int, t: int) {
    exists a :: a in spec.podFaults && Follows(a) && t == NextStart(a.window.value.intervalSeconds, startedAt, now)
  }

  ghost function Starts(spec: Spec, startedAt: int, now: int): iset<int> {
    iset t: int | TickStarts(spec, startedAt, now, t)
  }

  ghost function TimesOf(spec: Spec, startedAt: int, now: int, pending: bool): iset<int> {
    Starts(spec, startedAt, now) + if pending then iset{now + 2_000_000_000} else iset{}
  }

  /** The times the reconcile is to be back for: the next tick of every window, and, with a
      Job running or created, two seconds on. */
  ghost function TimesFor(w: World, c: Controller, r: Round): iset<int> {
    TimesWhen(w.fi.spec, WithLifecycle(w, r.lifecycleClock).fi.status, r.now, PodsMean(Continue(true), w, c, r))
  }

  ghost function TimesWhen(spec: Spec, st: Status, now: int, pending: bool): iset<int> {
    if st.startedAt.Some? then TimesOf(spec, st.startedAt.value, now, pending) else iset{}
  }

  /** Until the windows are about 292 years old. */
  ghost predicate InTime(w: World, r: Round) {
    var st := WithLifecycle(w, r.lifecycleClock).fi.status;
    st.startedAt.Some? ==> forall a :: a in w.fi.spec.podFaults && Follows(a) ==>
      r.now - st.startedAt.value + a.window.value.intervalSeconds * 1_000_000_000 <= MAX_INT64
  }

  lemma NextStartIsBoundary(a: PodAction, startedAt: int, now: int)
    requires Follows(a) && now - startedAt + a.window.value.intervalSeconds * 1_000_000_000 <= MAX_INT64
    ensures !ComputeWindowedTick(a.window, now, startedAt).Invalid?
    ensures Boundary(a, now, startedAt) == NextStart(a.window.value.intervalSeconds, startedAt, now)
  {
    var i: int := a.window.value.intervalSeconds;
    assert Seconds(i) == i * SECOND;
    if now >= startedAt { TickBounds(a.window.value, now, startedAt); }
  }

  /** The least of the times to be back for. */
  ghost predicate LeastOf(due: Option<int>, times: iset<int>) {
    && (due.Some? ==> due.value in times && forall t :: t in times ==> due.value <= t)
    && (due.None? ==> forall t :: t !in times)
  }

  lemma EarliestIsLeast(h: Hash, id: Identity, spec: Spec, now: int, startedAt: int)
    requires BuildPlans(h, id, spec, now, startedAt).ok
    requires forall a :: a in spec.podFaults && Follows(a) ==> now - startedAt + a.window.value.intervalSeconds * 1_000_000_000 <= MAX_INT64
    ensures LeastOf(BuildPlans(h, id, spec, now, startedAt).earliestDue, Starts(spec, startedAt, now))
  {
    EarliestSound(h, id, spec, now, startedAt);
    forall a | a in spec.podFaults && Follows(a)
      ensures IsWindowed(a) && !ComputeWindowedTick(a.window, now, startedAt).Invalid?
      ensures Boundary(a, now, startedAt) == NextStart(a.window.value.intervalSeconds, startedAt, now)
    {
      NextStartIsBoundary(a, startedAt, now);
    }
    forall a | a in spec.podFaults && IsWindowed(a) && !ComputeWindowedTick(a.window, now, startedAt).Invalid? ensures Follows(a) {
    }
  }

  lemma NextDueIsLeast(earliest: Option<int>, starts: iset<int>, pending: bool, now: int)
    requires LeastOf(earliest, starts)
    ensures LeastOf(NextDue(earliest, pending, now), starts + if pending then iset{now + 2_000_000_000} else iset{})
  {
  }

  /** The delay, against all the times to be back for. */
  ghost predicate BackInTime(delay: int, expiresAt: int, times: iset<int>, r: Round) {
    if exists t :: t in times && t <= r.c3 then delay == 1_000_000_000
    else
      && delay <= expiresAt - r.c1 && (forall t :: t in times ==> r.c2 + delay <= t)
      && (delay == expiresAt - r.c1 || exists t :: t in times && r.c2 + delay == t)
  }

  lemma RequeueIsBack(expiresAt: int, due: Option<int>, times: iset<int>, r: Round)
    requires LeastOf(due, times) && r.c1 <= r.c2 <= r.c3
    ensures BackInTime(RequeueAfter(expiresAt, due, r.c1, r.c2, r.c3), expiresAt, times, r)
  {
  }

  /** A reconcile that comes back by itself has been through its pod part. */
  lemma ComesBack(w: World, c: Controller, r: Round)
    requires Reconciled(w, c, r).1.After?
    ensures var st := WithLifecycle(w, r.lifecycleClock).fi.status;
      && Timed(st)
      && var b := BuildPlans(c.hash, w.fi.id, w.fi.spec, r.now, st.startedAt.value);
         b.ok && Reconciled(w, c, r).1.delay
         == RequeueAfter(st.expiresAt.value, NextDue(b.earliestDue, PodsMean(Continue(true), w, c, r), r.now), r.c1, r.c2, r.c3)
  {
    AnswerExact(w, c, r);
    AcceptedAnswer(w, c, r);
    var l := WithLifecycle(w, r.lifecycleClock);
    var w0 := Injecting(l, c, r.order).0;
    Lifetime.InjectingSamePods(l, c, r.order);
    ExecutingAnswer(w0, c, r, l.fi.status.expiresAt.value);
    var plans := BuildPlans(c.hash, w.fi.id, w.fi.spec, r.now, l.fi.status.startedAt.value).plans;
    PassVerdict(w0, w0.fi.status.ticks, plans, r.now, Holder(c), CallsFor(r, |plans|), false);
  }

  /** When a reconcile comes back by itself: one second on, if a time to be back for has
      passed meanwhile; and otherwise at the earliest of them and of expiry, as the clock
      stood when that was computed. */
  lemma WakesExactly(w: World, c: Controller, r: Round)
    requires Reconciled(w, c, r).1.After? && InTime(w, r) && r.c1 <= r.c2 <= r.c3
    ensures var st := WithLifecycle(w, r.lifecycleClock).fi.status;
      Timed(st) && BackInTime(Reconciled(w, c, r).1.delay, st.expiresAt.value, TimesFor(w, c, r), r)
  {
    ComesBack(w, c, r);
    var st := WithLifecycle(w, r.lifecycleClock).fi.status;
    DelayIsBack(c.hash, w.fi.id, w.fi.spec, st.startedAt.value, st.expiresAt.value, PodsMean(Continue(true), w, c, r), r);
  }

  lemma DelayIsBack(h: Hash, id: Identity, spec: Spec, startedAt: int, expiresAt: int, pending: bool, r: Round)
    requires BuildPlans(h, id, spec, r.now, startedAt).ok && r.c1 <= r.c2 <= r.c3
    requires forall a :: a in spec.podFaults && Follows(a) ==> r.now - startedAt + a.window.value.intervalSeconds * 1_000_000_000 <= MAX_INT64
    ensures BackInTime(RequeueAfter(expiresAt, NextDue(BuildPlans(h, id, spec, r.now, startedAt).earliestDue, pending, r.now), r.c1, r.c2, r.c3),
                       expiresAt, TimesOf(spec, startedAt, r.now, pending), r)
  {
    var due := BuildPlans(h, id, spec, r.now, startedAt).earliestDue;
    EarliestIsLeast(h, id, spec, r.now, startedAt);
    NextDueIsLeast(due, Starts(spec, startedAt, r.now), pending, r.now);
    RequeueIsBack(expiresAt, NextDue(due, pending, r.now), TimesOf(spec, startedAt, r.now, pending), r);
  }

  /** A time to be back for has passed at the last clock reading. */
  ghost predicate Passed(times: iset<int>, r: Round) {
    exists t :: t in times && t <= r.c3
  }

  lemma BackMeans(delay: int, expiresAt: int, times: iset<int>, r: Round)
    requires BackInTime(delay, expiresAt, times, r) && r.c1 <= r.c2 <= r.c3
    ensures delay > 0 <==> r.c1 < expiresAt || Passed(times, r)
    ensures forall t :: t in times ==> (r.c2 + delay <= t <==> !Passed(times, r) || r.c2 + 1_000_000_000 <= t)
  {
  }

  /** So for every window: the reconcile is back by its next tick exactly when nothing to be
      back for has passed meanwhile, or that tick is at least the one second off that it
      then takes. And it is back at all exactly when the clock was short of expiry, or
      something has passed. */
  lemma WakesForEveryTick(w: World, c: Controller, r: Round, a: PodAction)
    requires Reconciled(w, c, r).1.After? && InTime(w, r) && r.c1 <= r.c2 <= r.c3
    requires a in w.fi.spec.podFaults && Follows(a)
    ensures var st := WithLifecycle(w, r.lifecycleClock).fi.status;
      var delay := Reconciled(w, c, r).1.delay;
      && Timed(st)
      && (delay > 0 <==> r.c1 < st.expiresAt.value || Passed(TimesFor(w, c, r), r))
      && var start := NextStart(a.window.value.intervalSeconds, st.startedAt.value, r.now);
         r.c2 + delay <= start <==> !Passed(TimesFor(w, c, r), r) || r.c2 + 1_000_000_000 <= start
  {
    WakesExactly(w, c, r);
    var st := WithLifecycle(w, r.lifecycleClock).fi.status;
    BackMeans(Reconciled(w, c, r).1.delay, st.expiresAt.value, TimesFor(w, c, r), r);
    StartIsTime(w, c, r, a, st.startedAt.value);
  }

  lemma StartIsTime(w: World, c: Controller, r: Round, a: PodAction, startedAt: int)
    requires a in w.fi.spec.podFaults && Follows(a) && WithLifecycle(w, r.lifecycleClock).fi.status.startedAt == Some(startedAt)
    ensures NextStart(a.window.value.intervalSeconds, startedAt, r.now) in TimesFor(w, c, r)
  {
    assert TickStarts(w.fi.spec, startedAt, r.now, NextStart(a.window.value.intervalSeconds, startedAt, r.now));
  }

  /** The next tick begins a whole number of intervals after the start, and no earlier one
      lies ahead. */
  lemma NextStartIsNext(intervalSeconds: int, startedAt: int, now: int) returns (k: nat)
    requires intervalSeconds >= 1
    ensures var interval := intervalSeconds * 1_000_000_000;
      var start := NextStart(intervalSeconds, startedAt, now);
      && start > now && start == startedAt + k * interval && (k > 0 ==> startedAt + (k - 1) * interval <= now)
  {
    var interval := intervalSeconds * 1_000_000_000;
    if now < startedAt {
      k := 0;
    } else {
      DivisionBounds(now - startedAt, interval);
      k := (now - startedAt) / interval + 1;
    }
  }

  /** No entry of the tick is finished. */
  predicate Unfinished(ticks: seq<Tick>, k: TickKey) {
    forall e :: e in ticks && KeyOf(e) == k ==> !Finished(e)
  }

  lemma JobThereIsPending(w: World, c: Controller, r: Round, p: Plan)
    requires var l := WithLifecycle(w, r.lifecycleClock);
      && Reconciled(w, c, r).1.After? && l.fi.status.startedAt.Some?
      && p in BuildPlans(c.hash, w.fi.id, w.fi.spec, r.now, l.fi.status.startedAt.value).plans
    requires Unfinished(w.fi.status.ticks, PlanKey(p))
    requires var w1 := Reconciled(w, c, r).0; p.jobName in w1.jobs && !IsDone(w1, PlanKey(p))
    ensures PodsMean(Continue(true), w, c, r)
  {
    AnswerExact(w, c, r);
    AcceptedAnswer(w, c, r);
    var l := WithLifecycle(w, r.lifecycleClock);
    var w0 := Injecting(l, c, r.order).0;
    Lifetime.InjectingSamePods(l, c, r.order);
    ExecutingAnswer(w0, c, r, l.fi.status.expiresAt.value);
    var plans := BuildPlans(c.hash, w.fi.id, w.fi.spec, r.now, l.fi.status.startedAt.value).plans;
    var (w1, v) := Pass(w0, w0.fi.status.ticks, plans, r.now, Holder(c), CallsFor(r, |plans|), false);
    PassVerdict(w0, w0.fi.status.ticks, plans, r.now, Holder(c), CallsFor(r, |plans|), false);
    assert Reconciled(w, c, r).0 == w1;
    if v == Continue(false) {
      PassLeaves(w0, w0.fi.status.ticks, plans, r.now, Holder(c), CallsFor(r, |plans|));
      UnfinishedIsNotSkipped(w0.fi.status.ticks, p);
    }
  }

  /** While the Job of a tick that is due and has no outcome is there after the reconcile,
      the reconcile is to be back in two seconds. */
  lemma PendingIsRechecked(w: World, c: Controller, r: Round, p: Plan)
    requires var l := WithLifecycle(w, r.lifecycleClock);
      && Reconciled(w, c, r).1.After? && l.fi.status.startedAt.Some?
      && p in BuildPlans(c.hash, w.fi.id, w.fi.spec, r.now, l.fi.status.startedAt.value).plans
    requires Unfinished(w.fi.status.ticks, PlanKey(p))
    requires var w1 := Reconciled(w, c, r).0; p.jobName in w1.jobs && !IsDone(w1, PlanKey(p))
    ensures r.now + 2_000_000_000 in TimesFor(w, c, r)
  {
    JobThereIsPending(w, c, r, p);
    RecheckIsTime(w, c, r);
  }

  lemma RecheckIsTime(w: World, c: Controller, r: Round)
    requires WithLifecycle(w, r.lifecycleClock).fi.status.startedAt.Some? && PodsMean(Continue(true), w, c, r)
    ensures r.now + 2_000_000_000 in TimesFor(w, c, r)
  {
    RecheckAmong(w.fi.spec, WithLifecycle(w, r.lifecycleClock).fi.status, r.now, PodsMean(Continue(true), w, c, r));
  }

  lemma RecheckAmong(spec: Spec, st: Status, now: int, pending: bool)
    requires st.startedAt.Some? && pending
    ensures now + 2_000_000_000 in TimesWhen(spec, st, now, pending)
  {
  }

  /** And it is back by then, under the condition that holds for ticks. */
  lemma RecheckInTime(w: World, c: Controller, r: Round)
    requires Reconciled(w, c, r).1.After? && InTime(w, r) && r.c1 <= r.c2 <= r.c3
    requires r.now + 2_000_000_000 in TimesFor(w, c, r)
    ensures r.c2 + Reconciled(w, c, r).1.delay <= r.now + 2_000_000_000
       <==> !Passed(TimesFor(w, c, r), r) || r.c2 + 1_000_000_000 <= r.now + 2_000_000_000
  {
    WakesExactly(w, c, r);
    BackMeans(Reconciled(w, c, r).1.delay, WithLifecycle(w, r.lifecycleClock).fi.status.expiresAt.value, TimesFor(w, c, r), r);
  }

  lemma UnfinishedIsNotSkipped(ticks: seq<Tick>, p: Plan)
    requires Unfinished(ticks, PlanKey(p))
    ensures !Skipped(ticks, p)
  {
    var i := TickIndex(ticks, PlanKey(p));
    if i < |ticks| { assert ticks[i] in ticks; }
  }
}
