/** The tick protocol inside the whole controller: at-most-once execution, the blast bound
    and the audit record over runs of complete reconciles, with expiry, cancellation,
    rejected specs and whatever others do to Jobs and Leases. */
module Lifetime {
  import opened Wrappers
  import opened Machine
  import Helpers
  import opened Names
  import opened Api
  import VirtualServices
  import opened Cluster
  import Mesh
  import Validation
  import opened Ticks
  import opened Protocol
  import opened Execution
  import opened Apart
  import opened Lifecycle
  import opened Cleanup
  import opened Reconciler
  import Experiment
  import LeaseProtocol
  import PodSelection

  // ---------------------------------------------------------------- turns

  function StartOf(st: Status): int {
    if st.startedAt.Some? then st.startedAt.value else 0
  }

  /** Ticks that are not due any more from `t` on. */
  ghost function Over(spec: Spec, startedAt: int, t: int): iset<TickKey> {
    iset k: TickKey | !DueFrom(spec, startedAt, k, t)
  }

  ghost predicate DueFrom(spec: Spec, startedAt: int, k: TickKey, t: int) {
    exists now :: now >= t && DueAt(spec, startedAt, k, now)
  }

  /** Ticks that have been due by `t`. */
  ghost function Born(spec: Spec, startedAt: int, t: int): iset<TickKey> {
    iset k: TickKey | DueBefore(spec, startedAt, k, t)
  }

  ghost predicate DueBefore(spec: Spec, startedAt: int, k: TickKey, t: int) {
    exists now :: now <= t && DueAt(spec, startedAt, k, now)
  }

  /** No tick with a Job to its name is pending at `t`: its outcome is on record, or its
      turn is over. */
  ghost predicate NonePending(w: World, over: iset<TickKey>) {
    forall i :: 0 <= i < |w.log| ==> CreationKey(w.log[i]) in over || IsDone(w, CreationKey(w.log[i]))
  }

  // ---------------------------------------------------------------- rejected specs

  /** A rejected spec is cleaned up with its pending Jobs, and their ticks are not booked.
      Nothing is forgotten exactly when no tick was pending. */
  lemma RejectionForgets(w: World, render: VirtualServices.Render, name: TickKey -> string, over: iset<TickKey>)
    requires Once(w, name, over)
    ensures Once(Cleaned(w, render).WithPhase(Error), name, over) <==> NonePending(w, over)
  {
    var w1 := Cleaned(w, render).WithPhase(Error);
    forall n ensures !Held(w1, n) {
      if n in w.jobs { assert n in OwnJobs(w.fi.id, w.jobs) <==> Mine(w.fi.id, w.jobs[n].owner); }
    }
    forall k ensures Kept(w1, k, name, over) <==> k in over || IsDone(w, k) {
      assert IsDone(w1, k) <==> IsDone(w, k);
    }
  }

  /** And what is forgotten is run again: after the rejection of a spec with a pending
      Job, the tick's next turn creates that Job anew. */
  lemma RejectionRunsAgain(w: World, render: VirtualServices.Render, p: Plan, now: int, holder: string, e: Surroundings)
    requires Held(w, p.jobName) && !Skipped(w.fi.status.ticks, p)
    requires p.leaseName in w.leases ==> Mine(w.fi.id, w.leases[p.leaseName].owner) || LeaseProtocol.Stale(w.leases[p.leaseName], now)
    requires e == Surroundings([], true, e.pods, Ok, Ok, Ok, Ok, Ok, Ok) && e.pods.Some?
    requires var candidates := PodSelection.Candidates(e.pods.value);
      Wrap32(|candidates|) >= p.refuseIfPodsLessThan && PodSelection.Select(candidates, p.count, p.percent, p.cap) != []
    ensures var w1 := Cleaned(w, render).WithPhase(Error);
      var w2 := PlanStep(w1, w1.fi.status.ticks, p, now, holder, e).0;
      && p.jobName !in w1.jobs && Held(w2, p.jobName)
      && w2.log == w.log + [Creation(p.action, p.tick, PodSelection.Select(PodSelection.Candidates(e.pods.value), p.count, p.percent, p.cap))]
  {
    var w1 := Cleaned(w, render).WithPhase(Error);
    assert p.jobName in OwnJobs(w.fi.id, w.jobs) && p.jobName !in w1.jobs;
    assert w1.fi.status.ticks == w.fi.status.ticks && w1.log == w.log;
    FreeTickLaunched(w1, p, now, holder, e);
  }

  /** With its Job gone and its Lease free, an open tick is launched. */
  lemma FreeTickLaunched(w: World, p: Plan, now: int, holder: string, e: Surroundings)
    requires p.jobName !in w.jobs && !Skipped(w.fi.status.ticks, p)
    requires p.leaseName in w.leases ==> LeaseProtocol.Stale(w.leases[p.leaseName], now)
    requires e == Surroundings([], true, e.pods, Ok, Ok, Ok, Ok, Ok, Ok) && e.pods.Some?
    requires var candidates := PodSelection.Candidates(e.pods.value);
      Wrap32(|candidates|) >= p.refuseIfPodsLessThan && PodSelection.Select(candidates, p.count, p.percent, p.cap) != []
    ensures var w1 := PlanStep(w, w.fi.status.ticks, p, now, holder, e).0;
      && Held(w1, p.jobName)
      && w1.log == w.log + [Creation(p.action, p.tick, PodSelection.Select(PodSelection.Candidates(e.pods.value), p.count, p.percent, p.cap))]
  {
    assert w.(jobs := FinishJobs(w.jobs, [])) == w;
  }

  // ---------------------------------------------------------------- one reconcile

  /** The pass a reconcile makes, if it gets to one. */
  function PassOf(w: World, c: Controller, r: Round): World
    requires w.fi.status.startedAt.Some?
  {
    var plans := BuildPlans(c.hash, w.fi.id, w.fi.spec, r.now, w.fi.status.startedAt.value).plans;
    Pass(w, w.fi.status.ticks, plans, r.now, Holder(c), CallsFor(r, |plans|), false).0
  }

  lemma ExecutingIsPass(w: World, c: Controller, r: Round, expiresAt: int)
    ensures Executing(w, c, r, expiresAt).0 == if w.fi.status.startedAt.Some? then PassOf(w, c, r) else w
  {
    if w.fi.spec.podFaults != [] && w.fi.status.startedAt.Some? {
      PlansAreDue(c.hash, w.fi.id, w.fi.spec, r.now, w.fi.status.startedAt.value);
    }
  }

  /** Log, Jobs and ticks, which the invariants read, are those of another world. */
  ghost predicate SamePods(w: World, w1: World) {
    w1.log == w.log && w1.jobs == w.jobs && w1.fi.status.ticks == w.fi.status.ticks && w1.fi.id == w.fi.id && w1.fi.spec == w.fi.spec
  }

  lemma InjectingSamePods(w: World, c: Controller, order: seq<string>)
    requires Mesh.AllDereferenceable(w.fi.spec.meshFaults)
    ensures SamePods(w, Injecting(w, c, order).0)
    ensures Injecting(w, c, order).0.fi.status == w.fi.status.(phase := Injecting(w, c, order).0.fi.status.phase)
  {
  }

  lemma CleanedPods(w: World, render: VirtualServices.Render)
    ensures var w1 := Cleaned(w, render);
      && w1.log == w.log && w1.fi == w.fi && forall n :: !Held(w1, n)
  {
    var w1 := Cleaned(w, render);
    forall n ensures !Held(w1, n) {
      if n in w.jobs { assert n in OwnJobs(w.fi.id, w.jobs) <==> Mine(w.fi.id, w.jobs[n].owner); }
    }
  }

  // ---------------------------------------------------------------- at most once

  /** The experiment under way: every Job was created for a tick that was due, and the
      protocol's invariant holds. */
  ghost predicate Growing(w: World, c: Controller, t: int) {
    var s := StartOf(w.fi.status);
    && (w.log != [] ==> w.fi.status.startedAt.Some?)
    && LogWithin(w.log, Born(w.fi.spec, s, t))
    && Once(w, NameOf(c.hash, w.fi.id), Over(w.fi.spec, s, t))
  }

  ghost predicate Bounds(spec: Spec) {
    0 < spec.durationSeconds <= MAX_SECONDS
  }

  /** Cancelled for good, over, or under way. */
  ghost predicate Living(w: World, c: Controller, t: int) {
    && Bounds(w.fi.spec) && JobsApart(c.hash, w.fi.id, w.fi.spec) && Stored(w.fi.status) && CreatedOnce(w.log)
    && (w.fi.spec.cancel || Experiment.Past(w, w.fi.spec.durationSeconds, t) || Growing(w, c, t))
  }

  predicate SamePodPart(s: Spec, s1: Spec) {
    s1 == s.(meshFaults := s1.meshFaults, maxTrafficPercent := s1.maxTrafficPercent, cancel := s1.cancel)
  }

  /** The experiment's own Jobs are left where they are. */
  ghost predicate OwnJobsStay(w: World, jobs: map<string, Job>) {
    forall n :: Held(w, n) ==> SameJob(w.jobs, jobs, n)
  }

  /** The next event, with the last reconcile at time `t`: the clock does not run back;
      the pod part of the spec and its duration stay as they are, and a cancellation is
      not taken back; others leave the experiment's Jobs alone; and a spec that is rejected
      before expiry has no tick pending. */
  ghost predicate Orderly(w: World, ev: Experiment.Event, t: int) {
    match ev
    case Reconciling(r) =>
      var l := WithLifecycle(w, r.lifecycleClock);
      && r.now >= t
      && (|| w.fi.spec.cancel || Acceptable(l, r) || (Timed(l.fi.status) && r.now > l.fi.status.expiresAt.value)
          || NonePending(l, Over(l.fi.spec, StartOf(l.fi.status), r.now)))
    case Editing(spec) => SamePodPart(w.fi.spec, spec) && (w.fi.spec.cancel ==> spec.cancel)
    case OtherJobs(jobs) => OwnJobsStay(w, jobs)
    case _ => true
  }

  function Clock(ev: Experiment.Event, t: int): int {
    if ev.Reconciling? then ev.round.now else t
  }

  ghost predicate OrderlyRun(w: World, c: Controller, events: seq<Experiment.Event>, t: int)
    decreases events
  {
    events == [] || (Orderly(w, events[0], t) && OrderlyRun(Experiment.Next(w, c, events[0]), c, events[1..], Clock(events[0], t)))
  }

  /** The lifecycle write moves no start, and time makes ticks end but not begin again. */
  lemma GrowsOlder(w: World, l: World, c: Controller, t: int, now: int)
    requires Growing(w, c, t) && t <= now && SamePods(w, l)
    requires w.fi.status.startedAt.Some? ==> l.fi.status.startedAt == w.fi.status.startedAt
    ensures Growing(l, c, now)
  {
    assert forall k :: IsDone(l, k) <==> IsDone(w, k);
    if w.fi.status.startedAt.Some? {
      var s := StartOf(w.fi.status);
      forall i | 0 <= i < |l.log|
        ensures CreationKey(l.log[i]) in Born(l.fi.spec, s, now)
        ensures Kept(l, CreationKey(l.log[i]), NameOf(c.hash, l.fi.id), Over(l.fi.spec, s, now))
      {
        var k := CreationKey(w.log[i]);
        assert k in Born(w.fi.spec, s, t) && Kept(w, k, NameOf(c.hash, w.fi.id), Over(w.fi.spec, s, t));
      }
    }
  }

  /** The Job of a tick that may still be due is used by that tick's plan alone. */
  lemma GrowingUndisputed(w: World, c: Controller, now: int, startedAt: int)
    requires Growing(w, c, now) && w.fi.status.startedAt == Some(startedAt)
    requires Bounds(w.fi.spec) && JobsApart(c.hash, w.fi.id, w.fi.spec) && now <= startedAt + w.fi.spec.durationSeconds * SECOND
    ensures var plans := BuildPlans(c.hash, w.fi.id, w.fi.spec, now, startedAt).plans;
      Undisputed(w, plans, NameOf(c.hash, w.fi.id), Over(w.fi.spec, startedAt, now))
  {
    var b := BuildPlans(c.hash, w.fi.id, w.fi.spec, now, startedAt);
    PlansAreDue(c.hash, w.fi.id, w.fi.spec, now, startedAt);
    forall i, p | 0 <= i < |w.log| && p in b.plans
      ensures Untouched(p, CreationKey(w.log[i]), NameOf(c.hash, w.fi.id), Over(w.fi.spec, startedAt, now))
    {
      DisputeSettled(c.hash, w.fi.id, w.fi.spec, now, startedAt, CreationKey(w.log[i]), p);
    }
  }

  /** A tick that has been due and will be, is. */
  lemma StillDue(spec: Spec, startedAt: int, k: TickKey, now: int)
    requires KeysApart(spec.podFaults) && k in Born(spec, startedAt, now) && k !in Over(spec, startedAt, now)
    ensures DueAt(spec, startedAt, k, now)
  {
    var x :| x <= now && DueAt(spec, startedAt, k, x);
    var y :| y >= now && DueAt(spec, startedAt, k, y);
    DueUnbrokenKey(spec, startedAt, k, x, now, y);
  }

  lemma DisputeSettled(h: Helpers.Hash, id: Identity, spec: Spec, now: int, startedAt: int, k: TickKey, p: Plan)
    requires Bounds(spec) && JobsApart(h, id, spec) && now <= startedAt + spec.durationSeconds * SECOND
    requires k in Born(spec, startedAt, now) && BuildPlans(h, id, spec, now, startedAt).ok && p in BuildPlans(h, id, spec, now, startedAt).plans
    ensures Untouched(p, k, NameOf(h, id), Over(spec, startedAt, now))
  {
    if k !in Over(spec, startedAt, now) {
      StillDue(spec, startedAt, k, now);
      var q := DueHasPlan(h, id, spec, now, startedAt, k);
      BuiltApart(h, id, spec, now, startedAt);
      BuiltNamed(h, id, spec, now, startedAt);
      SameJobSamePlan(BuildPlans(h, id, spec, now, startedAt).plans, p, q);
    }
  }

  lemma PassGrows(w: World, c: Controller, r: Round, startedAt: int)
    requires Growing(w, c, r.now) && w.fi.status.startedAt == Some(startedAt)
    requires Bounds(w.fi.spec) && JobsApart(c.hash, w.fi.id, w.fi.spec) && r.now <= startedAt + w.fi.spec.durationSeconds * SECOND
    ensures Growing(PassOf(w, c, r), c, r.now)
  {
    var h, id, spec := c.hash, w.fi.id, w.fi.spec;
    var plans := BuildPlans(h, id, spec, r.now, startedAt).plans;
    var es := CallsFor(r, |plans|);
    GrowingUndisputed(w, c, r.now, startedAt);
    BuiltApart(h, id, spec, r.now, startedAt);
    BuiltNamed(h, id, spec, r.now, startedAt);
    forall p | p in plans ensures PlanKey(p) in Born(spec, startedAt, r.now) && PlanKey(p) !in Over(spec, startedAt, r.now) {
      PlansAreDue(h, id, spec, r.now, startedAt);
      var a := PlanMember(h, id, spec, r.now, startedAt, p);
    }
    PassKeepsOnce(w, w.fi.status.ticks, plans, r.now, Holder(c), es, false, NameOf(h, id), Over(spec, startedAt, r.now));
    PassLogsItsOwn(w, w.fi.status.ticks, plans, r.now, Holder(c), es, false, Born(spec, startedAt, r.now));
    Experiment.PassSameMesh(w, w.fi.status.ticks, plans, r.now, Holder(c), es, false);
  }

  lemma ActiveGrows(w: World, c: Controller, r: Round)
    requires Growing(w, c, r.now) && Timed(w.fi.status) && Acceptable(w, r)
    requires Bounds(w.fi.spec) && JobsApart(c.hash, w.fi.id, w.fi.spec) && r.now <= w.fi.status.startedAt.value + w.fi.spec.durationSeconds * SECOND
    ensures Growing(Active(w, c, r).0, c, r.now)
  {
    Validation.ValidDereferenceable(w.fi.spec, r.meshCounts);
    var w1 := Injecting(w, c, r.order).0;
    InjectingSamePods(w, c, r.order);
    GrowsOlder(w, w1, c, r.now, r.now);
    PassGrows(w1, c, r, w.fi.status.startedAt.value);
    ExecutingIsPass(w1, c, r, w.fi.status.expiresAt.value);
  }

  lemma LifecycleKeepsStart(w: World, r: Round)
    requires Bounds(w.fi.spec) && Stored(w.fi.status)
    ensures var l := WithLifecycle(w, r.lifecycleClock);
      && Timed(l.fi.status) && Stored(l.fi.status) && SamePods(w, l) && l.fi.status.phase == w.fi.status.phase
      && l.fi.status.expiresAt.value == l.fi.status.startedAt.value + w.fi.spec.durationSeconds * SECOND
      && (w.fi.status.startedAt.Some? ==> l.fi.status.startedAt == w.fi.status.startedAt)
  {
    LifecycleExact(w.fi.spec.durationSeconds, w.fi.status, r.lifecycleClock, r.lifecycleClock);
    LifecycleFixedPoint(w.fi.spec.durationSeconds, w.fi.status, r.lifecycleClock, r.lifecycleClock);
  }

  lemma RejectedGrows(w: World, c: Controller, now: int)
    requires Growing(w, c, now) && NonePending(w, Over(w.fi.spec, StartOf(w.fi.status), now))
    ensures Growing(Cleaned(w, c.render).WithPhase(Error), c, now)
  {
    RejectionForgets(w, c.render, NameOf(c.hash, w.fi.id), Over(w.fi.spec, StartOf(w.fi.status), now));
  }

  lemma ReconcileKeepsLiving(w: World, c: Controller, r: Round, t: int)
    requires Living(w, c, t) && Orderly(w, Experiment.Reconciling(r), t)
    ensures Living(Reconciled(w, c, r).0, c, r.now)
  {
    var l := WithLifecycle(w, r.lifecycleClock);
    LifecycleKeepsStart(w, r);
    Experiment.ReconcilePhases(w, c, r);
    if w.fi.spec.cancel {
    } else if Experiment.Past(w, w.fi.spec.durationSeconds, t) {
      Experiment.ReconcileStaysPast(w, c, r, w.fi.spec.durationSeconds, t);
    } else if r.now > l.fi.status.expiresAt.value {
      Experiment.ExpiryCompletes(w, c, r);
    } else {
      GrowsOlder(w, l, c, t, r.now);
      UnexpiredGrows(l, c, r);
    }
  }

  lemma UnexpiredGrows(l: World, c: Controller, r: Round)
    requires Growing(l, c, r.now) && Timed(l.fi.status) && !l.fi.spec.cancel && r.now <= l.fi.status.expiresAt.value
    requires l.fi.status.expiresAt.value == l.fi.status.startedAt.value + l.fi.spec.durationSeconds * SECOND
    requires Bounds(l.fi.spec) && JobsApart(c.hash, l.fi.id, l.fi.spec)
    requires Acceptable(l, r) || NonePending(l, Over(l.fi.spec, StartOf(l.fi.status), r.now))
    ensures Growing(Deciding(l, c, r).0, c, r.now)
  {
    if Acceptable(l, r) { ActiveGrows(l, c, r); } else { RejectedGrows(l, c, r.now); }
  }

  /** An edit that leaves the pod part alone changes nothing about ticks and names. */
  lemma EditedStaysApart(h: Helpers.Hash, id: Identity, s: Spec, s1: Spec)
    requires SamePodPart(s, s1)
    ensures JobsApart(h, id, s) ==> JobsApart(h, id, s1)
    ensures forall startedAt, t :: Over(s1, startedAt, t) == Over(s, startedAt, t) && Born(s1, startedAt, t) == Born(s, startedAt, t)
  {
    forall startedAt, k, now ensures DueAt(s1, startedAt, k, now) <==> DueAt(s, startedAt, k, now) {}
    forall age ensures DuePlans(h, id, s1, s1.podFaults, age, 0) == DuePlans(h, id, s, s.podFaults, age, 0) {
      SameDuePlans(h, id, s, s1, s.podFaults, age);
    }
  }

  lemma {:induction false} SameDuePlans(h: Helpers.Hash, id: Identity, s: Spec, s1: Spec, actions: seq<PodAction>, age: int)
    requires s1.maxPodsAffected == s.maxPodsAffected
    ensures DuePlans(h, id, s1, actions, age, 0) == DuePlans(h, id, s, actions, age, 0)
  {
    if actions != [] { SameDuePlans(h, id, s, s1, actions[1..], age); }
  }

  lemma NextKeepsLiving(w: World, c: Controller, ev: Experiment.Event, t: int)
    requires Living(w, c, t) && Orderly(w, ev, t)
    ensures Living(Experiment.Next(w, c, ev), c, Clock(ev, t))
  {
    var w1 := Experiment.Next(w, c, ev);
    match ev {
      case Reconciling(r) => ReconcileKeepsLiving(w, c, r, t);
      case Editing(spec) =>
        EditedStaysApart(c.hash, w.fi.id, w.fi.spec, spec);
        if Growing(w, c, t) { SameJobsGrow(w, w1, c, t); }
      case Settling(fs) =>
        FinishJobsKeys(w.jobs, fs);
        if Growing(w, c, t) { SameJobsGrow(w, w1, c, t); }
      case _ => if Growing(w, c, t) { SameJobsGrow(w, w1, c, t); }
    }
  }

  lemma SameJobsGrow(w: World, w1: World, c: Controller, t: int)
    requires Growing(w, c, t) && w1.log == w.log && w1.fi.id == w.fi.id && w1.fi.status == w.fi.status
    requires forall s :: Over(w1.fi.spec, s, t) == Over(w.fi.spec, s, t) && Born(w1.fi.spec, s, t) == Born(w.fi.spec, s, t)
    requires OwnJobsStay(w, w1.jobs)
    ensures Growing(w1, c, t)
  {
    var over := Over(w.fi.spec, StartOf(w.fi.status), t);
    forall i | 0 <= i < |w1.log| ensures Kept(w1, CreationKey(w1.log[i]), NameOf(c.hash, w1.fi.id), over) {
      var k := CreationKey(w.log[i]);
      assert Kept(w, k, NameOf(c.hash, w.fi.id), over);
      assert IsDone(w1, k) <==> IsDone(w, k);
      if Held(w, NameOf(c.hash, w.fi.id)(k)) { assert SameJob(w.jobs, w1.jobs, NameOf(c.hash, w.fi.id)(k)); }
    }
  }

  /** At most once, over the controller's whole runs: no two Jobs are ever created for one
      (action, tick), whichever calls of the pod part fail, whatever others do to Leases
      and to Jobs of their own, through expiry or cancellation and after it. */
  lemma {:induction false} AtMostOnceForLife(w: World, c: Controller, events: seq<Experiment.Event>, t: int)
    requires Living(w, c, t) && OrderlyRun(w, c, events, t)
    ensures CreatedOnce(Experiment.RunOf(w, c, events).log)
    decreases events
  {
    if events != [] {
      NextKeepsLiving(w, c, events[0], t);
      AtMostOnceForLife(Experiment.Next(w, c, events[0]), c, events[1..], Clock(events[0], t));
    }
  }

  lemma FreshIsLiving(w: World, c: Controller, t: int)
    requires Bounds(w.fi.spec) && JobsApart(c.hash, w.fi.id, w.fi.spec) && Stored(w.fi.status) && w.log == []
    ensures Living(w, c, t)
  {
  }

  // ---------------------------------------------------------------- at most once, through edits

  /** The name tells these ticks apart, however far from each other in time. */
  ghost predicate TellsApart(name: TickKey -> string, keys: iset<TickKey>) {
    forall k, l :: k in keys && l in keys && name(k) == name(l) ==> k == l
  }

  /** The spec's actions are apart, and every tick it ever makes due is among `keys`. */
  ghost predicate Within(spec: Spec, keys: iset<TickKey>) {
    KeysApart(spec.podFaults) && forall startedAt, k, now :: DueAt(spec, startedAt, k, now) ==> k in keys
  }

  /** The reconcile cancels, completes or rejects the experiment, and so cleans up. */
  predicate CleansUp(l: World, r: Round) {
    if l.fi.spec.cancel then !Experiment.Final(l.fi.status.phase)
    else Timed(l.fi.status) && (r.now > l.fi.status.expiresAt.value || !Acceptable(l, r))
  }

  /** What is asked when the spec may be edited in any way that stays within `keys`: others
      leave the experiment's Jobs alone, and cleanup comes only with every outcome on
      record. The clock may do as it likes. */
  ghost predicate Careful(w: World, ev: Experiment.Event, keys: iset<TickKey>) {
    match ev
    case Reconciling(r) => var l := WithLifecycle(w, r.lifecycleClock); CleansUp(l, r) ==> NonePending(l, iset{})
    case Editing(spec) => Within(spec, keys)
    case OtherJobs(jobs) => OwnJobsStay(w, jobs)
    case _ => true
  }

  ghost predicate CarefulRun(w: World, c: Controller, events: seq<Experiment.Event>, keys: iset<TickKey>)
    decreases events
  {
    events == [] || (Careful(w, events[0], keys) && CarefulRun(Experiment.Next(w, c, events[0]), c, events[1..], keys))
  }

  /** Every Job was created for one of these ticks, and is still there or booked. */
  ghost predicate Traceable(w: World, c: Controller, keys: iset<TickKey>) {
    Within(w.fi.spec, keys) && LogWithin(w.log, keys) && Once(w, NameOf(c.hash, w.fi.id), iset{})
  }

  lemma SameTraceable(w: World, w1: World, c: Controller, keys: iset<TickKey>)
    requires Traceable(w, c, keys) && Within(w1.fi.spec, keys)
    requires w1.log == w.log && w1.fi.id == w.fi.id && w1.fi.status.ticks == w.fi.status.ticks && OwnJobsStay(w, w1.jobs)
    ensures Traceable(w1, c, keys)
  {
    forall i | 0 <= i < |w1.log| ensures Kept(w1, CreationKey(w1.log[i]), NameOf(c.hash, w1.fi.id), iset{}) {
      var k := CreationKey(w.log[i]);
      assert Kept(w, k, NameOf(c.hash, w.fi.id), iset{});
      assert IsDone(w1, k) <==> IsDone(w, k);
      if Held(w, NameOf(c.hash, w.fi.id)(k)) { assert SameJob(w.jobs, w1.jobs, NameOf(c.hash, w.fi.id)(k)); }
    }
  }

  /** With every outcome on record, no Job is needed to remember a tick. */
  lemma BookedTraceable(w: World, w1: World, c: Controller, keys: iset<TickKey>)
    requires Traceable(w, c, keys) && NonePending(w, iset{})
    requires w1.log == w.log && w1.fi.id == w.fi.id && w1.fi.spec == w.fi.spec && w1.fi.status.ticks == w.fi.status.ticks
    ensures Traceable(w1, c, keys)
  {
    assert forall k :: IsDone(w1, k) <==> IsDone(w, k);
  }

  lemma PassTraceable(w: World, c: Controller, r: Round, startedAt: int, keys: iset<TickKey>)
    requires Traceable(w, c, keys) && TellsApart(NameOf(c.hash, w.fi.id), keys) && w.fi.status.startedAt == Some(startedAt)
    ensures Traceable(PassOf(w, c, r), c, keys)
  {
    var h, id, spec := c.hash, w.fi.id, w.fi.spec;
    var plans := BuildPlans(h, id, spec, r.now, startedAt).plans;
    var es := CallsFor(r, |plans|);
    BuiltNamed(h, id, spec, r.now, startedAt);
    forall p | p in plans ensures PlanKey(p) in keys {
      PlansAreDue(h, id, spec, r.now, startedAt);
      var a := PlanMember(h, id, spec, r.now, startedAt, p);
    }
    ToldApart(plans, NameOf(h, id), keys);
    PassKeepsOnce(w, w.fi.status.ticks, plans, r.now, Holder(c), es, false, NameOf(h, id), iset{});
    PassLogsItsOwn(w, w.fi.status.ticks, plans, r.now, Holder(c), es, false, keys);
    Experiment.PassSameMesh(w, w.fi.status.ticks, plans, r.now, Holder(c), es, false);
  }

  lemma ToldApart(plans: seq<Plan>, name: TickKey -> string, keys: iset<TickKey>)
    requires NamedBy(plans, name) && TicksApart(plans) && TellsApart(name, keys) && forall p :: p in plans ==> PlanKey(p) in keys
    ensures PlansApart(plans)
    ensures forall p, k :: p in plans && k in keys ==> Untouched(p, k, name, iset{})
  {
    forall i, j | 0 <= i < j < |plans| ensures plans[i].jobName != plans[j].jobName {
      assert plans[i] in plans && plans[j] in plans;
    }
  }

  lemma ReconcileTraceable(w: World, c: Controller, r: Round, keys: iset<TickKey>)
    requires Traceable(w, c, keys) && TellsApart(NameOf(c.hash, w.fi.id), keys) && Careful(w, Experiment.Reconciling(r), keys)
    ensures Traceable(Reconciled(w, c, r).0, c, keys)
  {
    var l := WithLifecycle(w, r.lifecycleClock);
    SameTraceable(w, l, c, keys);
    DecidingTraceable(l, c, r, keys);
  }

  lemma DecidingTraceable(l: World, c: Controller, r: Round, keys: iset<TickKey>)
    requires Traceable(l, c, keys) && TellsApart(NameOf(c.hash, l.fi.id), keys) && (CleansUp(l, r) ==> NonePending(l, iset{}))
    ensures Traceable(Deciding(l, c, r).0, c, keys)
  {
    if CleansUp(l, r) {
      CleaningUp(l, c, r);
      BookedTraceable(l, Deciding(l, c, r).0, c, keys);
    } else if !l.fi.spec.cancel && Timed(l.fi.status) {
      ActiveTraceable(l, c, r, keys);
    }
  }

  lemma CleaningUp(l: World, c: Controller, r: Round)
    requires CleansUp(l, r)
    ensures var w1 := Deciding(l, c, r).0;
      w1.log == l.log && w1.fi.id == l.fi.id && w1.fi.spec == l.fi.spec && w1.fi.status.ticks == l.fi.status.ticks
  {
  }

  lemma ActiveTraceable(w: World, c: Controller, r: Round, keys: iset<TickKey>)
    requires Traceable(w, c, keys) && TellsApart(NameOf(c.hash, w.fi.id), keys) && Timed(w.fi.status) && Acceptable(w, r)
    ensures Traceable(Active(w, c, r).0, c, keys)
  {
    Validation.ValidDereferenceable(w.fi.spec, r.meshCounts);
    var w1 := Injecting(w, c, r.order).0;
    InjectingSamePods(w, c, r.order);
    SameTraceable(w, w1, c, keys);
    PassTraceable(w1, c, r, w.fi.status.startedAt.value, keys);
    ExecutingIsPass(w1, c, r, w.fi.status.expiresAt.value);
  }

  lemma NextTraceable(w: World, c: Controller, ev: Experiment.Event, keys: iset<TickKey>)
    requires Traceable(w, c, keys) && TellsApart(NameOf(c.hash, w.fi.id), keys) && Careful(w, ev, keys)
    ensures Traceable(Experiment.Next(w, c, ev), c, keys) && Experiment.Next(w, c, ev).fi.id == w.fi.id
  {
    match ev {
      case Reconciling(r) =>
        ReconcileTraceable(w, c, r, keys);
        Experiment.ReconcilePhases(w, c, r);
      case Settling(fs) =>
        FinishJobsKeys(w.jobs, fs);
        SameTraceable(w, Experiment.Next(w, c, ev), c, keys);
      case _ => SameTraceable(w, Experiment.Next(w, c, ev), c, keys);
    }
  }

  /** At most once through edits of the pod part: over whole runs in which actions come, go
      and change their windows, and the clock and a cancellation may even be turned back,
      no two Jobs are created for one (action, tick), as long as the ticks of all specs
      together have names of their own. So a tick number met again under a new interval is
      not run again. */
  lemma {:induction false} AtMostOnceThroughEdits(w: World, c: Controller, events: seq<Experiment.Event>, keys: iset<TickKey>)
    requires Traceable(w, c, keys) && TellsApart(NameOf(c.hash, w.fi.id), keys) && CarefulRun(w, c, events, keys)
    ensures CreatedOnce(Experiment.RunOf(w, c, events).log)
    decreases events
  {
    if events != [] {
      NextTraceable(w, c, events[0], keys);
      AtMostOnceThroughEdits(Experiment.Next(w, c, events[0]), c, events[1..], keys);
    }
  }

  /** Ticks of these actions with names short enough to stay readable. */
  ghost function ReadableKeys(id: Identity, actions: set<string>): iset<TickKey> {
    iset k: TickKey | k.0 in actions && IsTickID(k.1) && |ReadableName(id, k.0, k.1)| <= 63
  }

  /** For action names that stay different after sanitizing, that is given, ... */
  lemma ReadableTellApart(h: Helpers.Hash, id: Identity, actions: set<string>)
    requires forall a, b :: a in actions && b in actions && Helpers.SanitizeName(a) == Helpers.SanitizeName(b) ==> a == b
    ensures TellsApart(NameOf(h, id), ReadableKeys(id, actions))
  {
    var keys := ReadableKeys(id, actions);
    forall k, l | k in keys && l in keys && NameOf(h, id)(k) == NameOf(h, id)(l) ensures k == l {
      ReadableNameInjective(id, k.0, k.1, l.0, l.1);
    }
  }

  /** ... for every spec whose actions are among them and leave room for tick numbers. */
  lemma ReadableWithin(h: Helpers.Hash, id: Identity, spec: Spec, actions: set<string>)
    requires KeysApart(spec.podFaults) && RoomForTicks(id, spec) && forall a :: a in spec.podFaults ==> a.name in actions
    ensures Within(spec, ReadableKeys(id, actions))
  {
    forall startedAt, k, now | DueAt(spec, startedAt, k, now) ensures k in ReadableKeys(id, actions) {
      var a :| a in spec.podFaults && a.name == k.0 && DueTick(a, now, startedAt) == Some(k.1);
      RoomIsReadable(h, id, spec, a, now, startedAt);
    }
  }

  // ---------------------------------------------------------------- the blast bound

  /** No listing of pods is longer than `size`. */
  ghost predicate Listings(ev: Experiment.Event, size: nat) {
    ev.Reconciling? ==> forall i: nat :: ListsAtMost(ev.round.calls(i), size)
  }

  lemma DueBelow(a: PodAction, spec: Spec, now: int, startedAt: int)
    requires Bounds(spec) && ProperWindowed(a, spec) && now <= startedAt + spec.durationSeconds * SECOND && DueTick(a, now, startedAt).Some?
    ensures TickBelow(DueTick(a, now, startedAt).value, TickBudget(a, spec))
  {
    assert startedAt <= now;
    TickWithinDuration(a.window.value, now, startedAt, spec.durationSeconds);
  }

  lemma WindowPlan(p: Plan, h: Helpers.Hash, id: Identity, spec: Spec, a: PodAction, now: int, startedAt: int, size: nat)
    requires Bounds(spec) && KeysApart(spec.podFaults) && ProperWindowed(a, spec) && now <= startedAt + spec.durationSeconds * SECOND
    requires p in BuildPlans(h, id, spec, now, startedAt).plans
    ensures PlanWithin(p, a.name, TickBudget(a, spec), PerTick(a, spec, size), size)
  {
    if p.action == a.name && p.tick != ONESHOT {
      PlansAreDue(h, id, spec, now, startedAt);
      var b := PlanMember(h, id, spec, now, startedAt, p);
      TickTellsMode(b, now, b, now, startedAt);
      KeysApartUnique(spec.podFaults, a, b);
      assert p.count == a.selection.count && p.percent == a.selection.percent && p.cap == CapOf(a, spec);
      DueBelow(a, spec, now, startedAt);
    }
  }

  /** The experiment's timestamps are stored, its actions apart, and the window's Jobs so
      far within `bound` ticks and `most` pods each. */
  ghost predicate Metered(w: World, a: PodAction, bound: nat, most: nat, size: nat) {
    && Bounds(w.fi.spec) && KeysApart(w.fi.spec.podFaults) && Stored(w.fi.status) && ProperWindowed(a, w.fi.spec)
    && bound == TickBudget(a, w.fi.spec) && most == PerTick(a, w.fi.spec, size)
    && Bounded(w.log, a.name, bound, most)
  }

  lemma PassStaysMetered(w: World, c: Controller, r: Round, a: PodAction, bound: nat, most: nat, size: nat)
    requires Metered(w, a, bound, most, size) && Listings(Experiment.Reconciling(r), size)
    requires w.fi.status.startedAt.Some? && r.now <= w.fi.status.startedAt.value + w.fi.spec.durationSeconds * SECOND
    ensures Bounded(PassOf(w, c, r).log, a.name, bound, most)
  {
    var plans := BuildPlans(c.hash, w.fi.id, w.fi.spec, r.now, w.fi.status.startedAt.value).plans;
    forall p | p in plans ensures PlanWithin(p, a.name, bound, most, size) {
      WindowPlan(p, c.hash, w.fi.id, w.fi.spec, a, r.now, w.fi.status.startedAt.value, size);
    }
    PassKeepsBounded(w, w.fi.status.ticks, plans, r.now, Holder(c), CallsFor(r, |plans|), false, a.name, bound, most, size);
  }

  lemma ActiveStaysMetered(w: World, c: Controller, r: Round, a: PodAction, bound: nat, most: nat, size: nat)
    requires Metered(w, a, bound, most, size) && Listings(Experiment.Reconciling(r), size) && Timed(w.fi.status) && Acceptable(w, r)
    requires r.now <= w.fi.status.startedAt.value + w.fi.spec.durationSeconds * SECOND
    ensures Bounded(Active(w, c, r).0.log, a.name, bound, most)
  {
    Validation.ValidDereferenceable(w.fi.spec, r.meshCounts);
    var w1 := Injecting(w, c, r.order).0;
    InjectingSamePods(w, c, r.order);
    PassStaysMetered(w1, c, r, a, bound, most, size);
    ExecutingIsPass(w1, c, r, w.fi.status.expiresAt.value);
  }

  lemma ReconcileStaysMetered(w: World, c: Controller, r: Round, a: PodAction, bound: nat, most: nat, size: nat)
    requires Metered(w, a, bound, most, size) && Listings(Experiment.Reconciling(r), size)
    ensures Metered(Reconciled(w, c, r).0, a, bound, most, size)
  {
    var l := WithLifecycle(w, r.lifecycleClock);
    LifecycleKeepsStart(w, r);
    Experiment.ReconcilePhases(w, c, r);
    if !l.fi.spec.cancel && r.now <= l.fi.status.expiresAt.value && Acceptable(l, r) {
      ActiveStaysMetered(l, c, r, a, bound, most, size);
    }
  }

  lemma NextStaysMetered(w: World, c: Controller, ev: Experiment.Event, t: int, a: PodAction, bound: nat, most: nat, size: nat)
    requires Metered(w, a, bound, most, size) && Listings(ev, size) && Orderly(w, ev, t)
    ensures Metered(Experiment.Next(w, c, ev), a, bound, most, size)
  {
    if ev.Reconciling? { ReconcileStaysMetered(w, c, ev.round, a, bound, most, size); }
  }

  lemma {:induction false} RunStaysMetered(w: World, c: Controller, events: seq<Experiment.Event>, t: int, a: PodAction, bound: nat, most: nat, size: nat)
    requires Metered(w, a, bound, most, size) && OrderlyRun(w, c, events, t)
    requires forall i :: 0 <= i < |events| ==> Listings(events[i], size)
    ensures Bounded(Experiment.RunOf(w, c, events).log, a.name, bound, most)
    decreases events
  {
    if events != [] {
      assert Listings(events[0], size);
      NextStaysMetered(w, c, events[0], t, a, bound, most, size);
      RunStaysMetered(Experiment.Next(w, c, events[0]), c, events[1..], Clock(events[0], t), a, bound, most, size);
    }
  }

  /** The blast radius of a whole experiment, from its first reconcile to after its end:
      where no listing of pods is longer than `size`, the Jobs of a window together name
      at most duration / interval + 1 times the pods its selection takes of `size` under
      the effective cap. */
  lemma BlastBoundForLife(w: World, c: Controller, events: seq<Experiment.Event>, t: int, a: PodAction, size: nat)
    requires Bounds(w.fi.spec) && JobsApart(c.hash, w.fi.id, w.fi.spec) && Stored(w.fi.status) && w.log == []
    requires ProperWindowed(a, w.fi.spec) && OrderlyRun(w, c, events, t)
    requires forall i :: 0 <= i < |events| ==> Listings(events[i], size)
    ensures PodsNamed(Experiment.RunOf(w, c, events).log, a.name) <= TickBudget(a, w.fi.spec) * PerTick(a, w.fi.spec, size)
  {
    FreshIsLiving(w, c, t);
    AtMostOnceForLife(w, c, events, t);
    RunStaysMetered(w, c, events, t, a, TickBudget(a, w.fi.spec), PerTick(a, w.fi.spec, size), size);
    BoundedTotal(Experiment.RunOf(w, c, events).log, a.name, TickBudget(a, w.fi.spec), PerTick(a, w.fi.spec, size));
  }

  // ---------------------------------------------------------------- terminal entries

  ghost predicate Booked(w: World, k: TickKey, e: Tick) {
    TickOf(w.fi.status.ticks, k) == Some(e) && Terminal(e.state)
  }

  lemma PassFinal(w: World, c: Controller, r: Round, k: TickKey, e: Tick)
    requires KeysApart(w.fi.spec.podFaults) && w.fi.status.startedAt.Some? && Booked(w, k, e)
    ensures Booked(PassOf(w, c, r), k, e)
  {
    var plans := BuildPlans(c.hash, w.fi.id, w.fi.spec, r.now, w.fi.status.startedAt.value).plans;
    BuiltNamed(c.hash, w.fi.id, w.fi.spec, r.now, w.fi.status.startedAt.value);
    PassKeepsDone(w, w.fi.status.ticks, plans, r.now, Holder(c), CallsFor(r, |plans|), false, k);
  }

  lemma ActiveFinal(w: World, c: Controller, r: Round, k: TickKey, e: Tick)
    requires KeysApart(w.fi.spec.podFaults) && Timed(w.fi.status) && Acceptable(w, r) && Booked(w, k, e)
    ensures Booked(Active(w, c, r).0, k, e)
  {
    Validation.ValidDereferenceable(w.fi.spec, r.meshCounts);
    var w1 := Injecting(w, c, r.order).0;
    InjectingSamePods(w, c, r.order);
    PassFinal(w1, c, r, k, e);
    ExecutingIsPass(w1, c, r, w.fi.status.expiresAt.value);
  }

  lemma ReconcileFinal(w: World, c: Controller, r: Round, k: TickKey, e: Tick)
    requires KeysApart(w.fi.spec.podFaults) && Booked(w, k, e)
    ensures Booked(Reconciled(w, c, r).0, k, e)
  {
    var l := WithLifecycle(w, r.lifecycleClock);
    assert Booked(l, k, e);
    if !l.fi.spec.cancel && Timed(l.fi.status) && r.now <= l.fi.status.expiresAt.value && Acceptable(l, r) {
      ActiveFinal(l, c, r, k, e);
    } else {
      CleanedPods(l, c.render);
    }
  }

  lemma NextFinal(w: World, c: Controller, ev: Experiment.Event, k: TickKey, e: Tick)
    requires KeysApart(w.fi.spec.podFaults) && Booked(w, k, e) && (ev.Editing? ==> KeysApart(ev.spec.podFaults))
    ensures var w1 := Experiment.Next(w, c, ev); KeysApart(w1.fi.spec.podFaults) && Booked(w1, k, e)
  {
    if ev.Reconciling? {
      ReconcileFinal(w, c, ev.round, k, e);
      Experiment.ReconcilePhases(w, c, ev.round);
    }
  }

  /** A terminal entry is final over whole runs: through edits that keep the actions
      apart, rejections, cleanup and all, its state, pods and time never change again. */
  lemma {:induction false} TerminalForLife(w: World, c: Controller, events: seq<Experiment.Event>, k: TickKey, e: Tick)
    requires KeysApart(w.fi.spec.podFaults) && Booked(w, k, e)
    requires forall i :: 0 <= i < |events| && events[i].Editing? ==> KeysApart(events[i].spec.podFaults)
    ensures Booked(Experiment.RunOf(w, c, events), k, e)
    decreases events
  {
    if events != [] {
      NextFinal(w, c, events[0], k, e);
      assert forall i :: 0 <= i < |events[1..]| ==> events[1..][i] == events[i + 1];
      TerminalForLife(Experiment.Next(w, c, events[0]), c, events[1..], k, e);
    }
  }

  // ---------------------------------------------------------------- the record

  lemma PassRecorded(w: World, c: Controller, r: Round)
    requires KeysApart(w.fi.spec.podFaults) && w.fi.status.startedAt.Some? && Audited(w, NameOf(c.hash, w.fi.id))
    requires forall i: nat :: r.calls(i).planned != Refused
    ensures Audited(PassOf(w, c, r), NameOf(c.hash, w.fi.id))
  {
    var plans := BuildPlans(c.hash, w.fi.id, w.fi.spec, r.now, w.fi.status.startedAt.value).plans;
    BuiltNamed(c.hash, w.fi.id, w.fi.spec, r.now, w.fi.status.startedAt.value);
    PassKeepsAudited(w, w.fi.status.ticks, plans, r.now, Holder(c), CallsFor(r, |plans|), false, NameOf(c.hash, w.fi.id));
  }

  lemma CleanedRecorded(w: World, w1: World, render: VirtualServices.Render, name: TickKey -> string)
    requires Audited(w, name) && w1.jobs == Cleaned(w, render).jobs && w1.fi.id == w.fi.id && w1.fi.status.ticks == w.fi.status.ticks
    ensures Audited(w1, name)
  {
    CleanedPods(w, render);
    forall n ensures !Held(w1, n) { assert !Held(Cleaned(w, render), n); }
    Execution.SameAudited(w, w1, name);
  }

  lemma ActiveRecorded(w: World, c: Controller, r: Round)
    requires KeysApart(w.fi.spec.podFaults) && Audited(w, NameOf(c.hash, w.fi.id)) && Timed(w.fi.status) && Acceptable(w, r)
    requires forall i: nat :: r.calls(i).planned != Refused
    ensures Audited(Active(w, c, r).0, NameOf(c.hash, w.fi.id))
  {
    Validation.ValidDereferenceable(w.fi.spec, r.meshCounts);
    var w1 := Injecting(w, c, r.order).0;
    InjectingSamePods(w, c, r.order);
    Execution.SameAudited(w, w1, NameOf(c.hash, w.fi.id));
    PassRecorded(w1, c, r);
    ExecutingIsPass(w1, c, r, w.fi.status.expiresAt.value);
  }

  lemma ReconcileRecorded(w: World, c: Controller, r: Round)
    requires KeysApart(w.fi.spec.podFaults) && Audited(w, NameOf(c.hash, w.fi.id))
    requires forall i: nat :: r.calls(i).planned != Refused
    ensures Audited(Reconciled(w, c, r).0, NameOf(c.hash, w.fi.id))
  {
    var l := WithLifecycle(w, r.lifecycleClock);
    Execution.SameAudited(w, l, NameOf(c.hash, w.fi.id));
    if !l.fi.spec.cancel && Timed(l.fi.status) && r.now <= l.fi.status.expiresAt.value && Acceptable(l, r) {
      ActiveRecorded(l, c, r);
    } else if Reconciled(w, c, r).0 != l {
      CleanedRecorded(l, Reconciled(w, c, r).0, c.render, NameOf(c.hash, w.fi.id));
    }
  }

  /** Planned writes take effect, edits keep the actions apart, and nobody else makes or
      changes Jobs in the experiment's name. */
  ghost predicate Honest(w: World, ev: Experiment.Event) {
    match ev
    case Reconciling(r) => forall i: nat :: r.calls(i).planned != Refused
    case Editing(spec) => KeysApart(spec.podFaults)
    case OtherJobs(jobs) => forall n :: n in jobs && Mine(w.fi.id, jobs[n].owner) ==> Held(w, n) && SameJob(w.jobs, jobs, n)
    case _ => true
  }

  ghost predicate HonestRun(w: World, c: Controller, events: seq<Experiment.Event>)
    decreases events
  {
    events == [] || (Honest(w, events[0]) && HonestRun(Experiment.Next(w, c, events[0]), c, events[1..]))
  }

  lemma NextRecorded(w: World, c: Controller, ev: Experiment.Event)
    requires KeysApart(w.fi.spec.podFaults) && Audited(w, NameOf(c.hash, w.fi.id)) && Honest(w, ev)
    ensures var w1 := Experiment.Next(w, c, ev);
      KeysApart(w1.fi.spec.podFaults) && Audited(w1, NameOf(c.hash, w.fi.id)) && w1.fi.id == w.fi.id
  {
    match ev {
      case Reconciling(r) =>
        ReconcileRecorded(w, c, r);
        Experiment.ReconcilePhases(w, c, r);
      case Settling(fs) => SettleKeepsAudited(w, fs, NameOf(c.hash, w.fi.id));
      case _ => Execution.SameAudited(w, Experiment.Next(w, c, ev), NameOf(c.hash, w.fi.id));
    }
  }

  lemma {:induction false} RunRecorded(w: World, c: Controller, events: seq<Experiment.Event>)
    requires KeysApart(w.fi.spec.podFaults) && Audited(w, NameOf(c.hash, w.fi.id)) && HonestRun(w, c, events)
    ensures Audited(Experiment.RunOf(w, c, events), NameOf(c.hash, w.fi.id))
    decreases events
  {
    if events != [] {
      NextRecorded(w, c, events[0]);
      RunRecorded(Experiment.Next(w, c, events[0]), c, events[1..]);
    }
  }

  /** From a fresh status on, over whole runs with edits, rejections, cancellation and
      expiry, the status is a true record: one entry per (action, tick), and every Job of
      the experiment has exactly the pods its tick's entry lists. Other experiments' Jobs
      may be there or not. */
  lemma RecordForLife(w: World, c: Controller, events: seq<Experiment.Event>)
    requires w.fi.status.ticks == [] && (forall n :: !Held(w, n)) && KeysApart(w.fi.spec.podFaults) && HonestRun(w, c, events)
    ensures var w1 := Experiment.RunOf(w, c, events);
      && UniqueKeys(w1.fi.status.ticks)
      && forall n :: Held(w1, n) ==> OnRecord(w1, n, NameOf(c.hash, w.fi.id))
  {
    RunRecorded(w, c, events);
  }
}
