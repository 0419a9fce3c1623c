/** Whole runs of an experiment: the controller's reconciles, with the user editing the
    spec, others changing VirtualServices, Jobs and Leases, and Jobs finishing in between. */
module Experiment {
  import opened Wrappers
  import opened Machine
  import opened Helpers
  import opened Names
  import opened Api
  import opened VirtualServices
  import opened Cluster
  import opened Mesh
  import Validation
  import opened Targets
  import opened Ticks
  import opened Protocol
  import Execution
  import opened Lifecycle
  import opened Cleanup
  import opened Reconciler
  import LeaseProtocol
  import PodSelection

  datatype Event =
    | Reconciling(round: Round)
    | Editing(spec: Spec)
    | Writing(key: Key, vs: Option<VirtualService>)
    | Settling(finished: seq<Finish>)
    | OtherJobs(jobs: map<string, Job>)
    | OtherLeases(leases: map<string, LeaseProtocol.Lease>)

  function Next(w: World, c: Controller, ev: Event): World {
    match ev
    case Reconciling(r) => Reconciled(w, c, r).0
    case Editing(spec) => w.(fi := w.fi.(spec := spec))
    case Writing(k, vs) => w.(vss := if vs.Some? then w.vss[k := vs.value] else w.vss - {k})
    case Settling(fs) => w.(jobs := FinishJobs(w.jobs, fs))
    case OtherJobs(jobs) => w.(jobs := jobs)
    case OtherLeases(leases) => w.(leases := leases)
  }

  function RunOf(w: World, c: Controller, events: seq<Event>): World
    decreases events
  {
    if events == [] then w else RunOf(Next(w, c, events[0]), c, events[1..])
  }

  // ---------------------------------------------------------------- what steps leave alone

  /** The pod part changes ticks, Jobs and Leases, and may enter phase Error. */
  ghost predicate SameMesh(w: World, w1: World) {
    && w1.vss == w.vss && w1.fi.id == w.fi.id && w1.fi.spec == w.fi.spec
    && w1.fi.status.startedAt == w.fi.status.startedAt && w1.fi.status.expiresAt == w.fi.status.expiresAt
    && w1.fi.status.cancelledAt == w.fi.status.cancelledAt
    && w1.fi.status.phase in {w.fi.status.phase, Error}
  }

  lemma StepSameMesh(w: World, snapshot: seq<Tick>, p: Plan, now: int, holder: string, e: Surroundings)
    ensures SameMesh(w, PlanStep(w, snapshot, p, now, holder, e).0)
  {
    var w0 := w.(jobs := FinishJobs(w.jobs, e.finished));
    if p.jobName in w0.jobs {
      ObserveSameMesh(w0, p, now, e);
    } else {
      LaunchSameMesh(w0, p, now, holder, e);
    }
  }

  lemma TicksSameMesh(w: World, ticks: seq<Tick>)
    ensures SameMesh(w, w.WithTicks(ticks))
  {
  }

  lemma ErrorSameMesh(w: World, w1: World, call: Call)
    requires SameMesh(w, w1)
    ensures SameMesh(w, EnterError(w1, call).0)
  {
  }

  lemma ObserveSameMesh(w: World, p: Plan, now: int, e: Surroundings)
    requires p.jobName in w.jobs
    ensures SameMesh(w, Observe(w, p, now, e).0)
  {
    FinishingSameMesh(w, p, now, true, e);
    FinishingSameMesh(w, p, now, false, e);
    ErrorSameMesh(w, Finishing(w, p, now, false, e).0, e.phase);
  }

  lemma FinishingSameMesh(w: World, p: Plan, now: int, ok: bool, e: Surroundings)
    requires p.jobName in w.jobs
    ensures SameMesh(w, Finishing(w, p, now, ok, e).0)
  {
    TicksSameMesh(w, RecordExecuted(w.fi.status.ticks, PlanKey(p), p.jobName, [], now, ok));
  }

  lemma LaunchSameMesh(w: World, p: Plan, now: int, holder: string, e: Surroundings)
    requires p.jobName !in w.jobs
    ensures SameMesh(w, Launch(w, p, now, holder, e).0)
  {
    ErrorSameMesh(w, w, e.phase);
    if e.pods.Some? {
      var selected := PodSelection.Select(PodSelection.Candidates(e.pods.value), p.count, p.percent, p.cap);
      var w1 := w.WithTicks(RecordPlanned(w.fi.status.ticks, PlanKey(p), p.jobName, selected, now));
      TicksSameMesh(w, RecordPlanned(w.fi.status.ticks, PlanKey(p), p.jobName, selected, now));
      Execution.LeaseAndJobEffect(w, p, selected, now, holder, e);
      Execution.LeaseAndJobEffect(w1, p, selected, now, holder, e);
    }
  }

  lemma {:induction false} PassSameMesh(w: World, snapshot: seq<Tick>, plans: seq<Plan>, now: int, holder: string, es: seq<Surroundings>, pending: bool)
    requires |es| == |plans|
    ensures SameMesh(w, Pass(w, snapshot, plans, now, holder, es, pending).0)
    decreases plans
  {
    if plans != [] {
      StepSameMesh(w, snapshot, plans[0], now, holder, es[0]);
      var (w1, v) := PlanStep(w, snapshot, plans[0], now, holder, es[0]);
      if v.Continue? { PassSameMesh(w1, snapshot, plans[1..], now, holder, es[1..], pending || v.pending); }
    }
  }

  lemma ExecutingSameMesh(w: World, c: Controller, r: Round, expiresAt: int)
    ensures SameMesh(w, Executing(w, c, r, expiresAt).0)
  {
    if w.fi.status.startedAt.Some? {
      var b := BuildPlans(c.hash, w.fi.id, w.fi.spec, r.now, w.fi.status.startedAt.value);
      PassSameMesh(w, w.fi.status.ticks, b.plans, r.now, Holder(c), CallsFor(r, |b.plans|), false);
    }
  }

  lemma DesiredAreTargets(id: Identity, actions: seq<MeshAction>)
    requires AllDereferenceable(actions)
    ensures DesiredByTarget(id, actions).Keys <= SpecTargets(id, actions)
  {
    GroupingSound(id, actions);
    forall k | k in DesiredByTarget(id, actions) ensures k in SpecTargets(id, actions) {
      var a :| a in actions && TargetKey(id, a) == Some(k);
      assert a.direction == INBOUND || a.direction == OUTBOUND;
    }
  }

  /** Applying leaves alone what is no target. */
  lemma {:induction false} ApplyAllFrame(id: Identity, store: Store, desired: map<string, Wanted>, order: seq<string>, render: Render, p: Key)
    requires !Hit(p, desired.Keys)
    ensures Lookup(VisitAll(store, order, EffectOf(id, desired, render)).0, p) == Lookup(store, p)
    decreases order
  {
    if order != [] {
      var r := Visit(store, order[0], EffectOf(id, desired, render));
      assert Lookup(r.0, p) == Lookup(store, p) by {
        if order[0] in desired.Keys { assert SplitKey(order[0]) != p; }
      }
      if r.1 == NoFailure { ApplyAllFrame(id, r.0, desired, order[1..], render, p); }
    }
  }

  // ---------------------------------------------------------------- terminal phases are clean

  lemma InjectingKeepsReachable(w: World, c: Controller, order: seq<string>)
    requires AllDereferenceable(w.fi.spec.meshFaults) && Reachable(w.fi.id, w.fi.spec.meshFaults, w.vss)
    ensures Reachable(w.fi.id, w.fi.spec.meshFaults, Injecting(w, c, order).0.vss)
  {
    var id, actions := w.fi.id, w.fi.spec.meshFaults;
    var desired := DesiredByTarget(id, actions);
    var vss := ApplyAll(id, w.vss, desired, order, c.render).0;
    DesiredAreTargets(id, actions);
    forall p | p in vss && p.0 == id.ns && HasOwn(id, vss[p])
      ensures Hit(p, SpecTargets(id, actions)) || Labelled(id, vss[p])
    {
      if Hit(p, desired.Keys) {
        var k :| k in desired.Keys && SplitKey(k) == p;
        assert k in SpecTargets(id, actions);
      } else {
        ApplyAllFrame(id, w.vss, desired, order, c.render, p);
      }
    }
  }

  predicate Final(phase: Phase) { phase == Completed || phase == Cancelled }

  /** What a reconcile may do, by where it leaves the phase. */
  lemma ReconcilePhases(w: World, c: Controller, r: Round)
    ensures var l := WithLifecycle(w, r.lifecycleClock);
      var w1 := Reconciled(w, c, r).0;
      && w1.fi.id == w.fi.id && w1.fi.spec == w.fi.spec
      && w1.fi.status.startedAt == l.fi.status.startedAt && w1.fi.status.expiresAt == l.fi.status.expiresAt
      && (w1.fi.status.phase == Completed <==>
            if l.fi.spec.cancel || !Timed(l.fi.status) then w.fi.status.phase == Completed
            else r.now > l.fi.status.expiresAt.value)
      && (w1.fi.status.phase == Cancelled <==>
            if l.fi.spec.cancel then w.fi.status.phase != Completed
            else !Timed(l.fi.status) && w.fi.status.phase == Cancelled)
  {
    var l := WithLifecycle(w, r.lifecycleClock);
    if !l.fi.spec.cancel && Timed(l.fi.status) && r.now <= l.fi.status.expiresAt.value && Acceptable(l, r) {
      ActivePhases(l, c, r);
    }
  }

  lemma ActivePhases(w: World, c: Controller, r: Round)
    requires Timed(w.fi.status) && Acceptable(w, r)
    ensures var w1 := Active(w, c, r).0;
      && w1.fi.id == w.fi.id && w1.fi.spec == w.fi.spec
      && w1.fi.status.startedAt == w.fi.status.startedAt && w1.fi.status.expiresAt == w.fi.status.expiresAt
      && w1.fi.status.phase in {Running, Error}
  {
    Validation.ValidDereferenceable(w.fi.spec, r.meshCounts);
    ExecutingSameMesh(Injecting(w, c, r.order).0, c, r, w.fi.status.expiresAt.value);
  }

  lemma ActiveKeepsReachable(w: World, c: Controller, r: Round)
    requires Timed(w.fi.status) && Acceptable(w, r) && Reachable(w.fi.id, w.fi.spec.meshFaults, w.vss)
    ensures Reachable(w.fi.id, w.fi.spec.meshFaults, Active(w, c, r).0.vss)
  {
    Validation.ValidDereferenceable(w.fi.spec, r.meshCounts);
    InjectingKeepsReachable(w, c, r.order);
    ExecutingSameMesh(Injecting(w, c, r.order).0, c, r, w.fi.status.expiresAt.value);
  }

  /** The moment an experiment ends, whether by expiry or by cancellation, it is clean
      exactly when every rule of it was on an object the spec still names or that is
      labelled. A rejected spec is cleaned up to the same extent. */
  lemma EndsCleanExactly(w: World, c: Controller, r: Round)
    requires '/' !in w.fi.id.ns && SeesRemovals(c.render)
    requires var l := WithLifecycle(w, r.lifecycleClock);
      if l.fi.spec.cancel then !Final(w.fi.status.phase)
      else Timed(l.fi.status) && (r.now > l.fi.status.expiresAt.value || !Acceptable(l, r))
    ensures var l := WithLifecycle(w, r.lifecycleClock);
      var w1 := Reconciled(w, c, r).0;
      && (Clean(w1) <==> Reachable(w.fi.id, w.fi.spec.meshFaults, w.vss))
      && w1.fi.status.phase == if l.fi.spec.cancel then Cancelled else if r.now > l.fi.status.expiresAt.value then Completed else Error
  {
    CleanupExact(WithLifecycle(w, r.lifecycleClock), c.render);
  }

  /** Rules stay within reach of cleanup, and final phases are clean. */
  ghost predicate Tidy(w: World) {
    Reachable(w.fi.id, w.fi.spec.meshFaults, w.vss) && (Final(w.fi.status.phase) ==> Clean(w))
  }

  /** What is asked of everyone else: an edit keeps naming the unlabelled objects that
      carry rules; a write brings in no rule of the experiment and leaves its labels;
      and nobody makes Jobs or Leases in its name. */
  ghost predicate Considerate(w: World, ev: Event) {
    match ev
    case Editing(spec) => Reachable(w.fi.id, spec.meshFaults, w.vss)
    case Writing(k, vs) =>
      vs.Some? && k.0 == w.fi.id.ns ==>
        && (HasOwn(w.fi.id, vs.value) ==> k in w.vss && HasOwn(w.fi.id, w.vss[k]))
        && (if k in w.vss
            then (Labelled(w.fi.id, vs.value) <==> Labelled(w.fi.id, w.vss[k])) && (ManagedVS(w.fi.id, vs.value) <==> ManagedVS(w.fi.id, w.vss[k]))
            else !Labelled(w.fi.id, vs.value))
    case OtherJobs(jobs) => OwnJobs(w.fi.id, jobs) <= OwnJobs(w.fi.id, w.jobs)
    case OtherLeases(leases) => OwnLeases(w.fi.id, leases) <= OwnLeases(w.fi.id, w.leases)
    case _ => true
  }

  ghost predicate ConsiderateRun(w: World, c: Controller, events: seq<Event>)
    decreases events
  {
    events == [] || (Considerate(w, events[0]) && ConsiderateRun(Next(w, c, events[0]), c, events[1..]))
  }

  lemma ReconcileKeepsTidy(w: World, c: Controller, r: Round)
    requires Tidy(w) && '/' !in w.fi.id.ns && SeesRemovals(c.render)
    ensures Tidy(Reconciled(w, c, r).0)
  {
    var l := WithLifecycle(w, r.lifecycleClock);
    if !l.fi.spec.cancel && Timed(l.fi.status) && r.now <= l.fi.status.expiresAt.value && Acceptable(l, r) {
      ActivePhases(l, c, r);
      ActiveKeepsReachable(l, c, r);
    } else {
      CleanupExact(l, c.render);
    }
  }

  lemma SettlingKeepsOwners(w: World, fs: seq<Finish>)
    ensures OwnJobs(w.fi.id, FinishJobs(w.jobs, fs)) == OwnJobs(w.fi.id, w.jobs)
  {
    Execution.FinishJobsKeys(w.jobs, fs);
    forall n | n in w.jobs ensures FinishJobs(w.jobs, fs)[n].owner == w.jobs[n].owner {
      assert Execution.SameJob(w.jobs, FinishJobs(w.jobs, fs), n);
    }
  }

  lemma NextKeepsTidy(w: World, c: Controller, ev: Event)
    requires Tidy(w) && Considerate(w, ev) && '/' !in w.fi.id.ns && SeesRemovals(c.render)
    ensures Tidy(Next(w, c, ev)) && Next(w, c, ev).fi.id == w.fi.id
  {
    match ev {
      case Reconciling(r) =>
        ReconcileKeepsTidy(w, c, r);
        ReconcilePhases(w, c, r);
      case Settling(fs) => SettlingKeepsOwners(w, fs);
      case _ =>
    }
  }

  /** On every run, in phase Completed or Cancelled no VirtualService carries a rule of the
      experiment, and nothing it manages, no podfault Job and no Lease of it exists. */
  lemma {:induction false} TerminalIsClean(w: World, c: Controller, events: seq<Event>)
    requires Tidy(w) && ConsiderateRun(w, c, events) && '/' !in w.fi.id.ns && SeesRemovals(c.render)
    ensures var w1 := RunOf(w, c, events); Tidy(w1) && (Final(w1.fi.status.phase) ==> Clean(w1))
    decreases events
  {
    if events != [] {
      NextKeepsTidy(w, c, events[0]);
      TerminalIsClean(Next(w, c, events[0]), c, events[1..]);
    }
  }

  // ---------------------------------------------------------------- terminal phases stay

  /** Completed, with an expiry before `t` that no duration up to `limit` would move past it. */
  ghost predicate Past(w: World, limit: int64, t: int) {
    && w.fi.status.phase == Completed && Timed(w.fi.status)
    && w.fi.spec.durationSeconds <= limit && w.fi.status.expiresAt.value < t
    && (limit > 0 ==> w.fi.status.startedAt.value + limit * SECOND < t)
  }

  /** The clock does not run back, and the duration is not raised. */
  ghost predicate NotRaised(ev: Event, limit: int64, t: int) {
    (ev.Reconciling? ==> ev.round.now >= t) && (ev.Editing? ==> ev.spec.durationSeconds <= limit)
  }

  lemma LifecycleBound(d: int64, st: Status, now: int, limit: int64)
    requires Timed(st) && d <= limit <= MAX_SECONDS
    ensures var st1 := AfterLifecycle(d, st, now);
      && Timed(st1) && st1.phase == st.phase && st1.startedAt.value <= st.startedAt.value
      && (st1.expiresAt == st.expiresAt || (limit > 0 && st1.expiresAt.value <= st.startedAt.value + limit * SECOND))
  {
    if d > 0 { assert Seconds(d) == d * SECOND <= limit * SECOND; }
  }

  lemma ReconcileStaysPast(w: World, c: Controller, r: Round, limit: int64, t: int)
    requires Past(w, limit, t) && limit <= MAX_SECONDS && r.now >= t
    ensures Past(Reconciled(w, c, r).0, limit, t) && Reconciled(w, c, r).0.log == w.log
  {
    LifecycleBound(w.fi.spec.durationSeconds, w.fi.status, r.lifecycleClock, limit);
    ReconcilePhases(w, c, r);
  }

  lemma {:induction false} PastStays(w: World, c: Controller, events: seq<Event>, limit: int64, t: int)
    requires Past(w, limit, t) && limit <= MAX_SECONDS
    requires forall i :: 0 <= i < |events| ==> NotRaised(events[i], limit, t)
    ensures Past(RunOf(w, c, events), limit, t) && RunOf(w, c, events).log == w.log
    decreases events
  {
    if events != [] {
      assert NotRaised(events[0], limit, t);
      if events[0].Reconciling? { ReconcileStaysPast(w, c, events[0].round, limit, t); }
      PastStays(Next(w, c, events[0]), c, events[1..], limit, t);
    }
  }

  /** A reconcile that finds the experiment expired completes it, and it stays completed
      while the clock goes on and the duration is not raised, whatever else is edited,
      spec.cancel included. No Job is created any more. */
  lemma CompletedAbsorbing(w: World, c: Controller, r: Round, events: seq<Event>)
    requires var l := WithLifecycle(w, r.lifecycleClock);
      && !l.fi.spec.cancel && Timed(l.fi.status) && r.now > l.fi.status.expiresAt.value
    requires w.fi.spec.durationSeconds <= MAX_SECONDS
    requires forall i :: 0 <= i < |events| ==> NotRaised(events[i], w.fi.spec.durationSeconds, r.now)
    ensures var w1 := RunOf(w, c, [Reconciling(r)] + events);
      w1.fi.status.phase == Completed && w1.log == w.log
  {
    var d := w.fi.spec.durationSeconds;
    ExpiryCompletes(w, c, r);
    PastStays(Reconciled(w, c, r).0, c, events, d, r.now);
    assert ([Reconciling(r)] + events)[1..] == events;
  }

  lemma ExpiryCompletes(w: World, c: Controller, r: Round)
    requires var l := WithLifecycle(w, r.lifecycleClock);
      && !l.fi.spec.cancel && Timed(l.fi.status) && r.now > l.fi.status.expiresAt.value
    requires w.fi.spec.durationSeconds <= MAX_SECONDS
    ensures var w1 := Reconciled(w, c, r).0;
      Past(w1, w.fi.spec.durationSeconds, r.now) && w1.log == w.log
  {
    ReconcilePhases(w, c, r);
    if w.fi.spec.durationSeconds > 0 { ExpiryOfLifecycle(w.fi.spec.durationSeconds, w.fi.status, r.lifecycleClock); }
  }

  lemma ExpiryOfLifecycle(d: int64, st: Status, now: int)
    requires 0 < d <= MAX_SECONDS
    ensures var st1 := AfterLifecycle(d, st, now);
      Timed(st1) && st1.expiresAt.value == st1.startedAt.value + d * SECOND
  {
    assert Seconds(d) == d * SECOND;
    assert (d * SECOND) % SECOND == 0;
    StoredSum(if st.startedAt.Some? then st.startedAt.value else now, d * SECOND);
  }

  /** A cancelled experiment stays cancelled, with its first cancellation time, while
      spec.cancel stays true; no Job is created any more. */
  lemma {:induction false} CancelledAbsorbing(w: World, c: Controller, events: seq<Event>)
    requires w.fi.status.phase == Cancelled && w.fi.spec.cancel
    requires forall i :: 0 <= i < |events| && events[i].Editing? ==> events[i].spec.cancel
    ensures var w1 := RunOf(w, c, events);
      && w1.fi.status.phase == Cancelled && w1.log == w.log
      && w1.fi.status.cancelledAt == w.fi.status.cancelledAt
    decreases events
  {
    if events != [] {
      if events[0].Reconciling? { ReconcilePhases(w, c, events[0].round); }
      assert forall i :: 0 <= i < |events[1..]| ==> events[1..][i] == events[i + 1];
      CancelledAbsorbing(Next(w, c, events[0]), c, events[1..]);
    }
  }

  /** No cancellation has been seen, so no time for one is on record. */
  predicate Uncancelled(w: World) {
    w.fi.status.phase != Cancelled && w.fi.status.cancelledAt.None?
  }

  /** That time is the one of the first reconcile to find the experiment cancelled before
      it was completed: over whole runs in which spec.cancel is set at some point and stays,
      the phase is Cancelled from that reconcile on, at its clock. */
  lemma CancelledAtFirst(w: World, c: Controller, r: Round, events: seq<Event>)
    requires Uncancelled(w) && w.fi.spec.cancel && w.fi.status.phase != Completed
    requires forall i :: 0 <= i < |events| && events[i].Editing? ==> events[i].spec.cancel
    ensures var w1 := RunOf(Reconciled(w, c, r).0, c, events);
      w1.fi.status.phase == Cancelled && w1.fi.status.cancelledAt == Some(StoredTime(r.now)) && w1.log == w.log
  {
    CancelledNow(w, c, r);
    CancelledAbsorbing(Reconciled(w, c, r).0, c, events);
  }

  lemma CancelledNow(w: World, c: Controller, r: Round)
    requires Uncancelled(w) && w.fi.spec.cancel && w.fi.status.phase != Completed
    ensures var w1 := Reconciled(w, c, r).0;
      w1.fi.spec.cancel && w1.fi.status.phase == Cancelled && w1.fi.status.cancelledAt == Some(StoredTime(r.now)) && w1.log == w.log
  {
    var l := WithLifecycle(w, r.lifecycleClock);
    assert Reconciled(w, c, r).0 == Cancelling(l, r.now, c.render);
  }

  lemma ActiveKeepsCancellation(w: World, c: Controller, r: Round)
    requires Timed(w.fi.status) && Acceptable(w, r)
    ensures Active(w, c, r).0.fi.status.cancelledAt == w.fi.status.cancelledAt
  {
    Validation.ValidDereferenceable(w.fi.spec, r.meshCounts);
    ExecutingSameMesh(Injecting(w, c, r.order).0, c, r, w.fi.status.expiresAt.value);
  }

  /** Once on record, the time of a cancellation is never changed again, even if the
      cancellation is taken back and another follows. */
  lemma {:induction false} CancellationTimeForLife(w: World, c: Controller, events: seq<Event>)
    requires w.fi.status.cancelledAt.Some?
    ensures RunOf(w, c, events).fi.status.cancelledAt == w.fi.status.cancelledAt
    decreases events
  {
    if events != [] {
      if events[0].Reconciling? {
        var r := events[0].round;
        var l := WithLifecycle(w, r.lifecycleClock);
        if !l.fi.spec.cancel && Timed(l.fi.status) && r.now <= l.fi.status.expiresAt.value && Acceptable(l, r) { ActiveKeepsCancellation(l, c, r); }
      }
      CancellationTimeForLife(Next(w, c, events[0]), c, events[1..]);
    }
  }

  // ---------------------------------------------------------------- users get their services back

  /** The object as its user knows it: without the experiment's rules. */
  function Stripped(id: Identity, vs: VirtualService): VirtualService {
    vs.(spec := WithHttp(vs.spec, Without(PrefixOf(id.name), HttpOf(vs.spec))))
  }

  /** spec.http is there and is a list, as every VirtualService with HTTP rules has it. */
  predicate Listed(vs: VirtualService) {
    vs.spec.Obj? && "http" in vs.spec.fields && vs.spec.fields["http"].List?
  }

  /** A step on one object that only the experiment's rules can tell. */
  ghost predicate OnlyRules(id: Identity, vs: VirtualService, vs1: VirtualService) {
    Stripped(id, vs1) == Stripped(id, vs) && (Listed(vs) ==> Listed(vs1))
  }

  lemma RelistedOnlyRules(id: Identity, vs: VirtualService, list: seq<Value>)
    requires Without(PrefixOf(id.name), list) == Without(PrefixOf(id.name), HttpOf(vs.spec))
    ensures OnlyRules(id, vs, vs.(spec := WithHttp(vs.spec, list)))
  {
  }

  lemma ScrubbedOnlyRules(id: Identity, vs: VirtualService, render: Render)
    ensures OnlyRules(id, vs, Scrubbed(id, vs, render))
  {
    PatchedParts(PrefixOf(id.name), HttpOf(vs.spec), []);
    RelistedOnlyRules(id, vs, Patched(PrefixOf(id.name), HttpOf(vs.spec), []));
  }

  lemma AppliedOnlyRules(id: Identity, vs: VirtualService, d: Wanted, render: Render)
    requires WellGrouped(id, d) && !d.managed && ApplyOne(id, Some(vs), d, render).Applied?
    ensures OnlyRules(id, vs, ApplyOne(id, Some(vs), d, render).vs)
  {
    InjectedKeepsBase(id, vs.spec, d);
    RelistedOnlyRules(id, vs, Injected(id, vs.spec, d));
  }

  lemma {:induction false} ApplyAllOnlyRules(id: Identity, store: Store, desired: map<string, Wanted>, order: seq<string>, render: Render, p: Key)
    requires p in store
    requires forall k :: k in desired && SplitKey(k) == p ==> !desired[k].managed && WellGrouped(id, desired[k])
    ensures var vss := VisitAll(store, order, EffectOf(id, desired, render)).0;
      p in vss && OnlyRules(id, store[p], vss[p])
    decreases order
  {
    if order != [] {
      var k := order[0];
      var r := Visit(store, k, EffectOf(id, desired, render));
      assert p in r.0 && OnlyRules(id, store[p], r.0[p]) by {
        if k in desired && SplitKey(k) == p && ApplyOne(id, Some(store[p]), desired[k], render).Applied? {
          AppliedOnlyRules(id, store[p], desired[k], render);
        }
      }
      if r.1 == NoFailure { ApplyAllOnlyRules(id, r.0, desired, order[1..], render, p); }
    }
  }

  /** The user's object at `p` is as `original`, but for rules of the experiment; and the
      spec does not also claim it as a managed one. */
  ghost predicate Theirs(w: World, p: Key, original: VirtualService) {
    && p in w.vss && OnlyRules(w.fi.id, original, w.vss[p]) && Listed(original)
    && !ManagedVS(w.fi.id, original) && !Hit(p, ManagedKeys(w.fi.id, w.fi.spec.meshFaults))
  }

  /** Nobody else writes the object, and no edit names it as a managed one. */
  ghost predicate HandsOff(ev: Event, id: Identity, p: Key) {
    (ev.Writing? ==> ev.key != p) && (ev.Editing? ==> !Hit(p, ManagedKeys(id, ev.spec.meshFaults)))
  }

  lemma UnmanagedTarget(id: Identity, actions: seq<MeshAction>, p: Key)
    requires AllDereferenceable(actions) && !Hit(p, ManagedKeys(id, actions))
    ensures var desired := DesiredByTarget(id, actions);
      forall k :: k in desired && SplitKey(k) == p ==> !desired[k].managed && WellGrouped(id, desired[k])
  {
    var desired := DesiredByTarget(id, actions);
    GroupingSound(id, actions);
    forall k | k in desired && SplitKey(k) == p ensures !desired[k].managed && WellGrouped(id, desired[k]) {
      GroupedWell(id, actions, k);
    }
  }

  lemma AppliedKeepsTheirs(id: Identity, actions: seq<MeshAction>, vss: Store, order: seq<string>, render: Render, p: Key)
    requires AllDereferenceable(actions) && p in vss && !Hit(p, ManagedKeys(id, actions))
    ensures var after := ApplyAll(id, vss, DesiredByTarget(id, actions), order, render).0;
      p in after && OnlyRules(id, vss[p], after[p])
  {
    UnmanagedTarget(id, actions, p);
    ApplyAllOnlyRules(id, vss, DesiredByTarget(id, actions), order, render, p);
  }

  lemma InjectingKeepsTheirs(w: World, c: Controller, order: seq<string>, p: Key, original: VirtualService)
    requires AllDereferenceable(w.fi.spec.meshFaults) && Theirs(w, p, original)
    ensures Theirs(Injecting(w, c, order).0, p, original)
  {
    var id, actions := w.fi.id, w.fi.spec.meshFaults;
    var after := ApplyAll(id, w.vss, DesiredByTarget(id, actions), order, c.render).0;
    assert p in after && OnlyRules(id, original, after[p]) && after[p].labels == original.labels by {
      AppliedKeepsTheirs(id, actions, w.vss, order, c.render, p);
    }
    InjectedStore(w, c, order, after);
  }

  lemma InjectedStore(w: World, c: Controller, order: seq<string>, after: Store)
    requires AllDereferenceable(w.fi.spec.meshFaults)
    requires after == ApplyAll(w.fi.id, w.vss, DesiredByTarget(w.fi.id, w.fi.spec.meshFaults), order, c.render).0
    ensures var w1 := Injecting(w, c, order).0;
      && w1.fi.id == w.fi.id && w1.fi.spec == w.fi.spec
      && (w1.vss == after || w1.vss == after - Orphans(w.fi.id, after, ManagedKeys(w.fi.id, w.fi.spec.meshFaults)))
  {
  }

  lemma CleanedKeepsTheirs(w: World, render: Render, p: Key, original: VirtualService)
    requires Theirs(w, p, original)
    ensures Theirs(Cleaned(w, render), p, original)
  {
    ScrubbedOnlyRules(w.fi.id, w.vss[p], render);
  }

  lemma ReconcileKeepsTheirs(w: World, c: Controller, r: Round, p: Key, original: VirtualService)
    requires Theirs(w, p, original)
    ensures Theirs(Reconciled(w, c, r).0, p, original)
  {
    var l := WithLifecycle(w, r.lifecycleClock);
    assert Theirs(l, p, original);
    if !l.fi.spec.cancel && Timed(l.fi.status) && r.now <= l.fi.status.expiresAt.value && Acceptable(l, r) {
      ActiveKeepsTheirs(l, c, r, p, original);
    } else {
      CleanedKeepsTheirs(l, c.render, p, original);
    }
  }

  lemma ActiveKeepsTheirs(w: World, c: Controller, r: Round, p: Key, original: VirtualService)
    requires Theirs(w, p, original) && Timed(w.fi.status) && Acceptable(w, r)
    ensures Theirs(Active(w, c, r).0, p, original)
  {
    Validation.ValidDereferenceable(w.fi.spec, r.meshCounts);
    InjectingKeepsTheirs(w, c, r.order, p, original);
    ExecutingSameMesh(Injecting(w, c, r.order).0, c, r, w.fi.status.expiresAt.value);
  }

  lemma NextKeepsTheirs(w: World, c: Controller, ev: Event, p: Key, original: VirtualService)
    requires Theirs(w, p, original) && HandsOff(ev, w.fi.id, p)
    ensures Theirs(Next(w, c, ev), p, original) && Next(w, c, ev).fi.id == w.fi.id
  {
    if ev.Reconciling? {
      ReconcileKeepsTheirs(w, c, ev.round, p, original);
      ReconcilePhases(w, c, ev.round);
    }
  }

  lemma {:induction false} RunKeepsTheirs(w: World, c: Controller, events: seq<Event>, p: Key, original: VirtualService)
    requires Theirs(w, p, original) && forall i :: 0 <= i < |events| ==> HandsOff(events[i], w.fi.id, p)
    ensures Theirs(RunOf(w, c, events), p, original) && RunOf(w, c, events).fi.id == w.fi.id
    decreases events
  {
    if events != [] {
      NextKeepsTheirs(w, c, events[0], p, original);
      assert forall i :: 0 <= i < |events[1..]| ==> events[1..][i] == events[i + 1];
      RunKeepsTheirs(Next(w, c, events[0]), c, events[1..], p, original);
    }
  }

  /** An experiment leaves no trace. A VirtualService a user had before it, and nobody
      else writes meanwhile, keeps its own rules in order all through the run, and is the
      very same object again whenever the experiment is completed or cancelled. */
  lemma LeavesNoTrace(w: World, c: Controller, events: seq<Event>, p: Key)
    requires Tidy(w) && ConsiderateRun(w, c, events) && '/' !in w.fi.id.ns && SeesRemovals(c.render)
    requires p in w.vss && p.0 == w.fi.id.ns && Theirs(w, p, w.vss[p]) && !HasOwn(w.fi.id, w.vss[p])
    requires forall i :: 0 <= i < |events| ==> HandsOff(events[i], w.fi.id, p)
    ensures var w1 := RunOf(w, c, events);
      && p in w1.vss && w1.vss[p].labels == w.vss[p].labels
      && Without(PrefixOf(w.fi.id.name), HttpOf(w1.vss[p].spec)) == HttpOf(w.vss[p].spec)
      && (Final(w1.fi.status.phase) ==> w1.vss[p] == w.vss[p])
  {
    RunKeepsTheirs(w, c, events, p, w.vss[p]);
    TerminalIsClean(w, c, events);
    var w1 := RunOf(w, c, events);
    StrippedOfFree(w.fi.id, w.vss[p]);
    assert HttpOf(Stripped(w.fi.id, w1.vss[p]).spec) == HttpOf(w.vss[p].spec);
    if Final(w1.fi.status.phase) { StrippedOfFree(w.fi.id, w1.vss[p]); }
  }

  lemma StrippedOfFree(id: Identity, vs: VirtualService)
    requires Listed(vs) && !HasOwn(id, vs)
    ensures Stripped(id, vs) == vs
  {
    WithoutNone(PrefixOf(id.name), HttpOf(vs.spec));
    assert WithHttp(vs.spec, HttpOf(vs.spec)).fields == vs.spec.fields;
  }

  // ---------------------------------------------------------------- a running experiment is steady

  /** No action is INBOUND on an object the controller manages without wanting it any
      longer: applying would patch it, and the orphan cleanup then delete it. */
  ghost predicate InboundKept(id: Identity, desired: map<string, Wanted>, vss: Store) {
    forall k :: k in desired && !desired[k].managed && SplitKey(k) in vss ==> !ManagedVS(id, vss[SplitKey(k)])
  }

  lemma TargetParts(id: Identity, actions: seq<MeshAction>, k: string)
    requires AllDereferenceable(actions) && '/' !in id.ns && k in DesiredByTarget(id, actions)
    ensures SplitKey(k).0 == id.ns && JoinKey(SplitKey(k).0, SplitKey(k).1) == k
    ensures DesiredByTarget(id, actions)[k].managed <==> k in ManagedKeys(id, actions)
  {
    GroupingSound(id, actions);
    var a :| a in actions && TargetKey(id, a) == Some(k);
    SplitJoin(id.ns, if a.direction == INBOUND then a.virtualServiceRef.value else ManagedName(id, a));
  }

  /** Whether a target is still there after applying and orphan cleanup. */
  lemma TargetSurvives(id: Identity, actions: seq<MeshAction>, vss: Store, x: seq<string>, render: Render, k: string)
    requires AllDereferenceable(actions) && '/' !in id.ns && Enumerates(x, DesiredByTarget(id, actions).Keys) && k in x
    requires ApplyAll(id, vss, DesiredByTarget(id, actions), x, render).1 == NoFailure
    ensures var d := DesiredByTarget(id, actions);
      var after := ApplyAll(id, vss, d, x, render).0;
      var p := SplitKey(k);
      var o := ApplyOne(id, Lookup(vss, p), d[k], render);
      && o.Applied? && p in after && after[p] == o.vs
      && (p in Orphans(id, after, ManagedKeys(id, actions)) <==> !d[k].managed && p in vss && ManagedVS(id, vss[p]))
  {
    var d := DesiredByTarget(id, actions);
    TargetsDistinct(id, actions, x);
    VisitPointwise(vss, x, EffectOf(id, d, render));
    TargetParts(id, actions, k);
  }

  /** The store after one pass, under the next. */
  lemma SteadyStore(id: Identity, actions: seq<MeshAction>, vss: Store, x: seq<string>, y: seq<string>, render: Render)
    requires AllDereferenceable(actions) && '/' !in id.ns
    requires Enumerates(x, DesiredByTarget(id, actions).Keys) && Enumerates(y, DesiredByTarget(id, actions).Keys)
    requires ApplyAll(id, vss, DesiredByTarget(id, actions), x, render).1 == NoFailure
    ensures var d := DesiredByTarget(id, actions);
      var after := ApplyAll(id, vss, d, x, render).0;
      var kept := after - Orphans(id, after, ManagedKeys(id, actions));
      && Orphans(id, kept, ManagedKeys(id, actions)) == {}
      && (if InboundKept(id, d, vss) then ApplyAll(id, kept, d, y, render) == (kept, NoFailure)
          else ApplyAll(id, kept, d, y, render).1 != NoFailure)
  {
    var d := DesiredByTarget(id, actions);
    var effect := EffectOf(id, d, render);
    var after := ApplyAll(id, vss, d, x, render).0;
    var kept := after - Orphans(id, after, ManagedKeys(id, actions));
    assert Orphans(id, kept, ManagedKeys(id, actions)) == {};
    if InboundKept(id, d, vss) {
      forall k | k in y ensures Visit(kept, k, effect) == (kept, NoFailure) {
        SurvivorIdle(id, actions, vss, x, render, k);
      }
      IdleVisits(kept, y, effect);
    } else {
      var k :| k in d && !d[k].managed && SplitKey(k) in vss && ManagedVS(id, vss[SplitKey(k)]);
      assert k in x && k in y;
      TargetSurvives(id, actions, vss, x, render, k);
      GoneFails(id, actions, kept, y, render, k);
    }
  }

  lemma GoneFails(id: Identity, actions: seq<MeshAction>, vss: Store, y: seq<string>, render: Render, k: string)
    requires AllDereferenceable(actions) && '/' !in id.ns && Enumerates(y, DesiredByTarget(id, actions).Keys) && k in y
    requires !DesiredByTarget(id, actions)[k].managed && SplitKey(k) !in vss
    ensures ApplyAll(id, vss, DesiredByTarget(id, actions), y, render).1 != NoFailure
  {
    TargetsDistinct(id, actions, y);
    VisitPointwise(vss, y, EffectOf(id, DesiredByTarget(id, actions), render));
  }

  lemma SurvivorIdle(id: Identity, actions: seq<MeshAction>, vss: Store, x: seq<string>, render: Render, k: string)
    requires AllDereferenceable(actions) && '/' !in id.ns && Enumerates(x, DesiredByTarget(id, actions).Keys)
    requires k in DesiredByTarget(id, actions) && InboundKept(id, DesiredByTarget(id, actions), vss)
    requires ApplyAll(id, vss, DesiredByTarget(id, actions), x, render).1 == NoFailure
    ensures var after := ApplyAll(id, vss, DesiredByTarget(id, actions), x, render).0;
      var kept := after - Orphans(id, after, ManagedKeys(id, actions));
      Visit(kept, k, EffectOf(id, DesiredByTarget(id, actions), render)) == (kept, NoFailure)
  {
    var after := ApplyAll(id, vss, DesiredByTarget(id, actions), x, render).0;
    assert k in x;
    TargetSurvives(id, actions, vss, x, render, k);
    IdleTarget(id, actions, vss, x, render, k, after - Orphans(id, after, ManagedKeys(id, actions)));
  }

  lemma IdleTarget(id: Identity, actions: seq<MeshAction>, vss: Store, x: seq<string>, render: Render, k: string, kept: Store)
    requires AllDereferenceable(actions) && k in DesiredByTarget(id, actions)
    requires var d := DesiredByTarget(id, actions)[k];
      var o := ApplyOne(id, Lookup(vss, SplitKey(k)), d, render);
      SplitKey(k) in kept && o.Applied? && kept[SplitKey(k)] == o.vs
    ensures Visit(kept, k, EffectOf(id, DesiredByTarget(id, actions), render)) == (kept, NoFailure)
  {
    var d := DesiredByTarget(id, actions)[k];
    GroupedWell(id, actions, k);
    ApplyIdempotent(id, Lookup(vss, SplitKey(k)), d, render);
    assert kept[SplitKey(k) := kept[SplitKey(k)]] == kept;
  }

  /** Once its rules are in place, reconciling an unchanged experiment again before it
      expires leaves every VirtualService as it is, and without pod faults everything,
      exactly when no action is INBOUND on an orphan; otherwise the next reconcile finds
      that target gone, ends in phase Error and does not get to the pod part. */
  lemma RunningIsSteady(w: World, c: Controller, r: Round, again: Round)
    requires '/' !in w.fi.id.ns && Stored(w.fi.status) && 0 < w.fi.spec.durationSeconds <= MAX_SECONDS && !w.fi.spec.cancel
    ensures var w1 := Reconciled(w, c, r).0;
      var w2 := Reconciled(w1, c, again).0;
      RulesPlaced(WithLifecycle(w, r.lifecycleClock), c, r, again) ==>
        && AllDereferenceable(w.fi.spec.meshFaults)
        && (if InboundKept(w.fi.id, DesiredByTarget(w.fi.id, w.fi.spec.meshFaults), w.vss)
            then w2.vss == w1.vss && (w.fi.spec.podFaults == [] ==> w2 == w1)
            else w2.fi.status.phase == Error && w2.log == w1.log && w2.jobs == w1.jobs && w2.fi.status.ticks == w1.fi.status.ticks)
        && (w.fi.spec.podFaults == [] ==> w1.fi.status.phase == Running)
  {
    var l := WithLifecycle(w, r.lifecycleClock);
    if RulesPlaced(l, c, r, again) {
      var w0 := Injecting(l, c, r.order).0;
      var w1 := Reconciled(w, c, r).0;
      assert SameMesh(w0, w1) && (w.fi.spec.podFaults == [] ==> w1 == w0) by { ActiveMesh(l, c, r); }
      assert WithLifecycle(w1, again.lifecycleClock) == w1 by {
        LifecycleExact(w.fi.spec.durationSeconds, w.fi.status, r.lifecycleClock, again.lifecycleClock);
        SameLifecycle(l, w1, again.lifecycleClock);
      }
      InjectingAgain(l, w1, c, r.order, again.order);
      ActiveMesh(w1, c, again);
    }
  }

  /** Both reconciles come before expiry and accept the spec, and the first puts the rules
      in place. */
  ghost predicate RulesPlaced(l: World, c: Controller, r: Round, again: Round) {
    && Acceptable(l, r) && Acceptable(l, again) && AllDereferenceable(l.fi.spec.meshFaults)
    && Timed(l.fi.status) && r.now <= l.fi.status.expiresAt.value && again.now <= l.fi.status.expiresAt.value
    && Injecting(l, c, r.order).1 == NoFailure
    && var keys := DesiredByTarget(l.fi.id, l.fi.spec.meshFaults).Keys;
       Enumerates(r.order, keys) && Enumerates(again.order, keys)
  }

  /** An accepted reconcile: the mesh part, and then the pod part unless a target failed. */
  lemma ActiveMesh(w: World, c: Controller, r: Round)
    requires !w.fi.spec.cancel && AllDereferenceable(w.fi.spec.meshFaults)
    requires Timed(w.fi.status) && r.now <= w.fi.status.expiresAt.value && Acceptable(w, r)
    ensures var (w0, failure) := Injecting(w, c, r.order);
      var w1 := Deciding(w, c, r).0;
      && w1 == (if failure == NoFailure then Executing(w0, c, r, w.fi.status.expiresAt.value).0 else w0)
      && SameMesh(w0, w1) && (w.fi.spec.podFaults == [] ==> w1 == w0)
  {
    ExecutingSameMesh(Injecting(w, c, r.order).0, c, r, w.fi.status.expiresAt.value);
  }

  lemma InjectingAgain(w: World, w1: World, c: Controller, x: seq<string>, y: seq<string>)
    requires AllDereferenceable(w.fi.spec.meshFaults) && '/' !in w.fi.id.ns
    requires var keys := DesiredByTarget(w.fi.id, w.fi.spec.meshFaults).Keys; Enumerates(x, keys) && Enumerates(y, keys)
    requires Injecting(w, c, x).1 == NoFailure && SameMesh(Injecting(w, c, x).0, w1)
    ensures w1.fi.id == w.fi.id && w1.fi.spec == w.fi.spec
    ensures var (w2, failure) := Injecting(w1, c, y);
      if InboundKept(w.fi.id, DesiredByTarget(w.fi.id, w.fi.spec.meshFaults), w.vss)
      then failure == NoFailure && w2 == w1.WithPhase(Running) else failure != NoFailure && w2 == w1.(vss := w2.vss).WithPhase(Error)
  {
    SteadyStore(w.fi.id, w.fi.spec.meshFaults, w.vss, x, y, c.render);
    assert w1.vss - {} == w1.vss;
  }

  lemma SameLifecycle(l: World, w1: World, clock: int)
    requires l.fi.spec == w1.fi.spec && l.fi.status.startedAt == w1.fi.status.startedAt && l.fi.status.expiresAt == w1.fi.status.expiresAt
    requires AfterLifecycle(l.fi.spec.durationSeconds, l.fi.status, clock) == l.fi.status
    ensures WithLifecycle(w1, clock) == w1
  {
  }

  // ---------------------------------------------------------------- phase Error

  /** The plan books a failed Job, or is refused for want of pods, and the phase is
      written. */
  predicate Errs(w: World, snapshot: seq<Tick>, p: Plan, e: Surroundings) {
    var jobs := FinishJobs(w.jobs, e.finished);
    && !Skipped(snapshot, p) && e.getJobOk && e.phase != Refused
    && (if p.jobName in jobs then !jobs[p.jobName].complete && jobs[p.jobName].failed && e.executed == Ok
        else e.pods.Some? && Wrap32(|PodSelection.Candidates(e.pods.value)|) < p.refuseIfPodsLessThan)
  }

  /** The pass gets to plan k, and that one errs. */
  ghost predicate ErrsAt(w: World, snapshot: seq<Tick>, plans: seq<Plan>, now: int, holder: string, es: seq<Surroundings>, pending: bool, k: nat)
    requires |es| == |plans| && k < |plans|
  {
    var (w1, v) := Pass(w, snapshot, plans[..k], now, holder, es[..k], pending);
    v.Continue? && Errs(w1, snapshot, plans[k], es[k])
  }

  lemma StepErrs(w: World, snapshot: seq<Tick>, p: Plan, now: int, holder: string, e: Surroundings)
    requires w.fi.status.phase != Error
    ensures var (w1, v) := PlanStep(w, snapshot, p, now, holder, e);
      (w1.fi.status.phase == Error <==> Errs(w, snapshot, p, e)) && (Errs(w, snapshot, p, e) ==> !v.Continue?)
  {
    var w0 := w.(jobs := FinishJobs(w.jobs, e.finished));
    if !Skipped(snapshot, p) && e.getJobOk && p.jobName !in w0.jobs && e.pods.Some? {
      var selected := PodSelection.Select(PodSelection.Candidates(e.pods.value), p.count, p.percent, p.cap);
      Execution.LeaseAndJobEffect(w0, p, selected, now, holder, e);
      Execution.LeaseAndJobEffect(w0.WithTicks(RecordPlanned(w0.fi.status.ticks, PlanKey(p), p.jobName, selected, now)), p, selected, now, holder, e);
    }
  }

  lemma PassHead(w: World, snapshot: seq<Tick>, plans: seq<Plan>, now: int, holder: string, es: seq<Surroundings>, pending: bool, k: nat)
    requires |es| == |plans| && 0 < k <= |plans|
    ensures var (w1, v) := PlanStep(w, snapshot, plans[0], now, holder, es[0]);
      Pass(w, snapshot, plans[..k], now, holder, es[..k], pending)
      == if v.Continue? then Pass(w1, snapshot, plans[1..][..k - 1], now, holder, es[1..][..k - 1], pending || v.pending) else (w1, v)
  {
    assert plans[..k][0] == plans[0] && plans[..k][1..] == plans[1..][..k - 1];
    assert es[..k][0] == es[0] && es[..k][1..] == es[1..][..k - 1];
  }

  /** A pass enters phase Error exactly by a plan it gets to that errs. */
  lemma {:induction false} PassErrs(w: World, snapshot: seq<Tick>, plans: seq<Plan>, now: int, holder: string, es: seq<Surroundings>, pending: bool)
    requires |es| == |plans| && w.fi.status.phase != Error
    ensures Pass(w, snapshot, plans, now, holder, es, pending).0.fi.status.phase == Error
       <==> exists k :: 0 <= k < |plans| && ErrsAt(w, snapshot, plans, now, holder, es, pending, k)
    decreases plans
  {
    if plans != [] {
      var (w1, v) := PlanStep(w, snapshot, plans[0], now, holder, es[0]);
      StepErrs(w, snapshot, plans[0], now, holder, es[0]);
      assert ErrsAt(w, snapshot, plans, now, holder, es, pending, 0) <==> Errs(w, snapshot, plans[0], es[0]);
      var pending' := v.Continue? && (pending || v.pending);
      forall k | 0 < k < |plans|
        ensures ErrsAt(w, snapshot, plans, now, holder, es, pending, k)
           <==> v.Continue? && ErrsAt(w1, snapshot, plans[1..], now, holder, es[1..], pending', k - 1)
      {
        PassHead(w, snapshot, plans, now, holder, es, pending, k);
      }
      if v.Continue? {
        PassErrs(w1, snapshot, plans[1..], now, holder, es[1..], pending');
        ErrsLater(w, w1, snapshot, plans, now, holder, es, pending, pending');
      }
    }
  }

  lemma ErrsLater(w: World, w1: World, snapshot: seq<Tick>, plans: seq<Plan>, now: int, holder: string, es: seq<Surroundings>, pending: bool, pending': bool)
    requires |es| == |plans| && plans != [] && !ErrsAt(w, snapshot, plans, now, holder, es, pending, 0)
    requires forall k :: 0 < k < |plans| ==>
      (ErrsAt(w, snapshot, plans, now, holder, es, pending, k) <==> ErrsAt(w1, snapshot, plans[1..], now, holder, es[1..], pending', k - 1))
    ensures (exists k :: 0 <= k < |plans| && ErrsAt(w, snapshot, plans, now, holder, es, pending, k))
       <==> (exists k :: 0 <= k < |plans[1..]| && ErrsAt(w1, snapshot, plans[1..], now, holder, es[1..], pending', k))
  {
    if k :| 0 <= k < |plans[1..]| && ErrsAt(w1, snapshot, plans[1..], now, holder, es[1..], pending', k) {
      assert ErrsAt(w, snapshot, plans, now, holder, es, pending, k + 1);
    }
  }

  /** Some plan of the reconcile errs. */
  ghost predicate PodsErr(w: World, c: Controller, r: Round) {
    && w.fi.spec.podFaults != [] && w.fi.status.startedAt.Some?
    && var b := BuildPlans(c.hash, w.fi.id, w.fi.spec, r.now, w.fi.status.startedAt.value);
       b.ok && exists k :: 0 <= k < |b.plans| && ErrsAt(w, w.fi.status.ticks, b.plans, r.now, Holder(c), CallsFor(r, |b.plans|), false, k)
  }

  lemma ExecutingErrs(w: World, c: Controller, r: Round, expiresAt: int)
    requires w.fi.status.phase == Running
    ensures Executing(w, c, r, expiresAt).0.fi.status.phase == if PodsErr(w, c, r) then Error else Running
  {
    ExecutingSameMesh(w, c, r, expiresAt);
    if w.fi.spec.podFaults != [] && w.fi.status.startedAt.Some? {
      var b := BuildPlans(c.hash, w.fi.id, w.fi.spec, r.now, w.fi.status.startedAt.value);
      if b.ok { PassErrs(w, w.fi.status.ticks, b.plans, r.now, Holder(c), CallsFor(r, |b.plans|), false); }
    }
  }

  ghost predicate TargetsFit(id: Identity, actions: seq<MeshAction>, vss: Store, render: Render)
    requires AllDereferenceable(actions)
  {
    var desired := DesiredByTarget(id, actions);
    forall k :: k in desired ==> ApplyOne(id, Lookup(vss, SplitKey(k)), desired[k], render).Applied?
  }

  /** Error is no final phase. Whatever the phase was, an accepted and unexpired reconcile
      ends Running exactly when every target can take its rules and no plan it gets to
      books a failed Job or is refused; and otherwise in phase Error. */
  lemma ErrorIsLeft(w: World, c: Controller, r: Round)
    requires '/' !in w.fi.id.ns && !w.fi.spec.cancel && AllDereferenceable(w.fi.spec.meshFaults)
    requires Enumerates(r.order, DesiredByTarget(w.fi.id, w.fi.spec.meshFaults).Keys)
    requires var l := WithLifecycle(w, r.lifecycleClock);
      Timed(l.fi.status) && r.now <= l.fi.status.expiresAt.value && Acceptable(l, r)
    ensures var w1 := Reconciled(w, c, r).0;
      var injected := Injecting(WithLifecycle(w, r.lifecycleClock), c, r.order).0;
      w1.fi.status.phase
      == if TargetsFit(w.fi.id, w.fi.spec.meshFaults, w.vss, c.render) && !PodsErr(injected, c, r) then Running else Error
  {
    var l := WithLifecycle(w, r.lifecycleClock);
    var (w0, failure) := Injecting(l, c, r.order);
    ActiveMesh(l, c, r);
    assert failure == NoFailure <==> TargetsFit(w.fi.id, w.fi.spec.meshFaults, w.vss, c.render) by {
      FitIsNoFailure(w.fi.id, w.fi.spec.meshFaults, w.vss, r.order, c.render);
    }
    if failure == NoFailure { ExecutingErrs(w0, c, r, l.fi.status.expiresAt.value); }
  }

  lemma FitIsNoFailure(id: Identity, actions: seq<MeshAction>, vss: Store, order: seq<string>, render: Render)
    requires AllDereferenceable(actions) && '/' !in id.ns && Enumerates(order, DesiredByTarget(id, actions).Keys)
    ensures ApplyAll(id, vss, DesiredByTarget(id, actions), order, render).1 == NoFailure <==> TargetsFit(id, actions, vss, render)
  {
    TargetsDistinct(id, actions, order);
    VisitPointwise(vss, order, EffectOf(id, DesiredByTarget(id, actions), render));
  }
}
