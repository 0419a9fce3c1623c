/** The guardrails one by one, each on the spec's own fields, and what a reconcile does
    about a spec that breaks one. */
module Guardrails {
  import opened Wrappers
  import opened Machine
  import opened Helpers
  import opened Names
  import opened Api
  import opened VirtualServices
  import opened Cluster
  import opened Mesh
  import opened Validation
  import opened Targets
  import opened Protocol
  import opened Cleanup
  import opened Reconciler
  import Experiment
  import LeaseProtocol

  // ---------------------------------------------------------------- one by one

  datatype MeshBreach =
    | TooMuchTraffic | UnknownFault | NoDelay | NoStatus | NoPath
    | UnknownDirection | NoVirtualService | NoHosts
    | NoLabels | Uncounted | TooManyPods

  /** What can be wrong with a mesh action; `matching` pods have its source labels. */
  predicate MeshBreaks(b: MeshBreach, spec: Spec, a: MeshAction, matching: Option<nat>) {
    match b
    case TooMuchTraffic => a.percent > spec.maxTrafficPercent
    case UnknownFault => a.kind !in {HTTP_LATENCY, HTTP_ABORT}
    case NoDelay => a.kind == HTTP_LATENCY && (a.fixedDelaySeconds.Some? ==> a.fixedDelaySeconds.value < 1)
    case NoStatus => a.kind == HTTP_ABORT && (a.abortStatus.Some? ==> a.abortStatus.value < 100)
    case NoPath => exists m :: m in a.routes && TrimSpace(m.uriPrefix) == "" && TrimSpace(m.uriExact) == ""
    case UnknownDirection => a.direction !in {INBOUND, OUTBOUND}
    case NoVirtualService => a.direction == INBOUND && (a.virtualServiceRef.Some? ==> TrimSpace(a.virtualServiceRef.value) == "")
    case NoHosts => a.direction == OUTBOUND && a.destinationHosts == []
    case NoLabels => spec.maxPodsAffected > 0 && a.sourceLabels == map[]
    case Uncounted => spec.maxPodsAffected > 0 && matching.None?
    case TooManyPods => spec.maxPodsAffected > 0 && matching.Some? && matching.value > spec.maxPodsAffected
  }

  datatype PodBreach =
    | ForeignNamespace | NoWindow | NoInterval | NoTotal | StrayWindow
    | UnknownSelection | NoCount | NoPercent | ForcefulWithGrace | GracefulWithoutGrace
    | NoFloor | Uncountable | TooFewPods

  /** The action has executionMode WINDOWED; without a mode it is ONE_SHOT. */
  predicate SaysWindowed(a: PodAction) { a.executionMode == Some(WINDOWED) }

  /** What can be wrong with a pod action; its selector matches `matching` pods, of which
      the code keeps the lower 32 bits. */
  predicate PodBreaks(b: PodBreach, id: Identity, a: PodAction, matching: Option<nat>) {
    match b
    case ForeignNamespace => TrimSpace(a.targetNamespace) !in {"", id.ns}
    case NoWindow => SaysWindowed(a) && a.window.None?
    case NoInterval => SaysWindowed(a) && a.window.Some? && a.window.value.intervalSeconds < 1
    case NoTotal => SaysWindowed(a) && a.window.Some? && a.window.value.maxTotalPodsAffected < 1
    case StrayWindow => !SaysWindowed(a) && a.window.Some?
    case UnknownSelection => a.selection.mode !in {COUNT, PERCENT}
    case NoCount => a.selection.mode == COUNT && (a.selection.count.Some? ==> a.selection.count.value < 1)
    case NoPercent => a.selection.mode == PERCENT && (a.selection.percent.Some? ==> !(1 <= a.selection.percent.value <= 100))
    case ForcefulWithGrace => a.terminationMode == FORCEFUL && a.gracePeriodSeconds != 0
    case GracefulWithoutGrace => a.terminationMode == GRACEFUL && a.gracePeriodSeconds < 1
    case NoFloor => a.refuseIfPodsLessThan < 1
    case Uncountable => matching.None?
    case TooFewPods => matching.Some? && Wrap32(matching.value) < a.refuseIfPodsLessThan
  }

  /** A guardrail, and the action that breaks it. */
  datatype Breach = NoDuration | OfMesh(i: nat, mesh: MeshBreach) | OfPods(i: nat, pods: PodBreach)

  predicate Breaks(b: Breach, id: Identity, spec: Spec, meshCounts: PodCounts, podCounts: PodCounts) {
    match b
    case NoDuration => spec.durationSeconds < 1
    case OfMesh(i, m) => i < |spec.meshFaults| && MeshBreaks(m, spec, spec.meshFaults[i], meshCounts(i))
    case OfPods(i, p) => i < |spec.podFaults| && PodBreaks(p, id, spec.podFaults[i], podCounts(i))
  }

  /** Some guardrail is broken. */
  ghost predicate Unsound(id: Identity, spec: Spec, meshCounts: PodCounts, podCounts: PodCounts) {
    exists b :: Breaks(b, id, spec, meshCounts, podCounts)
  }

  lemma MeshActionExact(spec: Spec, a: MeshAction, matching: Option<nat>)
    ensures ValidMeshAction(spec, a, matching) <==> forall b :: !MeshBreaks(b, spec, a, matching)
  {
    if forall b :: !MeshBreaks(b, spec, a, matching) {
      assert !MeshBreaks(TooMuchTraffic, spec, a, matching) && !MeshBreaks(UnknownFault, spec, a, matching);
      assert !MeshBreaks(NoDelay, spec, a, matching) && !MeshBreaks(NoStatus, spec, a, matching) && !MeshBreaks(NoPath, spec, a, matching);
      assert !MeshBreaks(UnknownDirection, spec, a, matching) && !MeshBreaks(NoVirtualService, spec, a, matching) && !MeshBreaks(NoHosts, spec, a, matching);
      assert !MeshBreaks(NoLabels, spec, a, matching) && !MeshBreaks(Uncounted, spec, a, matching) && !MeshBreaks(TooManyPods, spec, a, matching);
    }
  }

  lemma PodActionExact(id: Identity, a: PodAction, matching: Option<nat>)
    ensures ValidPodAction(id, a, matching) <==> forall b :: !PodBreaks(b, id, a, matching)
  {
    if forall b :: !PodBreaks(b, id, a, matching) {
      assert !PodBreaks(ForeignNamespace, id, a, matching) && !PodBreaks(NoWindow, id, a, matching) && !PodBreaks(NoInterval, id, a, matching);
      assert !PodBreaks(NoTotal, id, a, matching) && !PodBreaks(StrayWindow, id, a, matching);
      assert !PodBreaks(UnknownSelection, id, a, matching) && !PodBreaks(NoCount, id, a, matching) && !PodBreaks(NoPercent, id, a, matching);
      assert !PodBreaks(ForcefulWithGrace, id, a, matching) && !PodBreaks(GracefulWithoutGrace, id, a, matching);
      assert !PodBreaks(NoFloor, id, a, matching) && !PodBreaks(Uncountable, id, a, matching) && !PodBreaks(TooFewPods, id, a, matching);
    }
  }

  /** A spec is let through exactly when it breaks no guardrail. */
  lemma ValidIsUnbroken(id: Identity, spec: Spec, meshCounts: PodCounts, podCounts: PodCounts)
    ensures ValidSpec(id, spec, meshCounts, podCounts) <==> !Unsound(id, spec, meshCounts, podCounts)
  {
    forall i | 0 <= i < |spec.meshFaults|
      ensures ValidMeshAction(spec, spec.meshFaults[i], meshCounts(i)) <==> forall m :: !Breaks(OfMesh(i, m), id, spec, meshCounts, podCounts)
    {
      MeshActionExact(spec, spec.meshFaults[i], meshCounts(i));
      assert forall m :: Breaks(OfMesh(i, m), id, spec, meshCounts, podCounts) <==> MeshBreaks(m, spec, spec.meshFaults[i], meshCounts(i));
    }
    forall i | 0 <= i < |spec.podFaults|
      ensures ValidPodAction(id, spec.podFaults[i], podCounts(i)) <==> forall p :: !Breaks(OfPods(i, p), id, spec, meshCounts, podCounts)
    {
      PodActionExact(id, spec.podFaults[i], podCounts(i));
      assert forall p :: Breaks(OfPods(i, p), id, spec, meshCounts, podCounts) <==> PodBreaks(p, id, spec.podFaults[i], podCounts(i));
    }
    assert Breaks(NoDuration, id, spec, meshCounts, podCounts) <==> spec.durationSeconds < 1;
  }

  // ---------------------------------------------------------------- in a reconcile

  /** Not cancelled, and not expired at the reconcile. */
  predicate Ongoing(w: World, r: Round) {
    var st := WithLifecycle(w, r.lifecycleClock).fi.status;
    !w.fi.spec.cancel && Timed(st) && r.now <= st.expiresAt.value
  }

  /** No rule of the experiment is new anywhere. */
  ghost predicate NoNewRule(id: Identity, vss: Store, vss1: Store) {
    forall p, v :: p in vss1 && v in HttpOf(vss1[p].spec) && Own(PrefixOf(id.name), v) ==> p in vss && v in HttpOf(vss[p].spec)
  }

  /** The reconcile put a rule in place, created a Job or claimed a Lease. */
  ghost predicate Acted(w: World, w1: World) {
    !NoNewRule(w.fi.id, w.vss, w1.vss) || w1.log != w.log || !(w1.jobs.Keys <= w.jobs.Keys) || !(w1.leases.Keys <= w.leases.Keys)
  }

  lemma CleanedNoNewRule(w: World, render: Render)
    ensures NoNewRule(w.fi.id, w.vss, Cleaned(w, render).vss)
  {
    forall p | p in w.vss ensures forall v :: v in HttpOf(Scrubbed(w.fi.id, w.vss[p], render).spec) ==> v in HttpOf(w.vss[p].spec) {
      WithoutMembers(PrefixOf(w.fi.id.name), HttpOf(w.vss[p].spec));
    }
  }

  lemma CleanedDoesNotAct(w: World, render: Render)
    ensures !Acted(w, Cleaned(w, render))
  {
    CleanedNoNewRule(w, render);
  }

  /** Cancelled, untimed, expired or rejected, a reconcile only cleans up. */
  lemma OtherwiseDoesNotAct(l: World, c: Controller, r: Round)
    requires l.fi.spec.cancel || !Timed(l.fi.status) || r.now > l.fi.status.expiresAt.value || !Acceptable(l, r)
    ensures !Acted(l, Deciding(l, c, r).0)
  {
    CleanedDoesNotAct(l, c.render);
  }

  /** Whatever a reconcile does to inject faults, it does under every guardrail. */
  lemma ActsUnderGuardrails(w: World, c: Controller, r: Round)
    ensures Acted(w, Reconciled(w, c, r).0) ==> Ongoing(w, r) && forall b :: !Breaks(b, w.fi.id, w.fi.spec, r.meshCounts, r.podCounts)
  {
    var l := WithLifecycle(w, r.lifecycleClock);
    ValidIsUnbroken(w.fi.id, w.fi.spec, r.meshCounts, r.podCounts);
    if !(Ongoing(w, r) && Acceptable(l, r)) { OtherwiseDoesNotAct(l, c, r); }
  }

  /** So with blastRadius.maxPodsAffected set, no action ever acts on more pods' traffic, nor
      on traffic that no labels narrow. */
  lemma MeshBlastBounded(w: World, c: Controller, r: Round, i: nat)
    requires Acted(w, Reconciled(w, c, r).0) && i < |w.fi.spec.meshFaults| && w.fi.spec.maxPodsAffected > 0
    ensures w.fi.spec.meshFaults[i].sourceLabels != map[]
    ensures r.meshCounts(i).Some? && r.meshCounts(i).value <= w.fi.spec.maxPodsAffected
  {
    ActsUnderGuardrails(w, c, r);
    UnbrokenIsBounded(w.fi.id, w.fi.spec, r.meshCounts, r.podCounts, i);
  }

  lemma UnbrokenIsBounded(id: Identity, spec: Spec, meshCounts: PodCounts, podCounts: PodCounts, i: nat)
    requires i < |spec.meshFaults| && spec.maxPodsAffected > 0 && forall b :: !Breaks(b, id, spec, meshCounts, podCounts)
    ensures spec.meshFaults[i].sourceLabels != map[] && meshCounts(i).Some? && meshCounts(i).value <= spec.maxPodsAffected
  {
    assert !Breaks(OfMesh(i, NoLabels), id, spec, meshCounts, podCounts);
    assert !Breaks(OfMesh(i, Uncounted), id, spec, meshCounts, podCounts);
    assert !Breaks(OfMesh(i, TooManyPods), id, spec, meshCounts, podCounts);
  }

  /** The labels name the experiment, and, if it has one, its uid: an earlier experiment of
      the same name had another. */
  predicate Bears(id: Identity, labels: LeaseProtocol.Owner) {
    labels.fi == id.name && (id.uid == "" || labels.uid == id.uid)
  }

  /** And a spec that breaks any guardrail, be it only that one, leads to cleanup and phase
      Error: no rule or Job is new, every Job and Lease of the experiment is gone, and
      within reach of the spec and the labels every rule is. */
  lemma BreachIsCleanedUp(w: World, c: Controller, r: Round, b: Breach)
    requires Ongoing(w, r) && Breaks(b, w.fi.id, w.fi.spec, r.meshCounts, r.podCounts)
    ensures var (w1, answer) := Reconciled(w, c, r);
      && w1.fi.status.phase == Error && answer == Done && !Acted(w, w1)
      && w1.fi.spec == w.fi.spec && w1.fi.status.ticks == w.fi.status.ticks
      && (forall n :: n in w1.jobs <==> n in w.jobs && !Bears(w.fi.id, w.jobs[n].owner))
      && (forall n :: n in w1.leases <==> n in w.leases && !Bears(w.fi.id, w.leases[n].owner))
      && ('/' !in w.fi.id.ns && SeesRemovals(c.render) && Reachable(w.fi.id, w.fi.spec.meshFaults, w.vss) ==> Clean(w1))
  {
    var l := WithLifecycle(w, r.lifecycleClock);
    BreachIsRejected(w, c, r, b);
    CleanedDoesNotAct(l, c.render);
    if '/' !in w.fi.id.ns && SeesRemovals(c.render) { CleanupExact(l, c.render); }
  }

  lemma BreachIsRejected(w: World, c: Controller, r: Round, b: Breach)
    requires Ongoing(w, r) && Breaks(b, w.fi.id, w.fi.spec, r.meshCounts, r.podCounts)
    ensures Reconciled(w, c, r) == (Cleaned(WithLifecycle(w, r.lifecycleClock), c.render).WithPhase(Error), Done)
  {
    assert Unsound(w.fi.id, w.fi.spec, r.meshCounts, r.podCounts);
    ValidIsUnbroken(w.fi.id, w.fi.spec, r.meshCounts, r.podCounts);
  }

  /** A spec that breaks none is not cleaned up: its rules are in place, its phase is
      Running or Error, unless a target does not take them. */
  lemma UnbrokenIsInjected(w: World, c: Controller, r: Round)
    requires Ongoing(w, r) && forall b :: !Breaks(b, w.fi.id, w.fi.spec, r.meshCounts, r.podCounts)
    ensures AllDereferenceable(w.fi.spec.meshFaults)
    ensures var (w0, failure) := Injecting(WithLifecycle(w, r.lifecycleClock), c, r.order);
      Reconciled(w, c, r).0.vss == w0.vss && (failure == NoFailure ==> w0.fi.status.phase == Running)
  {
    var l := WithLifecycle(w, r.lifecycleClock);
    assert !Unsound(w.fi.id, w.fi.spec, r.meshCounts, r.podCounts);
    ValidIsUnbroken(w.fi.id, w.fi.spec, r.meshCounts, r.podCounts);
    ValidDereferenceable(w.fi.spec, r.meshCounts);
    Experiment.ActiveMesh(l, c, r);
  }
}
