/** Reconcile: one pass of the controller over an experiment, from its lifecycle to the
    next wake-up. API calls of the mesh part and of cleanup succeed; those of the pod
    part may fail in any way. */
module Reconciler {
  import opened Wrappers
  import opened Machine
  import Helpers
  import opened Api
  import opened VirtualServices
  import opened Cluster
  import opened Mesh
  import opened Validation
  import opened Targets
  import Ticks
  import opened Protocol
  import opened Lifecycle
  import opened Cleanup
  import LeaseProtocol

  /** What stays the same from one reconcile to the next. */
  datatype Controller = Controller(hash: Helpers.Hash, render: Render, identity: string)

  /** What one reconcile meets: the clock where the code reads it, the pods counted, the
      order a Go map is visited in, and how the calls of the i-th plan go. */
  datatype Round = Round(
    now: int,
    lifecycleClock: int,
    meshCounts: PodCounts,
    podCounts: PodCounts,
    order: seq<string>,
    calls: nat -> Surroundings,
    c1: int, c2: int, c3: int)

  /** ctrl.Result; Retry is a returned error. */
  datatype Answer = Done | Again | After(delay: int) | Retry

  // ---------------------------------------------------------------- the steps, on values

  function WithLifecycle(w: World, clock: int): World {
    w.(fi := w.fi.(status := AfterLifecycle(w.fi.spec.durationSeconds, w.fi.status, clock)))
  }

  function Cancelling(w: World, now: int, render: Render): World {
    if w.fi.status.phase in {Cancelled, Completed} then w
    else
      var w1 := Cleaned(w, render);
      var at := if w1.fi.status.cancelledAt.Some? then w1.fi.status.cancelledAt else Some(StoredTime(now));
      w1.(fi := w1.fi.(status := w1.fi.status.(phase := Cancelled, cancelledAt := at)))
  }

  /** Rules in place, orphans gone, phase Running; or phase Error and what was patched
      before the failing target left as it is. */
  function Injecting(w: World, c: Controller, order: seq<string>): (World, Failure)
    requires AllDereferenceable(w.fi.spec.meshFaults)
  {
    var id, actions := w.fi.id, w.fi.spec.meshFaults;
    var (vss, failure) := ApplyAll(id, w.vss, DesiredByTarget(id, actions), order, c.render);
    if failure != NoFailure then (w.(vss := vss).WithPhase(Error), failure)
    else (w.(vss := vss - Orphans(id, vss, ManagedKeys(id, actions))).WithPhase(Running), failure)
  }

  function Holder(c: Controller): string { LeaseProtocol.HolderName(c.identity) }

  function CallsFor(r: Round, n: nat): (es: seq<Surroundings>)
    ensures |es| == n
  {
    seq(n, i requires 0 <= i < n => r.calls(i))
  }

  function Executing(w: World, c: Controller, r: Round, expiresAt: int): (World, Answer) {
    if w.fi.spec.podFaults == [] || w.fi.status.startedAt.None? then (w, After(RequeueAfter(expiresAt, None, r.c1, r.c2, r.c3)))
    else
      var b := Ticks.BuildPlans(c.hash, w.fi.id, w.fi.spec, r.now, w.fi.status.startedAt.value);
      if !b.ok then (w, Retry)
      else
        var (w1, v) := Pass(w, w.fi.status.ticks, b.plans, r.now, Holder(c), CallsFor(r, |b.plans|), false);
        match v
        case Stop => (w1, Done)
        case Fail => (w1, Retry)
        case Continue(pending) => (w1, After(RequeueAfter(expiresAt, NextDue(b.earliestDue, pending, r.now), r.c1, r.c2, r.c3)))
  }

  predicate Timed(st: Status) { st.startedAt.Some? && st.expiresAt.Some? }

  predicate Acceptable(w: World, r: Round) {
    ValidSpec(w.fi.id, w.fi.spec, r.meshCounts, r.podCounts)
  }

  function Active(w: World, c: Controller, r: Round): (World, Answer)
    requires Timed(w.fi.status) && Acceptable(w, r)
  {
    ValidDereferenceable(w.fi.spec, r.meshCounts);
    var (w1, failure) := Injecting(w, c, r.order);
    if failure == MissingTarget then (w1, Retry)
    else if failure == UnsafeTarget then (w1, Done)
    else Executing(w1, c, r, w.fi.status.expiresAt.value)
  }

  /** Reconcile after the lifecycle write. */
  function Deciding(w: World, c: Controller, r: Round): (World, Answer) {
    if w.fi.spec.cancel then (Cancelling(w, r.now, c.render), Done)
    else if !Timed(w.fi.status) then (w, if EnsureLifecycle(w.fi.spec.durationSeconds, w.fi.status, r.now).1 then Again else Done)
    else if r.now > w.fi.status.expiresAt.value then (Cleaned(w, c.render).WithPhase(Completed), Done)
    else if !Acceptable(w, r) then (Cleaned(w, c.render).WithPhase(Error), Done)
    else Active(w, c, r)
  }

  function Reconciled(w: World, c: Controller, r: Round): (World, Answer) {
    Deciding(WithLifecycle(w, r.lifecycleClock), c, r)
  }

  // ---------------------------------------------------------------- the code on the store

  method SetPhase(s: Server, phase: Phase)
    modifies s`fi
    ensures s.Snapshot() == old(s.Snapshot()).WithPhase(phase)
  {
    s.fi := s.fi.(status := s.fi.status.(phase := phase));
  }

  method HandleCancellation(s: Server, now: int, render: Render)
    modifies s
    ensures s.Snapshot() == Cancelling(old(s.Snapshot()), now, render)
  {
    if s.fi.status.phase == Cancelled || s.fi.status.phase == Completed { return; }
    CleanupAll(s, render);
    var latest := s.fi.status.(phase := Cancelled);
    if latest.cancelledAt.None? {
      latest := latest.(cancelledAt := Some(StoredTime(now)));
    }
    s.fi := s.fi.(status := latest);
  }

  method HandleExpiry(s: Server, render: Render)
    modifies s
    ensures s.Snapshot() == Cleaned(old(s.Snapshot()), render).WithPhase(Completed)
  {
    CleanupAll(s, render);
    SetPhase(s, Completed);
  }

  method HandleValidationError(s: Server, render: Render)
    modifies s
    ensures s.Snapshot() == Cleaned(old(s.Snapshot()), render).WithPhase(Error)
  {
    CleanupAll(s, render);
    SetPhase(s, Error);
  }

  method MarkRunning(s: Server)
    modifies s`fi
    ensures s.Snapshot() == old(s.Snapshot()).WithPhase(Running)
  {
    if s.fi.status.phase == Running { return; }
    SetPhase(s, Running);
  }

  method InjectMeshFaults(s: Server, c: Controller) returns (failure: Failure, ghost order: seq<string>)
    requires AllDereferenceable(s.fi.spec.meshFaults)
    modifies s
    ensures Enumerates(order, DesiredByTarget(old(s.fi.id), old(s.fi.spec.meshFaults)).Keys)
    ensures (s.Snapshot(), failure) == Injecting(old(s.Snapshot()), c, order)
  {
    var desired, managed := BuildDesiredByVSTarget(s.fi.id, s.fi.spec.meshFaults);
    failure, order := ApplyDesiredTargets(s, desired, c.render);
    if failure != NoFailure {
      SetPhase(s, Error);
      return;
    }
    CleanupOrphanedManagedVS(s, managed);
    MarkRunning(s);
  }

  method ApplyPodFaults(s: Server, c: Controller, r: Round, expiresAt: int) returns (answer: Answer)
    modifies s
    ensures (s.Snapshot(), answer) == Executing(old(s.Snapshot()), c, r, expiresAt)
  {
    var nextDue: Option<int> := None;
    if s.fi.spec.podFaults != [] && s.fi.status.startedAt.Some? {
      var built := Ticks.BuildPodFaultPlans(c.hash, s.fi.id, s.fi.spec, r.now, s.fi.status.startedAt.value);
      if !built.ok { return Retry; }
      var v := ApplyPlans(s, built.plans, r.now, c.identity, CallsFor(r, |built.plans|));
      match v {
        case Stop => return Done;
        case Fail => return Retry;
        case Continue(pending) =>
          nextDue := built.earliestDue;
          if pending {
            var soon := r.now + RECHECK;
            if nextDue.None? || soon < nextDue.value { nextDue := Some(soon); }
          }
      }
    }
    var delay := ComputeRequeue(expiresAt, nextDue, r.c1, r.c2, r.c3);
    return After(delay);
  }

  method Reconcile(s: Server, c: Controller, r: Round) returns (answer: Answer, ghost order: seq<string>)
    modifies s
    ensures (s.Snapshot(), answer) == Reconciled(old(s.Snapshot()), c, r.(order := order))
  {
    order := [];
    PersistLifecycle(s, r.lifecycleClock);
    if s.fi.spec.cancel {
      HandleCancellation(s, r.now, c.render);
      return Done, order;
    }
    if s.fi.status.expiresAt.None? || s.fi.status.startedAt.None? {
      var (_, changed) := EnsureLifecycle(s.fi.spec.durationSeconds, s.fi.status, r.now);
      return if changed then Again else Done, order;
    }
    var expiresAt := s.fi.status.expiresAt.value;
    if r.now > expiresAt {
      HandleExpiry(s, c.render);
      return Done, order;
    }
    var ok := ValidateSpec(s.fi.id, s.fi.spec, r.meshCounts, r.podCounts);
    if !ok {
      HandleValidationError(s, c.render);
      return Done, order;
    }
    ValidDereferenceable(s.fi.spec, r.meshCounts);
    var failure;
    failure, order := InjectMeshFaults(s, c);
    if failure == MissingTarget { return Retry, order; }
    if failure == UnsafeTarget { return Done, order; }
    answer := ApplyPodFaults(s, c, r, expiresAt);
  }
}
