/** validateSpec and validatePodFaults: the guardrails checked before anything is injected. */
module Validation {
  import opened Wrappers
  import opened Machine
  import opened Names
  import opened Helpers
  import opened Api
  import Mesh
  import opened Ticks

  /** Answer of countPods for the i-th action of a list; None when listing fails. */
  type PodCounts = nat -> Option<nat>

  /** One mesh action; `matching` counts the pods with its source labels. */
  predicate ValidMeshAction(spec: Spec, a: MeshAction, matching: Option<nat>) {
    && a.percent <= spec.maxTrafficPercent
    && (if a.kind == HTTP_LATENCY then a.fixedDelaySeconds.Some? && a.fixedDelaySeconds.value > 0
        else a.kind == HTTP_ABORT && a.abortStatus.Some? && a.abortStatus.value >= 100)
    && (forall m :: m in a.routes ==> TrimSpace(m.uriPrefix) != "" || TrimSpace(m.uriExact) != "")
    && (if a.direction == INBOUND then a.virtualServiceRef.Some? && TrimSpace(a.virtualServiceRef.value) != ""
        else a.direction == OUTBOUND && a.destinationHosts != [])
    && (spec.maxPodsAffected > 0 ==> a.sourceLabels != map[] && matching.Some? && matching.value <= spec.maxPodsAffected)
  }

  /** One pod action; `matching` counts the pods its selector matches, which the code
      narrows to 32 bits. */
  predicate ValidPodAction(id: Identity, a: PodAction, matching: Option<nat>) {
    && TrimSpace(a.targetNamespace) in {"", id.ns}
    && (if IsWindowed(a) then a.window.Some? && a.window.value.intervalSeconds >= 1 && a.window.value.maxTotalPodsAffected >= 1
        else a.window.None?)
    && ValidSelection(a.selection)
    && (a.terminationMode == FORCEFUL ==> a.gracePeriodSeconds == 0)
    && (a.terminationMode == GRACEFUL ==> a.gracePeriodSeconds > 0)
    && a.refuseIfPodsLessThan >= 1
    && matching.Some? && Wrap32(matching.value) >= a.refuseIfPodsLessThan
  }

  predicate MeshValid(spec: Spec, counts: PodCounts) {
    forall i :: 0 <= i < |spec.meshFaults| ==> ValidMeshAction(spec, spec.meshFaults[i], counts(i))
  }

  predicate PodsValid(id: Identity, spec: Spec, counts: PodCounts) {
    forall i :: 0 <= i < |spec.podFaults| ==> ValidPodAction(id, spec.podFaults[i], counts(i))
  }

  predicate ValidSpec(id: Identity, spec: Spec, meshCounts: PodCounts, podCounts: PodCounts) {
    spec.durationSeconds > 0 && MeshValid(spec, meshCounts) && PodsValid(id, spec, podCounts)
  }

  method ValidateSpec(id: Identity, spec: Spec, meshCounts: PodCounts, podCounts: PodCounts) returns (ok: bool)
    ensures ok <==> ValidSpec(id, spec, meshCounts, podCounts)
  {
    if spec.durationSeconds <= 0 { return false; }
    for i := 0 to |spec.meshFaults|
      invariant forall j :: 0 <= j < i ==> ValidMeshAction(spec, spec.meshFaults[j], meshCounts(j))
    {
      var a := spec.meshFaults[i];
      if a.percent > spec.maxTrafficPercent { return false; }
      if a.kind == HTTP_LATENCY {
        if a.fixedDelaySeconds.None? || a.fixedDelaySeconds.value <= 0 { return false; }
      } else if a.kind == HTTP_ABORT {
        if a.abortStatus.None? || a.abortStatus.value < 100 { return false; }
      } else {
        return false;
      }
      for j := 0 to |a.routes|
        invariant forall m :: m in a.routes[..j] ==> TrimSpace(m.uriPrefix) != "" || TrimSpace(m.uriExact) != ""
      {
        var m := a.routes[j];
        assert m in a.routes;
        if TrimSpace(m.uriPrefix) == "" && TrimSpace(m.uriExact) == "" { return false; }
      }
      assert a.routes[..|a.routes|] == a.routes;
      if a.direction == INBOUND {
        if a.virtualServiceRef.None? || TrimSpace(a.virtualServiceRef.value) == "" { return false; }
      } else if a.direction == OUTBOUND {
        if a.destinationHosts == [] { return false; }
      } else {
        return false;
      }
      if spec.maxPodsAffected > 0 {
        if a.sourceLabels == map[] { return false; }
        var n := meshCounts(i);
        if n.None? || n.value > spec.maxPodsAffected { return false; }
      }
    }
    ok := ValidatePodFaults(id, spec, podCounts);
  }

  method ValidatePodFaults(id: Identity, spec: Spec, counts: PodCounts) returns (ok: bool)
    ensures ok <==> PodsValid(id, spec, counts)
  {
    for i := 0 to |spec.podFaults|
      invariant forall j :: 0 <= j < i ==> ValidPodAction(id, spec.podFaults[j], counts(j))
    {
      var a := spec.podFaults[i];
      var ns := TrimSpace(a.targetNamespace);
      if ns != "" && ns != id.ns { return false; }
      if ResolveMode(a) == WINDOWED {
        if a.window.None? || a.window.value.intervalSeconds < 1 || a.window.value.maxTotalPodsAffected < 1 { return false; }
      } else if a.window.Some? {
        return false;
      }
      if !ValidSelection(a.selection) { return false; }
      if a.terminationMode == FORCEFUL && a.gracePeriodSeconds != 0 { return false; }
      if a.terminationMode == GRACEFUL && a.gracePeriodSeconds <= 0 { return false; }
      if a.refuseIfPodsLessThan < 1 { return false; }
      var n := counts(i);
      if n.None? || Wrap32(n.value) < a.refuseIfPodsLessThan { return false; }
    }
    return true;
  }

  // ---------------------------------------------------------------- what validation buys

  /** No pointer the mesh code follows is nil, whatever the action. */
  lemma ValidDereferenceable(spec: Spec, counts: PodCounts)
    requires MeshValid(spec, counts)
    ensures Mesh.AllDereferenceable(spec.meshFaults)
  {
    forall a | a in spec.meshFaults ensures Mesh.Dereferenceable(a) {
      var i :| 0 <= i < |spec.meshFaults| && spec.meshFaults[i] == a;
      assert ValidMeshAction(spec, spec.meshFaults[i], counts(i));
    }
  }

  /** The plans of a validated spec can fail to be built only over a hash: they are built
      exactly when every name that is due now fits, or its hashes can be cut. */
  lemma ValidPlansBuilt(h: Hash, id: Identity, spec: Spec, counts: PodCounts, now: int, startedAt: int)
    requires PodsValid(id, spec, counts)
    ensures BuildPlans(h, id, spec, now, startedAt).ok
       <==> forall a :: a in spec.podFaults ==> NameableNow(h, id, a, now, startedAt)
  {
    forall a | a in spec.podFaults
      ensures Contribute(h, id, spec, a, now, startedAt).Accepted? <==> NameableNow(h, id, a, now, startedAt)
    {
      var i :| 0 <= i < |spec.podFaults| && spec.podFaults[i] == a;
      assert ValidPodAction(id, spec.podFaults[i], counts(i));
      var t := DueTick(a, now, startedAt);
      if t.Some? { PodFaultNameDefined(h, id, a.name, t.value); }
    }
    BuiltWhenAccepted(h, id, spec, spec.podFaults, now, startedAt, Built(true, [], None));
  }

  predicate NameableNow(h: Hash, id: Identity, a: PodAction, now: int, startedAt: int) {
    var t := DueTick(a, now, startedAt);
    t.Some? ==> Nameable(h, id, a.name, t.value)
  }

  lemma {:induction false} BuiltWhenAccepted(h: Hash, id: Identity, spec: Spec, actions: seq<PodAction>, now: int, startedAt: int, acc: Built)
    requires acc.ok
    ensures BuildFrom(h, id, spec, actions, now, startedAt, acc).ok
       <==> forall a :: a in actions ==> Contribute(h, id, spec, a, now, startedAt).Accepted?
    decreases actions
  {
    if actions != [] {
      var c := Contribute(h, id, spec, actions[0], now, startedAt);
      assert actions == [actions[0]] + actions[1..];
      if c.Accepted? {
        BuiltWhenAccepted(h, id, spec, actions[1..], now, startedAt,
                          Built(true, if c.plan.Some? then acc.plans + [c.plan.value] else acc.plans, Earlier(acc.earliestDue, c.due)));
      }
    }
  }
}
