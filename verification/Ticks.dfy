/** pod_fault.go: from the clock to ticks, plans and the next boundary. */
module Ticks {
  import opened Wrappers
  import opened Machine
  import opened Helpers
  import opened Names
  import opened Api
  import opened PodSelection

  // ---------------------------------------------------------------- one window

  datatype WindowTick = Invalid | NotYet(next: int) | Due(index: nat, next: int)

  /** Go's integer division, on operands it agrees with Dafny's on. */
  function Quotient(e: nat, i: int): (q: nat)
    requires i > 0
    ensures q * i <= e < (q + 1) * i
  {
    DivisionBounds(e, i);
    e / i
  }

  function Elapsed(now: int, startedAt: int): nat {
    if now < startedAt then 0 else if now - startedAt > MAX_INT64 then MAX_INT64 else now - startedAt
  }

  /** computeWindowedTick: `Sub` saturates and the multiplication wraps at 64 bits. */
  function ComputeWindowedTick(w: Option<Window>, now: int, startedAt: int): WindowTick {
    if w.None? then Invalid
    else
      var interval := Seconds(w.value.intervalSeconds);
      if interval <= 0 then Invalid
      else if now < startedAt then NotYet(startedAt)
      else
        var tick := Quotient(Elapsed(now, startedAt), interval);
        Due(tick, startedAt + Wrap64((tick + 1) * interval))
  }

  /** The times at which 64-bit arithmetic is still exact: the experiment, counted to the
      end of the current interval, is younger than about 292 years. */
  predicate InRange(w: Window, now: int, startedAt: int) {
    w.intervalSeconds >= 1 && startedAt <= now && now - startedAt + w.intervalSeconds * SECOND <= MAX_INT64
  }

  lemma DivisionBounds(e: nat, i: int)
    requires i > 0
    ensures e / i * i <= e < (e / i + 1) * i && e / i >= 0
  {
  }

  /** The current instant lies in the current tick's interval, and the next due time is
      where that interval ends. */
  lemma TickBounds(w: Window, now: int, startedAt: int)
    requires InRange(w, now, startedAt)
    ensures var t := ComputeWindowedTick(Some(w), now, startedAt);
      var interval := w.intervalSeconds * SECOND;
      && t.Due?
      && startedAt + t.index * interval <= now < t.next
      && t.next == startedAt + (t.index + 1) * interval
  {
    var interval: int := w.intervalSeconds * SECOND;
    assert Seconds(w.intervalSeconds) == interval;
    DivisionBounds(now - startedAt, interval);
    var k := (now - startedAt) / interval;
    assert (k + 1) * interval == k * interval + interval;
  }

  lemma MulMonotone(a: int, b: int, c: int)
    requires c > 0
    ensures a <= b <==> a * c <= b * c
  {
  }

  /** The interval an instant lies in determines the tick. */
  lemma TickUnique(w: Window, now: int, startedAt: int, k: nat)
    requires InRange(w, now, startedAt)
    ensures var t := ComputeWindowedTick(Some(w), now, startedAt);
      var interval := w.intervalSeconds * SECOND;
      t.Due? && (t.index == k <==> startedAt + k * interval <= now < startedAt + (k + 1) * interval)
  {
    TickBounds(w, now, startedAt);
    var i: int := w.intervalSeconds * SECOND;
    var q := ComputeWindowedTick(Some(w), now, startedAt).index;
    MulMonotone(q + 1, k, i);
    MulMonotone(k + 1, q, i);
  }

  /** Ticks never go back, and two instants share one exactly when they lie in the same
      interval. */
  lemma TicksFollowTime(w: Window, a: int, b: int, startedAt: int)
    requires InRange(w, a, startedAt) && InRange(w, b, startedAt)
    ensures var ta, tb := ComputeWindowedTick(Some(w), a, startedAt), ComputeWindowedTick(Some(w), b, startedAt);
      && ta.Due? && tb.Due? && (a <= b ==> ta.index <= tb.index)
      && (ta.index == tb.index <==> ta.next - w.intervalSeconds * SECOND <= b < ta.next)
  {
    var i: int := w.intervalSeconds * SECOND;
    TickBounds(w, a, startedAt);
    TickBounds(w, b, startedAt);
    var ka := ComputeWindowedTick(Some(w), a, startedAt).index;
    var kb := ComputeWindowedTick(Some(w), b, startedAt).index;
    TickUnique(w, b, startedAt, ka);
    MulMonotone(kb + 1, ka, i);
    assert (ka + 1) * i == ka * i + i;
  }

  /** While the experiment runs, tick indices stay within duration / interval. */
  lemma TickWithinDuration(w: Window, now: int, startedAt: int, duration: int64)
    requires w.intervalSeconds >= 1 && 0 <= duration && startedAt <= now <= startedAt + duration * SECOND
    ensures ComputeWindowedTick(Some(w), now, startedAt).Due?
    ensures ComputeWindowedTick(Some(w), now, startedAt).index <= duration / w.intervalSeconds
  {
    var s := w.intervalSeconds;
    assert Seconds(s) == s * SECOND;
    var k := ComputeWindowedTick(Some(w), now, startedAt).index;
    assert k * (s * SECOND) == (k * s) * SECOND;
    assert k * s <= duration;
    DivisionBounds(duration, s);
    MulMonotone(duration / s + 1, k, s);
  }

  lemma QuotientMonotone(e: nat, f: nat, i: int)
    requires i > 0 && e <= f
    ensures Quotient(e, i) <= Quotient(f, i)
  {
    MulMonotone(Quotient(f, i) + 1, Quotient(e, i), i);
  }

  // ---------------------------------------------------------------- plans

  datatype Plan = Plan(
    action: string,
    tick: string,
    jobName: string,
    leaseName: string,
    count: Option<int32>,
    percent: Option<int32>,
    cap: int32,
    refuseIfPodsLessThan: int32)

  function ResolveMode(a: PodAction): string {
    if a.executionMode.Some? && a.executionMode.value != "" then a.executionMode.value else ONE_SHOT
  }

  predicate ValidSelection(s: Selection) {
    if s.mode == COUNT then s.count.Some? && s.count.value >= 1
    else s.mode == PERCENT && s.percent.Some? && 1 <= s.percent.value <= 100
  }

  /** What one action contributes: a due time to wake up for, and perhaps a plan. A name
      that cannot be built is the panic of the short-hash slice; the reconcile is lost
      with it, as with an error. */
  datatype Contribution = Rejected(due: Option<int>) | Accepted(due: Option<int>, plan: Option<Plan>)

  function Contribute(h: Hash, id: Identity, spec: Spec, a: PodAction, now: int, startedAt: int): Contribution {
    if !ValidSelection(a.selection) then Rejected(None)
    else if ResolveMode(a) != WINDOWED then Named(h, id, spec, a, ONESHOT, None)
    else
      match ComputeWindowedTick(a.window, now, startedAt)
      case Invalid => Rejected(None)
      case NotYet(next) => Accepted(Some(next), None)
      case Due(index, next) => Named(h, id, spec, a, Decimal(index), Some(next))
  }

  function Named(h: Hash, id: Identity, spec: Spec, a: PodAction, tick: string, due: Option<int>): Contribution {
    match PodFaultName(h, id, a.name, tick)
    case None => Rejected(due)
    case Some(name) =>
      Accepted(due, Some(Plan(a.name, tick, name, name, a.selection.count, a.selection.percent,
                              EffectiveCap(spec.maxPodsAffected, a.selection, WindowCap(a, ResolveMode(a))),
                              a.refuseIfPodsLessThan)))
  }

  /** The tick of an action that is due, if any. */
  function DueTick(a: PodAction, now: int, startedAt: int): Option<string> {
    if !IsWindowed(a) then Some(ONESHOT)
    else match ComputeWindowedTick(a.window, now, startedAt)
      case Due(index, _) => Some(Decimal(index))
      case _ => None
  }

  /** updateEarliestDue. */
  function Earlier(earliest: Option<int>, candidate: Option<int>): Option<int> {
    if candidate.Some? && (earliest.None? || candidate.value < earliest.value) then candidate else earliest
  }

  datatype Built = Built(ok: bool, plans: seq<Plan>, earliestDue: Option<int>)

  function BuildFrom(h: Hash, id: Identity, spec: Spec, actions: seq<PodAction>, now: int, startedAt: int, acc: Built): Built
    decreases actions
  {
    if actions == [] then acc
    else
      var c := Contribute(h, id, spec, actions[0], now, startedAt);
      var due := Earlier(acc.earliestDue, c.due);
      if c.Rejected? then Built(false, [], due)
      else BuildFrom(h, id, spec, actions[1..], now, startedAt,
                     Built(true, if c.plan.Some? then acc.plans + [c.plan.value] else acc.plans, due))
  }

  function BuildPlans(h: Hash, id: Identity, spec: Spec, now: int, startedAt: int): Built {
    BuildFrom(h, id, spec, spec.podFaults, now, startedAt, Built(true, [], None))
  }

  method BuildPodFaultPlans(h: Hash, id: Identity, spec: Spec, now: int, startedAt: int) returns (r: Built)
    ensures r == BuildPlans(h, id, spec, now, startedAt)
  {
    var plans: seq<Plan>, earliestDue: Option<int> := [], None;
    var actions := spec.podFaults;
    for i := 0 to |actions|
      invariant BuildPlans(h, id, spec, now, startedAt)
             == BuildFrom(h, id, spec, actions[i..], now, startedAt, Built(true, plans, earliestDue))
    {
      var a := actions[i];
      assert actions[i..][0] == a && actions[i..][1..] == actions[i + 1..];
      var mode := ResolveMode(a);
      if !ValidSelection(a.selection) {
        return Built(false, [], earliestDue);
      }
      var effectiveMax := CapEffectiveMaxPods(spec, a, mode);
      var tick, planned := ONESHOT, true;
      if mode == WINDOWED {
        match ComputeWindowedTick(a.window, now, startedAt) {
          case Invalid =>
            return Built(false, [], earliestDue);
          case NotYet(next) =>
            earliestDue := Earlier(earliestDue, Some(next));
            planned := false;
          case Due(index, next) =>
            earliestDue := Earlier(earliestDue, Some(next));
            tick := Decimal(index);
        }
      }
      if planned {
        var name := PodFaultName(h, id, a.name, tick);
        if name.None? {
          return Built(false, [], earliestDue);
        }
        plans := plans + [Plan(a.name, tick, name.value, name.value, a.selection.count, a.selection.percent,
                               effectiveMax, a.refuseIfPodsLessThan)];
      }
    }
    return Built(true, plans, earliestDue);
  }

  // ---------------------------------------------------------------- what the plans are

  predicate IsWindowed(a: PodAction) { ResolveMode(a) == WINDOWED }

  /** The next boundary of a windowed action's schedule. */
  function Boundary(a: PodAction, now: int, startedAt: int): int
    requires !ComputeWindowedTick(a.window, now, startedAt).Invalid?
  {
    ComputeWindowedTick(a.window, now, startedAt).next
  }

  /** `due` is the least next boundary over the windowed actions, None without any. */
  ghost predicate IsEarliest(due: Option<int>, actions: seq<PodAction>, now: int, startedAt: int) {
    && (forall a :: a in actions && IsWindowed(a) ==>
          && !ComputeWindowedTick(a.window, now, startedAt).Invalid?
          && due.Some? && due.value <= Boundary(a, now, startedAt))
    && (due.Some? ==> exists a :: a in actions && IsWindowed(a)
                        && !ComputeWindowedTick(a.window, now, startedAt).Invalid?
                        && due.value == Boundary(a, now, startedAt))
  }

  function DueOf(a: PodAction, now: int, startedAt: int): Option<int> {
    if !IsWindowed(a) || ComputeWindowedTick(a.window, now, startedAt).Invalid? then None
    else Some(Boundary(a, now, startedAt))
  }

  lemma MovedOver(done: seq<PodAction>, actions: seq<PodAction>)
    requires actions != []
    ensures done + actions == (done + [actions[0]]) + actions[1..]
  {
  }

  lemma {:induction false} BuildFromEarliest(h: Hash, id: Identity, spec: Spec, actions: seq<PodAction>, now: int, startedAt: int, done: seq<PodAction>, acc: Built)
    requires acc.ok && IsEarliest(acc.earliestDue, done, now, startedAt)
    ensures var r := BuildFrom(h, id, spec, actions, now, startedAt, acc);
      r.ok ==> IsEarliest(r.earliestDue, done + actions, now, startedAt)
    decreases actions
  {
    if actions == [] {
      assert done + actions == done;
    } else {
      var a := actions[0];
      var c := Contribute(h, id, spec, a, now, startedAt);
      if c.Accepted? {
        MovedOver(done, actions);
        ContributionDue(h, id, spec, a, now, startedAt);
        EarlierSound(acc.earliestDue, done, a, now, startedAt);
        BuildFromEarliest(h, id, spec, actions[1..], now, startedAt, done + [a],
                          Built(true, if c.plan.Some? then acc.plans + [c.plan.value] else acc.plans, Earlier(acc.earliestDue, c.due)));
      }
    }
  }

  lemma ContributionDue(h: Hash, id: Identity, spec: Spec, a: PodAction, now: int, startedAt: int)
    requires Contribute(h, id, spec, a, now, startedAt).Accepted?
    ensures Contribute(h, id, spec, a, now, startedAt).due == DueOf(a, now, startedAt)
    ensures IsWindowed(a) ==> !ComputeWindowedTick(a.window, now, startedAt).Invalid?
  {
  }

  lemma EarlierSound(due: Option<int>, done: seq<PodAction>, a: PodAction, now: int, startedAt: int)
    requires IsEarliest(due, done, now, startedAt)
    requires IsWindowed(a) ==> !ComputeWindowedTick(a.window, now, startedAt).Invalid?
    ensures IsEarliest(Earlier(due, DueOf(a, now, startedAt)), done + [a], now, startedAt)
  {
    var due' := Earlier(due, DueOf(a, now, startedAt));
    if due'.Some? {
      if due' == due {
        var b :| b in done && IsWindowed(b) && !ComputeWindowedTick(b.window, now, startedAt).Invalid? && due.value == Boundary(b, now, startedAt);
        assert b in done + [a];
      } else {
        assert a in done + [a];
      }
    }
  }

  // ---------------------------------------------------------------- what is due when

  /** An action's tick is due over an unbroken span of time. */
  lemma DueUnbroken(a: PodAction, x: int, now: int, y: int, startedAt: int)
    requires x <= now <= y && DueTick(a, x, startedAt).Some? && DueTick(a, x, startedAt) == DueTick(a, y, startedAt)
    ensures DueTick(a, now, startedAt) == DueTick(a, x, startedAt)
  {
    if IsWindowed(a) {
      var i := Seconds(a.window.value.intervalSeconds);
      QuotientMonotone(Elapsed(x, startedAt), Elapsed(now, startedAt), i);
      QuotientMonotone(Elapsed(now, startedAt), Elapsed(y, startedAt), i);
      DecimalInjective(Quotient(Elapsed(x, startedAt), i), Quotient(Elapsed(y, startedAt), i));
    }
  }

  /** One action's plan for a tick, if it can be named. */
  function PlanFor(h: Hash, id: Identity, spec: Spec, a: PodAction, tick: string): Option<Plan> {
    match PodFaultName(h, id, a.name, tick)
    case None => None
    case Some(name) =>
      Some(Plan(a.name, tick, name, name, a.selection.count, a.selection.percent,
                EffectiveCap(spec.maxPodsAffected, a.selection, WindowCap(a, ResolveMode(a))), a.refuseIfPodsLessThan))
  }

  /** The plans of the actions that are due, in order. */
  function DuePlans(h: Hash, id: Identity, spec: Spec, actions: seq<PodAction>, now: int, startedAt: int): seq<Plan> {
    if actions == [] then [] else DuePlan(h, id, spec, actions[0], now, startedAt) + DuePlans(h, id, spec, actions[1..], now, startedAt)
  }

  /** At most one plan. */
  function DuePlan(h: Hash, id: Identity, spec: Spec, a: PodAction, now: int, startedAt: int): seq<Plan> {
    var t := DueTick(a, now, startedAt);
    if t.None? then []
    else match PlanFor(h, id, spec, a, t.value)
      case None => []
      case Some(p) => [p]
  }

  lemma ContributedPlan(h: Hash, id: Identity, spec: Spec, a: PodAction, now: int, startedAt: int)
    ensures var c := Contribute(h, id, spec, a, now, startedAt);
      c.Accepted? ==> (if c.plan.Some? then [c.plan.value] else []) == DuePlan(h, id, spec, a, now, startedAt)
  {
  }

  lemma Regrouped(a: seq<Plan>, b: seq<Plan>, c: seq<Plan>)
    ensures (a + b) + c == a + (b + c)
  {
  }

  lemma {:induction false} BuildFromDue(h: Hash, id: Identity, spec: Spec, actions: seq<PodAction>, now: int, startedAt: int, acc: Built)
    requires acc.ok
    ensures var r := BuildFrom(h, id, spec, actions, now, startedAt, acc);
      r.plans == if r.ok then acc.plans + DuePlans(h, id, spec, actions, now, startedAt) else []
    decreases actions
  {
    if actions != [] {
      var a := actions[0];
      var c := Contribute(h, id, spec, a, now, startedAt);
      if c.Accepted? {
        var plans := if c.plan.Some? then acc.plans + [c.plan.value] else acc.plans;
        var here, later := DuePlan(h, id, spec, a, now, startedAt), DuePlans(h, id, spec, actions[1..], now, startedAt);
        assert plans == acc.plans + here by { ContributedPlan(h, id, spec, a, now, startedAt); }
        BuildFromDue(h, id, spec, actions[1..], now, startedAt, Built(true, plans, Earlier(acc.earliestDue, c.due)));
        Regrouped(acc.plans, here, later);
      }
    }
  }

  /** The plans a pass gets are those of the actions due, or none when one cannot be made. */
  lemma PlansAreDue(h: Hash, id: Identity, spec: Spec, now: int, startedAt: int)
    ensures var r := BuildPlans(h, id, spec, now, startedAt);
      r.plans == if r.ok then DuePlans(h, id, spec, spec.podFaults, now, startedAt) else []
  {
    BuildFromDue(h, id, spec, spec.podFaults, now, startedAt, Built(true, [], None));
  }

  /** The plan is the one `a` has for its tick that is due. */
  predicate PlanOf(p: Plan, h: Hash, id: Identity, spec: Spec, a: PodAction, now: int, startedAt: int) {
    DueTick(a, now, startedAt) == Some(p.tick) && PlanFor(h, id, spec, a, p.tick) == Some(p)
  }

  lemma DuePlanMember(h: Hash, id: Identity, spec: Spec, a: PodAction, now: int, startedAt: int, p: Plan)
    ensures p in DuePlan(h, id, spec, a, now, startedAt) <==> PlanOf(p, h, id, spec, a, now, startedAt)
  {
  }

  lemma {:induction false} DuePlansMembers(h: Hash, id: Identity, spec: Spec, actions: seq<PodAction>, now: int, startedAt: int)
    ensures forall p :: p in DuePlans(h, id, spec, actions, now, startedAt) <==> exists a :: a in actions && PlanOf(p, h, id, spec, a, now, startedAt)
  {
    if actions != [] {
      var a, rest := actions[0], actions[1..];
      DuePlansMembers(h, id, spec, rest, now, startedAt);
      assert actions == [a] + rest;
      forall p ensures p in DuePlan(h, id, spec, a, now, startedAt) <==> PlanOf(p, h, id, spec, a, now, startedAt) {
        DuePlanMember(h, id, spec, a, now, startedAt, p);
      }
    }
  }

  /** What buildPodFaultPlans promises: the wake-up time is the least next boundary of
      all windowed actions and lies ahead, and the plans are those of the ticks that are
      due, one for each. */
  lemma BuildPlansSound(h: Hash, id: Identity, spec: Spec, now: int, startedAt: int)
    requires forall a :: a in spec.podFaults && IsWindowed(a) && a.window.Some? && a.window.value.intervalSeconds >= 1 && startedAt <= now
               ==> InRange(a.window.value, now, startedAt)
    ensures var r := BuildPlans(h, id, spec, now, startedAt);
      r.ok ==> && IsEarliest(r.earliestDue, spec.podFaults, now, startedAt)
               && (r.earliestDue.Some? ==> r.earliestDue.value > now)
               && forall p :: p in r.plans <==> exists a :: a in spec.podFaults && PlanOf(p, h, id, spec, a, now, startedAt)
  {
    EarliestSound(h, id, spec, now, startedAt);
    PlansAreDue(h, id, spec, now, startedAt);
    DuePlansMembers(h, id, spec, spec.podFaults, now, startedAt);
  }

  lemma EarliestSound(h: Hash, id: Identity, spec: Spec, now: int, startedAt: int)
    requires forall a :: a in spec.podFaults && IsWindowed(a) && a.window.Some? && a.window.value.intervalSeconds >= 1 && startedAt <= now
               ==> InRange(a.window.value, now, startedAt)
    ensures var r := BuildPlans(h, id, spec, now, startedAt);
      r.ok ==> IsEarliest(r.earliestDue, spec.podFaults, now, startedAt) && (r.earliestDue.Some? ==> r.earliestDue.value > now)
  {
    BuildFromEarliest(h, id, spec, spec.podFaults, now, startedAt, [], Built(true, [], None));
    assert [] + spec.podFaults == spec.podFaults;
    var r := BuildPlans(h, id, spec, now, startedAt);
    if r.ok && r.earliestDue.Some? {
      var a :| a in spec.podFaults && IsWindowed(a) && !ComputeWindowedTick(a.window, now, startedAt).Invalid? && r.earliestDue.value == Boundary(a, now, startedAt);
      if startedAt <= now { TickBounds(a.window.value, now, startedAt); }
    }
  }

  /** Plans depend on the time since the start alone. */
  lemma {:induction false} PlansByAge(h: Hash, id: Identity, spec: Spec, actions: seq<PodAction>, now: int, startedAt: int, acc: Built, acc0: Built)
    requires acc.ok == acc0.ok && acc.plans == acc0.plans
    ensures var r, r0 := BuildFrom(h, id, spec, actions, now, startedAt, acc), BuildFrom(h, id, spec, actions, now - startedAt, 0, acc0);
      r.ok == r0.ok && r.plans == r0.plans
    decreases actions
  {
    if actions != [] {
      var c, c0 := Contribute(h, id, spec, actions[0], now, startedAt), Contribute(h, id, spec, actions[0], now - startedAt, 0);
      SameContribution(h, id, spec, actions[0], now, startedAt);
      if c.Accepted? {
        PlansByAge(h, id, spec, actions[1..], now, startedAt,
                   Built(true, if c.plan.Some? then acc.plans + [c.plan.value] else acc.plans, Earlier(acc.earliestDue, c.due)),
                   Built(true, if c0.plan.Some? then acc0.plans + [c0.plan.value] else acc0.plans, Earlier(acc0.earliestDue, c0.due)));
      }
    }
  }

  lemma SameDueTick(a: PodAction, now: int, startedAt: int)
    ensures DueTick(a, now, startedAt) == DueTick(a, now - startedAt, 0)
  {
  }

  lemma SameContribution(h: Hash, id: Identity, spec: Spec, a: PodAction, now: int, startedAt: int)
    ensures var c, c0 := Contribute(h, id, spec, a, now, startedAt), Contribute(h, id, spec, a, now - startedAt, 0);
      && c.Accepted? == c0.Accepted? && (c.Accepted? ==> c.plan == c0.plan)
      && DueTick(a, now, startedAt) == DueTick(a, now - startedAt, 0)
  {
  }
}
