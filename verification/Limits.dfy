/** The caps a user sets on pods, and what they do: every plan is made under each of them,
    and over whole runs no Job names more pods. */
module Limits {
  import opened Wrappers
  import opened Machine
  import Helpers
  import opened Names
  import opened Api
  import opened PodSelection
  import opened Cluster
  import opened Ticks
  import opened Protocol
  import opened Execution
  import opened Apart
  import opened Guardrails
  import opened Reconciler
  import opened Lifetime
  import Experiment

  // ---------------------------------------------------------------- plans

  /** A positive cap on the action, from the blast radius, its selection or its window. */
  predicate ConfiguredCap(spec: Spec, a: PodAction, m: int) {
    && m > 0
    && (|| m == spec.maxPodsAffected || a.selection.maxPodsAffected == Some(m)
        || (SaysWindowed(a) && a.window.Some? && m == a.window.value.maxTotalPodsAffected))
  }

  /** A plan carries its action's own selection and refusal floor, and a cap that is the
      least of those configured: 0, which is no cap, only when there is none. */
  ghost predicate Carries(p: Plan, spec: Spec, a: PodAction) {
    && p.action == a.name && p.count == a.selection.count && p.percent == a.selection.percent
    && p.refuseIfPodsLessThan == a.refuseIfPodsLessThan
    && (forall m :: ConfiguredCap(spec, a, m) ==> 0 < p.cap <= m)
    && (p.cap != 0 ==> ConfiguredCap(spec, a, p.cap) || (p.cap == MAX_INT32 < spec.maxPodsAffected))
  }

  lemma PlansCarryTheirActions(h: Helpers.Hash, id: Identity, spec: Spec, now: int, startedAt: int, p: Plan) returns (a: PodAction)
    requires p in BuildPlans(h, id, spec, now, startedAt).plans
    ensures a in spec.podFaults && DueTick(a, now, startedAt) == Some(p.tick) && Carries(p, spec, a)
  {
    PlansAreDue(h, id, spec, now, startedAt);
    a := PlanMember(h, id, spec, now, startedAt, p);
    var total := WindowCap(a, ResolveMode(a));
    EffectiveCapIsLeast(spec.maxPodsAffected, a.selection, total);
    forall m | ConfiguredCap(spec, a, m) ensures 0 < p.cap <= m { assert Caps(spec.maxPodsAffected, a.selection, total, m); }
  }

  // ---------------------------------------------------------------- passes

  /** A Job of this action, in this mode. */
  predicate OfAction(action: string, tick: string, name: string, windowed: bool) {
    action == name && (tick != ONESHOT <==> windowed)
  }

  ghost predicate NamesAtMost(log: seq<Creation>, name: string, windowed: bool, most: int) {
    forall c :: c in log && OfAction(c.action, c.tick, name, windowed) ==> |c.pods| <= most
  }

  ghost predicate CapsAtMost(plans: seq<Plan>, name: string, windowed: bool, most: int) {
    forall p :: p in plans && OfAction(p.action, p.tick, name, windowed) ==> 0 < p.cap <= most
  }

  lemma StepNamesAtMost(w: World, snapshot: seq<Tick>, p: Plan, now: int, holder: string, e: Surroundings, name: string, windowed: bool, most: int)
    requires NamesAtMost(w.log, name, windowed, most) && CapsAtMost([p], name, windowed, most)
    ensures NamesAtMost(PlanStep(w, snapshot, p, now, holder, e).0.log, name, windowed, most)
  {
    assert p in [p];
    StepNames(w, snapshot, p, now, holder, e, if e.pods.Some? then |e.pods.value| else 0);
  }

  lemma {:induction false} PassNamesAtMost(w: World, snapshot: seq<Tick>, plans: seq<Plan>, now: int, holder: string, es: seq<Surroundings>, pending: bool, name: string, windowed: bool, most: int)
    requires |es| == |plans| && NamesAtMost(w.log, name, windowed, most) && CapsAtMost(plans, name, windowed, most)
    ensures NamesAtMost(Pass(w, snapshot, plans, now, holder, es, pending).0.log, name, windowed, most)
    decreases plans
  {
    if plans != [] {
      assert plans[0] in plans && forall q :: q in plans[1..] ==> q in plans;
      var (w1, v) := PlanStep(w, snapshot, plans[0], now, holder, es[0]);
      StepNamesAtMost(w, snapshot, plans[0], now, holder, es[0], name, windowed, most);
      if v.Continue? { PassNamesAtMost(w1, snapshot, plans[1..], now, holder, es[1..], pending || v.pending, name, windowed, most); }
    }
  }

  // ---------------------------------------------------------------- whole runs

  /** Every action of that name and mode is under some cap of at most `most`. */
  ghost predicate Capped(spec: Spec, name: string, windowed: bool, most: int) {
    forall a :: a in spec.podFaults && a.name == name && SaysWindowed(a) == windowed ==> exists m :: m <= most && ConfiguredCap(spec, a, m)
  }

  lemma PlansCapped(h: Helpers.Hash, id: Identity, spec: Spec, now: int, startedAt: int, name: string, windowed: bool, most: int)
    requires Capped(spec, name, windowed, most)
    ensures CapsAtMost(BuildPlans(h, id, spec, now, startedAt).plans, name, windowed, most)
  {
    var plans := BuildPlans(h, id, spec, now, startedAt).plans;
    forall p | p in plans && OfAction(p.action, p.tick, name, windowed) ensures 0 < p.cap <= most {
      var a := PlansCarryTheirActions(h, id, spec, now, startedAt, p);
      TickTellsMode(a, now, a, now, startedAt);
      var m :| m <= most && ConfiguredCap(spec, a, m);
    }
  }

  lemma ReconcileNamesAtMost(w: World, c: Controller, r: Round, name: string, windowed: bool, most: int)
    requires Capped(w.fi.spec, name, windowed, most) && NamesAtMost(w.log, name, windowed, most)
    ensures NamesAtMost(Reconciled(w, c, r).0.log, name, windowed, most)
  {
    var l := WithLifecycle(w, r.lifecycleClock);
    if Ongoing(w, r) && Acceptable(l, r) { ActiveNamesAtMost(l, c, r, name, windowed, most); }
  }

  lemma ActiveNamesAtMost(w: World, c: Controller, r: Round, name: string, windowed: bool, most: int)
    requires Capped(w.fi.spec, name, windowed, most) && NamesAtMost(w.log, name, windowed, most)
    requires Timed(w.fi.status) && Acceptable(w, r)
    ensures NamesAtMost(Active(w, c, r).0.log, name, windowed, most)
  {
    Validation.ValidDereferenceable(w.fi.spec, r.meshCounts);
    var w1 := Injecting(w, c, r.order).0;
    var startedAt := w.fi.status.startedAt.value;
    InjectingSamePods(w, c, r.order);
    PlansCapped(c.hash, w.fi.id, w.fi.spec, r.now, startedAt, name, windowed, most);
    var plans := BuildPlans(c.hash, w.fi.id, w.fi.spec, r.now, startedAt).plans;
    PassNamesAtMost(w1, w1.fi.status.ticks, plans, r.now, Holder(c), CallsFor(r, |plans|), false, name, windowed, most);
    ExecutingIsPass(w1, c, r, w.fi.status.expiresAt.value);
  }

  /** Over whole runs, through edits of anything, rejections, cleanup and failing calls: as
      long as every spec keeps the action under some cap of at most `most`, be it the blast
      radius's, its selection's or its window's, no Job of it names more pods. */
  lemma {:induction false} CapsForLife(w: World, c: Controller, events: seq<Experiment.Event>, name: string, windowed: bool, most: int)
    requires Capped(w.fi.spec, name, windowed, most) && NamesAtMost(w.log, name, windowed, most)
    requires forall i :: 0 <= i < |events| && events[i].Editing? ==> Capped(events[i].spec, name, windowed, most)
    ensures NamesAtMost(Experiment.RunOf(w, c, events).log, name, windowed, most)
    decreases events
  {
    if events != [] {
      if events[0].Reconciling? {
        ReconcileNamesAtMost(w, c, events[0].round, name, windowed, most);
        Experiment.ReconcilePhases(w, c, events[0].round);
      }
      assert forall i :: 0 <= i < |events[1..]| ==> events[1..][i] == events[i + 1];
      CapsForLife(Experiment.Next(w, c, events[0]), c, events[1..], name, windowed, most);
    }
  }

  /** So a Job for a tick of a window never names more than window.maxTotalPodsAffected. */
  lemma TickWithinTotal(w: World, c: Controller, events: seq<Experiment.Event>, a: PodAction)
    requires KeysApart(w.fi.spec.podFaults) && a in w.fi.spec.podFaults && SaysWindowed(a)
    requires a.window.Some? && a.window.value.maxTotalPodsAffected > 0 && w.log == []
    requires forall i :: 0 <= i < |events| && events[i].Editing? ==> events[i].spec.podFaults == w.fi.spec.podFaults
    ensures forall made :: made in Experiment.RunOf(w, c, events).log && made.action == a.name && made.tick != ONESHOT ==>
      |made.pods| <= a.window.value.maxTotalPodsAffected
  {
    var most := a.window.value.maxTotalPodsAffected;
    forall spec: Spec | spec.podFaults == w.fi.spec.podFaults ensures Capped(spec, a.name, true, most) {
      forall b | b in spec.podFaults && b.name == a.name && SaysWindowed(b) ensures ConfiguredCap(spec, b, most) {
        KeysApartUnique(spec.podFaults, a, b);
      }
    }
    CapsForLife(w, c, events, a.name, true, most);
  }
}
