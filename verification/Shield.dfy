/** What the Lease is worth to at-most-once: ticks that are due no longer than it holds run
    once even where they share a Job, as long as nobody else touches it. */
module Shield {
  import opened Wrappers
  import opened Machine
  import Helpers
  import opened Names
  import opened Api
  import LeaseProtocol
  import opened Cluster
  import Validation
  import opened Ticks
  import opened Protocol
  import opened Execution
  import opened Apart
  import opened Lifecycle
  import opened Cleanup
  import opened Reconciler
  import Experiment
  import opened Lifetime

  // ---------------------------------------------------------------- brief ticks

  /** Duration and skew of the Leases the controller makes. */
  const HOLD: int := 70 * SECOND

  /** The tick is due, and the experiment not expired. */
  ghost predicate DueInTime(spec: Spec, startedAt: int, k: TickKey, now: int) {
    DueAt(spec, startedAt, k, now) && now <= startedAt + spec.durationSeconds * SECOND
  }

  /** Once due at a time, the tick is not due any more when a Lease stamped then runs out. */
  ghost predicate Brief(spec: Spec, startedAt: int, k: TickKey) {
    forall x, y :: DueInTime(spec, startedAt, k, x) && DueInTime(spec, startedAt, k, y) ==> y <= StoredMicroTime(x) + HOLD
  }

  /** Plans that are due together share a Job only for brief ticks. */
  ghost predicate ClashesBrief(h: Helpers.Hash, id: Identity, spec: Spec) {
    && KeysApart(spec.podFaults)
    && forall startedAt, now :: startedAt % SECOND == 0 && now <= startedAt + spec.durationSeconds * SECOND ==> BriefAt(h, id, spec, startedAt, now)
  }

  ghost predicate BriefAt(h: Helpers.Hash, id: Identity, spec: Spec, startedAt: int, now: int) {
    var plans := DuePlans(h, id, spec, spec.podFaults, now, startedAt);
    forall p, q :: p in plans && q in plans && p.jobName == q.jobName ==> PlanKey(p) == PlanKey(q) || Brief(spec, startedAt, PlanKey(p))
  }

  /** Keys of brief ticks. */
  ghost function BriefKeys(spec: Spec, startedAt: int): iset<TickKey> {
    iset k: TickKey | Brief(spec, startedAt, k)
  }

  // ---------------------------------------------------------------- the shield

  ghost predicate AllLong(leases: map<string, LeaseProtocol.Lease>) {
    forall n :: n in leases ==> LeaseProtocol.EffectiveSeconds(leases[n]) >= LeaseProtocol.DEFAULT_SECONDS
  }

  /** The experiment's own Lease keeps the tick from a second launch while it is due. */
  ghost predicate Shielded(w: World, n: string, spec: Spec, startedAt: int, k: TickKey, t: int) {
    && n in w.leases && Mine(w.fi.id, w.leases[n].owner)
    && forall y :: y >= t && DueInTime(spec, startedAt, k, y) ==> !LeaseProtocol.Stale(w.leases[n], y)
  }

  ghost predicate Secured(w: World, name: TickKey -> string, startedAt: int, k: TickKey, t: int) {
    || k in Over(w.fi.spec, startedAt, t) || IsDone(w, k)
    || (if Brief(w.fi.spec, startedAt, k) then Shielded(w, name(k), w.fi.spec, startedAt, k, t) else Held(w, name(k)))
  }

  /** The experiment under way: every Job was created for a tick that was due, and no tick
      can be launched a second time. */
  ghost predicate Shielding(w: World, c: Controller, t: int) {
    var s := StartOf(w.fi.status);
    && (w.log != [] ==> w.fi.status.startedAt.Some?) && AllLong(w.leases)
    && LogWithin(w.log, Born(w.fi.spec, s, t)) && CreatedOnce(w.log)
    && forall i :: 0 <= i < |w.log| ==> Secured(w, NameOf(c.hash, w.fi.id), s, CreationKey(w.log[i]), t)
  }

  // ---------------------------------------------------------------- Leases over a pass

  /** Every Lease moves as it may at `now`, and Jobs created since have theirs claimed. */
  ghost predicate LeasesMoved(w: World, w1: World, now: int) {
    && (forall n :: LeaseMove(w.fi.id, Lookup(w.leases, n), Lookup(w1.leases, n), now))
    && w.log <= w1.log
  }

  lemma MovesCompose(id: Identity, a: Option<LeaseProtocol.Lease>, b: Option<LeaseProtocol.Lease>, c: Option<LeaseProtocol.Lease>, now: int)
    requires LeaseMove(id, a, b, now) && LeaseMove(id, b, c, now) && now >= LeaseProtocol.UNIX_EPOCH
    ensures LeaseMove(id, a, c, now)
  {
    if b != a && c != b { ClaimedHolds(b.value, id, now); }
  }

  lemma ClaimedHolds(l: LeaseProtocol.Lease, id: Identity, now: int)
    requires Claimed(l, id, now) && now >= LeaseProtocol.UNIX_EPOCH
    ensures !LeaseProtocol.Stale(l, now)
  {
    LeaseProtocol.WindowBounds(l);
  }

  /** The Leases of the Jobs created from log entry `from` on are claimed. */
  ghost predicate NewClaimed(w: World, name: TickKey -> string, from: nat, now: int) {
    forall i :: from <= i < |w.log| ==> var n := name(CreationKey(w.log[i])); n in w.leases && Claimed(w.leases[n], w.fi.id, now)
  }

  lemma StepMovesLeases(w: World, w1: World, p: Plan, now: int, name: TickKey -> string, from: nat)
    requires StepEffect(w, w1, p) && LeaseEffect(w, w1, p, now) && now >= LeaseProtocol.UNIX_EPOCH
    requires p.leaseName == p.jobName == name(PlanKey(p)) && from <= |w.log| && NewClaimed(w, name, from, now)
    ensures LeasesMoved(w, w1, now) && NewClaimed(w1, name, from, now)
  {
    forall n ensures LeaseMove(w.fi.id, Lookup(w.leases, n), Lookup(w1.leases, n), now) {
      if n != p.leaseName { assert Lookup(w1.leases, n) == Lookup(w.leases, n); }
    }
    forall i | from <= i < |w1.log|
      ensures var n := name(CreationKey(w1.log[i])); n in w1.leases && Claimed(w1.leases[n], w1.fi.id, now)
    {
      if i < |w.log| {
        assert w1.log[i] == w.log[i] by { if w1.log != w.log { assert w1.log[..|w.log|][i] == w1.log[i]; } }
        var n := name(CreationKey(w.log[i]));
        assert LeaseMove(w.fi.id, Lookup(w.leases, n), Lookup(w1.leases, n), now);
      }
    }
  }

  lemma {:induction false} PassMovesLeases(w: World, snapshot: seq<Tick>, plans: seq<Plan>, now: int, holder: string, es: seq<Surroundings>, pending: bool, name: TickKey -> string, from: nat)
    requires |es| == |plans| && NamedBy(plans, name) && (forall p :: p in plans ==> p.leaseName == p.jobName)
    requires from <= |w.log| && NewClaimed(w, name, from, now) && now >= LeaseProtocol.UNIX_EPOCH
    ensures var w1 := Pass(w, snapshot, plans, now, holder, es, pending).0;
      LeasesMoved(w, w1, now) && NewClaimed(w1, name, from, now)
    decreases plans
  {
    if plans != [] {
      var p := plans[0];
      assert p in plans;
      var (w1, v) := PlanStep(w, snapshot, p, now, holder, es[0]);
      StepHasEffect(w, snapshot, p, now, holder, es[0]);
      StepLeases(w, snapshot, p, now, holder, es[0]);
      StepMovesLeases(w, w1, p, now, name, from);
      if v.Continue? {
        PassMovesLeases(w1, snapshot, plans[1..], now, holder, es[1..], pending || v.pending, name, from);
        var w2 := Pass(w1, snapshot, plans[1..], now, holder, es[1..], pending || v.pending).0;
        forall n ensures LeaseMove(w.fi.id, Lookup(w.leases, n), Lookup(w2.leases, n), now) {
          assert LeaseMove(w.fi.id, Lookup(w.leases, n), Lookup(w1.leases, n), now) && LeaseMove(w1.fi.id, Lookup(w1.leases, n), Lookup(w2.leases, n), now);
          MovesCompose(w.fi.id, Lookup(w.leases, n), Lookup(w1.leases, n), Lookup(w2.leases, n), now);
        }
      }
    }
  }

  lemma MovesKeepLong(w: World, w1: World, now: int)
    requires LeasesMoved(w, w1, now) && AllLong(w.leases)
    ensures AllLong(w1.leases)
  {
    forall n | n in w1.leases ensures LeaseProtocol.EffectiveSeconds(w1.leases[n]) >= LeaseProtocol.DEFAULT_SECONDS {
      assert LeaseMove(w.fi.id, Lookup(w.leases, n), Lookup(w1.leases, n), now);
    }
  }

  // ---------------------------------------------------------------- a pass keeps the shield

  lemma StaleLater(l: LeaseProtocol.Lease, x: int, y: int)
    requires LeaseProtocol.Stale(l, x) && x <= y
    ensures LeaseProtocol.Stale(l, y)
  {
  }

  lemma ShieldMoves(w: World, w1: World, n: string, spec: Spec, startedAt: int, k: TickKey, now: int)
    requires Shielded(w, n, spec, startedAt, k, now) && LeasesMoved(w, w1, now) && w1.fi.id == w.fi.id
    ensures Shielded(w1, n, spec, startedAt, k, now)
  {
    assert LeaseMove(w.fi.id, Lookup(w.leases, n), Lookup(w1.leases, n), now);
    if w1.leases[n] != w.leases[n] {
      forall y | y >= now && DueInTime(spec, startedAt, k, y) ensures false {
        StaleLater(w.leases[n], now, y);
      }
    }
  }

  /** A Lease claimed at a time the tick is due shields it, if it is brief. */
  lemma ClaimShields(w: World, n: string, spec: Spec, startedAt: int, k: TickKey, now: int)
    requires n in w.leases && Claimed(w.leases[n], w.fi.id, now) && AllLong(w.leases) && now >= LeaseProtocol.UNIX_EPOCH
    requires Brief(spec, startedAt, k) && DueInTime(spec, startedAt, k, now)
    ensures Shielded(w, n, spec, startedAt, k, now)
  {
    LongWindow(w.leases[n]);
    ClaimedHolds(w.leases[n], w.fi.id, now);
    forall y | y >= now && DueInTime(spec, startedAt, k, y) ensures !LeaseProtocol.Stale(w.leases[n], y) {
      assert y <= StoredMicroTime(now) + HOLD;
    }
  }

  lemma LongWindow(l: LeaseProtocol.Lease)
    requires LeaseProtocol.EffectiveSeconds(l) >= LeaseProtocol.DEFAULT_SECONDS
    ensures LeaseProtocol.Window(l) >= HOLD
  {
    LeaseProtocol.WindowBounds(l);
  }

  /** All that a pass of the experiment is known to start from. */
  ghost predicate ReadyToPass(w: World, c: Controller, now: int, startedAt: int) {
    && Shielding(w, c, now) && w.fi.status.startedAt == Some(startedAt) && startedAt % SECOND == 0
    && ClashesBrief(c.hash, w.fi.id, w.fi.spec) && LeaseProtocol.UNIX_EPOCH <= now <= startedAt + w.fi.spec.durationSeconds * SECOND
  }

  ghost function ShieldedKeys(w: World, startedAt: int, now: int): iset<TickKey> {
    Over(w.fi.spec, startedAt, now) + BriefKeys(w.fi.spec, startedAt)
  }

  lemma PassFitsShield(w: World, c: Controller, now: int, startedAt: int)
    requires ReadyToPass(w, c, now, startedAt)
    ensures var b := BuildPlans(c.hash, w.fi.id, w.fi.spec, now, startedAt);
      var over := ShieldedKeys(w, startedAt, now);
      && ClashesOver(b.plans, over)
      && Once(w, NameOf(c.hash, w.fi.id), over) && Undisputed(w, b.plans, NameOf(c.hash, w.fi.id), over)
      && (forall p :: p in b.plans ==> NotAgain(w, p, now, over) && p.leaseName == p.jobName && DueInTime(w.fi.spec, startedAt, PlanKey(p), now))
  {
    var h, id, spec := c.hash, w.fi.id, w.fi.spec;
    var b := BuildPlans(h, id, spec, now, startedAt);
    var over := ShieldedKeys(w, startedAt, now);
    PlansAreDue(h, id, spec, now, startedAt);
    assert BriefAt(h, id, spec, startedAt, now);
    forall i | 0 <= i < |w.log| ensures Kept(w, CreationKey(w.log[i]), NameOf(h, id), over) {
      assert Secured(w, NameOf(h, id), startedAt, CreationKey(w.log[i]), now);
    }
    forall p | p in b.plans
      ensures NotAgain(w, p, now, over) && p.leaseName == p.jobName && DueInTime(spec, startedAt, PlanKey(p), now)
    {
      var a := PlanMember(h, id, spec, now, startedAt, p);
      if Logged(w.log, PlanKey(p)) {
        var i :| 0 <= i < |w.log| && CreationKey(w.log[i]) == PlanKey(p);
        assert Secured(w, NameOf(h, id), startedAt, CreationKey(w.log[i]), now);
      }
    }
    forall i, p | 0 <= i < |w.log| && p in b.plans ensures Untouched(p, CreationKey(w.log[i]), NameOf(h, id), over) {
      BriefDispute(w, c, now, startedAt, CreationKey(w.log[i]), p);
    }
  }

  lemma BriefDispute(w: World, c: Controller, now: int, startedAt: int, k: TickKey, p: Plan)
    requires ReadyToPass(w, c, now, startedAt) && k in Born(w.fi.spec, startedAt, now)
    requires BuildPlans(c.hash, w.fi.id, w.fi.spec, now, startedAt).ok && p in BuildPlans(c.hash, w.fi.id, w.fi.spec, now, startedAt).plans
    ensures Untouched(p, k, NameOf(c.hash, w.fi.id), ShieldedKeys(w, startedAt, now))
  {
    var h, id, spec := c.hash, w.fi.id, w.fi.spec;
    if k !in ShieldedKeys(w, startedAt, now) {
      StillDue(spec, startedAt, k, now);
      var q := DueHasPlan(h, id, spec, now, startedAt, k);
      PlansAreDue(h, id, spec, now, startedAt);
      BuiltNamed(h, id, spec, now, startedAt);
      assert BriefAt(h, id, spec, startedAt, now);
    }
  }

  lemma PassShields(w: World, c: Controller, r: Round, startedAt: int)
    requires ReadyToPass(w, c, r.now, startedAt)
    ensures Shielding(PassOf(w, c, r), c, r.now)
  {
    var h, id, spec := c.hash, w.fi.id, w.fi.spec;
    var plans := BuildPlans(h, id, spec, r.now, startedAt).plans;
    var es := CallsFor(r, |plans|);
    var over := ShieldedKeys(w, startedAt, r.now);
    var w1 := PassOf(w, c, r);
    PassFitsShield(w, c, r.now, startedAt);
    BuiltNamed(h, id, spec, r.now, startedAt);
    PassKeepsOnceShielded(w, w.fi.status.ticks, plans, r.now, Holder(c), es, false, NameOf(h, id), over);
    PassMovesLeases(w, w.fi.status.ticks, plans, r.now, Holder(c), es, false, NameOf(h, id), |w.log|);
    MovesKeepLong(w, w1, r.now);
    Experiment.PassSameMesh(w, w.fi.status.ticks, plans, r.now, Holder(c), es, false);
    PassLogsItsOwn(w, w.fi.status.ticks, plans, r.now, Holder(c), es, false, OldOrDue(w, startedAt, r.now));
    forall i | 0 <= i < |w1.log|
      ensures CreationKey(w1.log[i]) in Born(spec, startedAt, r.now) && Secured(w1, NameOf(h, id), startedAt, CreationKey(w1.log[i]), r.now)
    {
      if i < |w.log| { OldStaysSecured(w, w1, c, r, startedAt, i); } else { NewIsSecured(w, w1, c, r, startedAt, i); }
    }
  }

  ghost function OldOrDue(w: World, startedAt: int, now: int): iset<TickKey> {
    iset k: TickKey | Logged(w.log, k) || DueInTime(w.fi.spec, startedAt, k, now)
  }

  lemma OldStaysSecured(w: World, w1: World, c: Controller, r: Round, startedAt: int, i: nat)
    requires ReadyToPass(w, c, r.now, startedAt) && w1 == PassOf(w, c, r) && i < |w.log|
    requires LeasesMoved(w, w1, r.now) && w1.fi.id == w.fi.id && w1.fi.spec == w.fi.spec
    requires Once(w1, NameOf(c.hash, w.fi.id), ShieldedKeys(w, startedAt, r.now))
    ensures w1.log[i] == w.log[i] && CreationKey(w1.log[i]) in Born(w.fi.spec, startedAt, r.now)
    ensures Secured(w1, NameOf(c.hash, w.fi.id), startedAt, CreationKey(w1.log[i]), r.now)
  {
    var name := NameOf(c.hash, w.fi.id);
    var k := CreationKey(w.log[i]);
    assert w1.log[i] == w.log[i];
    assert Secured(w, name, startedAt, k, r.now) && Kept(w1, k, name, ShieldedKeys(w, startedAt, r.now));
    if IsDone(w, k) {
      PassFinal(w, c, r, k, TickOf(w.fi.status.ticks, k).value);
    } else if k !in Over(w.fi.spec, startedAt, r.now) && Brief(w.fi.spec, startedAt, k) {
      ShieldMoves(w, w1, name(k), w.fi.spec, startedAt, k, r.now);
    }
  }

  lemma NewIsSecured(w: World, w1: World, c: Controller, r: Round, startedAt: int, i: nat)
    requires ReadyToPass(w, c, r.now, startedAt) && |w.log| <= i < |w1.log| && w.log <= w1.log && w1.fi.id == w.fi.id && w1.fi.spec == w.fi.spec
    requires LogWithin(w1.log, OldOrDue(w, startedAt, r.now)) && AllLong(w1.leases)
    requires Once(w1, NameOf(c.hash, w.fi.id), ShieldedKeys(w, startedAt, r.now)) && NewClaimed(w1, NameOf(c.hash, w.fi.id), |w.log|, r.now)
    ensures CreationKey(w1.log[i]) in Born(w.fi.spec, startedAt, r.now)
    ensures Secured(w1, NameOf(c.hash, w.fi.id), startedAt, CreationKey(w1.log[i]), r.now)
  {
    var name := NameOf(c.hash, w.fi.id);
    var k := CreationKey(w1.log[i]);
    assert forall j :: 0 <= j < |w.log| ==> w1.log[j] == w.log[j] && CreationKey(w1.log[j]) != k;
    assert DueInTime(w.fi.spec, startedAt, k, r.now);
    assert Kept(w1, k, name, ShieldedKeys(w, startedAt, r.now));
    if Brief(w.fi.spec, startedAt, k) { ClaimShields(w1, name(k), w.fi.spec, startedAt, k, r.now); }
  }

  // ---------------------------------------------------------------- whole runs

  /** Others leave the experiment's own Leases alone, and make none that is shorter than
      its own would be. */
  ghost predicate Courteous(w: World, ev: Experiment.Event) {
    ev.OtherLeases? ==> AllLong(ev.leases) && OwnLeasesStay(w, ev.leases)
  }

  ghost predicate OwnLeasesStay(w: World, leases: map<string, LeaseProtocol.Lease>) {
    forall n :: n in w.leases && Mine(w.fi.id, w.leases[n].owner) ==> n in leases && leases[n] == w.leases[n]
  }

  ghost predicate RealClock(ev: Experiment.Event) {
    ev.Reconciling? ==> ev.round.now >= LeaseProtocol.UNIX_EPOCH
  }

  ghost predicate CourteousRun(w: World, c: Controller, events: seq<Experiment.Event>)
    decreases events
  {
    events == [] || (Courteous(w, events[0]) && RealClock(events[0]) && CourteousRun(Experiment.Next(w, c, events[0]), c, events[1..]))
  }

  /** Cancelled for good, over, or under way behind its shield. */
  ghost predicate Guarded(w: World, c: Controller, t: int) {
    && Bounds(w.fi.spec) && ClashesBrief(c.hash, w.fi.id, w.fi.spec) && Stored(w.fi.status) && CreatedOnce(w.log)
    && (w.fi.spec.cancel || Experiment.Past(w, w.fi.spec.durationSeconds, t) || Shielding(w, c, t))
  }

  /** Time, the lifecycle write and what leaves own Jobs, Leases and the pod part alone. */
  lemma ShieldLasts(w: World, w1: World, c: Controller, t: int, now: int)
    requires Shielding(w, c, t) && t <= now && AllLong(w1.leases) && OwnLeasesStay(w, w1.leases) && OwnJobsStay(w, w1.jobs)
    requires w1.log == w.log && w1.fi.id == w.fi.id && w1.fi.status.ticks == w.fi.status.ticks && SamePodPart(w.fi.spec, w1.fi.spec)
    requires w.fi.status.startedAt.Some? ==> w1.fi.status.startedAt == w.fi.status.startedAt
    ensures Shielding(w1, c, now)
  {
    if w.log != [] {
      var s := StartOf(w.fi.status);
      SameSchedule(w.fi.spec, w1.fi.spec);
      forall i | 0 <= i < |w1.log|
        ensures CreationKey(w1.log[i]) in Born(w1.fi.spec, s, now)
        ensures Secured(w1, NameOf(c.hash, w1.fi.id), s, CreationKey(w1.log[i]), now)
      {
        var k := CreationKey(w.log[i]);
        assert k in Born(w.fi.spec, s, t) && Secured(w, NameOf(c.hash, w.fi.id), s, k, t);
        SecuredLasts(w, w1, NameOf(c.hash, w.fi.id), s, k, t, now);
      }
    }
  }

  lemma SameSchedule(s: Spec, s1: Spec)
    requires SamePodPart(s, s1)
    ensures forall startedAt, k, now :: DueAt(s1, startedAt, k, now) <==> DueAt(s, startedAt, k, now)
    ensures forall startedAt, k :: Brief(s1, startedAt, k) <==> Brief(s, startedAt, k)
  {
    forall startedAt, k, now ensures DueInTime(s1, startedAt, k, now) <==> DueInTime(s, startedAt, k, now) {}
  }

  lemma SecuredLasts(w: World, w1: World, name: TickKey -> string, startedAt: int, k: TickKey, t: int, now: int)
    requires Secured(w, name, startedAt, k, t) && t <= now && OwnLeasesStay(w, w1.leases) && OwnJobsStay(w, w1.jobs)
    requires w1.fi.id == w.fi.id && w1.fi.status.ticks == w.fi.status.ticks && SamePodPart(w.fi.spec, w1.fi.spec)
    ensures Secured(w1, name, startedAt, k, now)
  {
    SameSchedule(w.fi.spec, w1.fi.spec);
    assert IsDone(w1, k) <==> IsDone(w, k);
    if Held(w, name(k)) { assert SameJob(w.jobs, w1.jobs, name(k)); }
    if Shielded(w, name(k), w.fi.spec, startedAt, k, t) {
      forall y | y >= now && DueInTime(w1.fi.spec, startedAt, k, y) ensures !LeaseProtocol.Stale(w1.leases[name(k)], y) {
        assert DueInTime(w.fi.spec, startedAt, k, y);
      }
    }
  }

  lemma ClashesStayBrief(h: Helpers.Hash, id: Identity, s: Spec, s1: Spec)
    requires SamePodPart(s, s1) && ClashesBrief(h, id, s)
    ensures ClashesBrief(h, id, s1)
  {
    forall startedAt, now | startedAt % SECOND == 0 && now <= startedAt + s1.durationSeconds * SECOND ensures BriefAt(h, id, s1, startedAt, now) {
      assert BriefAt(h, id, s, startedAt, now);
      StaysBriefAt(h, id, s, s1, startedAt, now);
    }
  }

  lemma StaysBriefAt(h: Helpers.Hash, id: Identity, s: Spec, s1: Spec, startedAt: int, now: int)
    requires SamePodPart(s, s1) && BriefAt(h, id, s, startedAt, now)
    ensures BriefAt(h, id, s1, startedAt, now)
  {
    assert DuePlans(h, id, s1, s1.podFaults, now, startedAt) == DuePlans(h, id, s, s.podFaults, now, startedAt) by {
      DueByAge(h, id, s, s.podFaults, now, startedAt);
      DueByAge(h, id, s1, s1.podFaults, now, startedAt);
      SameDuePlans(h, id, s, s1, s.podFaults, now - startedAt);
    }
    assert forall k :: Brief(s1, startedAt, k) <==> Brief(s, startedAt, k) by { SameSchedule(s, s1); }
  }

  lemma RejectedShielding(w: World, c: Controller, now: int)
    requires Shielding(w, c, now) && NonePending(w, Over(w.fi.spec, StartOf(w.fi.status), now))
    ensures Shielding(Cleaned(w, c.render).WithPhase(Error), c, now)
  {
    var w1 := Cleaned(w, c.render).WithPhase(Error);
    assert forall k :: IsDone(w1, k) <==> IsDone(w, k);
    forall n | n in w1.leases ensures LeaseProtocol.EffectiveSeconds(w1.leases[n]) >= LeaseProtocol.DEFAULT_SECONDS { assert n in w.leases; }
  }

  lemma ActiveShields(w: World, c: Controller, r: Round)
    requires Timed(w.fi.status) && Acceptable(w, r) && ReadyToPass(w, c, r.now, w.fi.status.startedAt.value)
    ensures Shielding(Active(w, c, r).0, c, r.now)
  {
    Validation.ValidDereferenceable(w.fi.spec, r.meshCounts);
    var w1 := Injecting(w, c, r.order).0;
    InjectingSamePods(w, c, r.order);
    assert w1.leases == w.leases;
    ShieldLasts(w, w1, c, r.now, r.now);
    PassShields(w1, c, r, w.fi.status.startedAt.value);
    ExecutingIsPass(w1, c, r, w.fi.status.expiresAt.value);
  }

  lemma UnexpiredShields(l: World, c: Controller, r: Round)
    requires Timed(l.fi.status) && !l.fi.spec.cancel && r.now <= l.fi.status.expiresAt.value
    requires ReadyToPass(l, c, r.now, l.fi.status.startedAt.value)
    requires Acceptable(l, r) || NonePending(l, Over(l.fi.spec, StartOf(l.fi.status), r.now))
    ensures Shielding(Deciding(l, c, r).0, c, r.now)
  {
    if Acceptable(l, r) { ActiveShields(l, c, r); } else { RejectedShielding(l, c, r.now); }
  }

  lemma ReconcileStaysGuarded(w: World, c: Controller, r: Round, t: int)
    requires Guarded(w, c, t) && Orderly(w, Experiment.Reconciling(r), t) && RealClock(Experiment.Reconciling(r))
    ensures Guarded(Reconciled(w, c, r).0, c, r.now)
  {
    var l := WithLifecycle(w, r.lifecycleClock);
    LifecycleKeepsStart(w, r);
    Experiment.ReconcilePhases(w, c, r);
    if w.fi.spec.cancel {
    } else if Experiment.Past(w, w.fi.spec.durationSeconds, t) {
      Experiment.ReconcileStaysPast(w, c, r, w.fi.spec.durationSeconds, t);
    } else if r.now > l.fi.status.expiresAt.value {
      Experiment.ExpiryCompletes(w, c, r);
    } else {
      ShieldLasts(w, l, c, t, r.now);
      UnexpiredShields(l, c, r);
    }
  }

  lemma NextStaysGuarded(w: World, c: Controller, ev: Experiment.Event, t: int)
    requires Guarded(w, c, t) && Orderly(w, ev, t) && Courteous(w, ev) && RealClock(ev)
    ensures Guarded(Experiment.Next(w, c, ev), c, Clock(ev, t))
  {
    if ev.Reconciling? {
      ReconcileStaysGuarded(w, c, ev.round, t);
    } else {
      var w1 := Experiment.Next(w, c, ev);
      if ev.Editing? { ClashesStayBrief(c.hash, w.fi.id, w.fi.spec, ev.spec); }
      if ev.Settling? { FinishJobsKeys(w.jobs, ev.finished); }
      if Shielding(w, c, t) { ShieldLasts(w, w1, c, t, t); }
    }
  }

  /** At most once behind the Lease. Where plans due together share Jobs only for ticks that
      are over before a Lease of theirs runs out, no two Jobs are created for one (action,
      tick), whichever calls fail, as long as nobody else touches the experiment's Leases
      or makes shorter ones. */
  lemma {:induction false} AtMostOnceBehindLease(w: World, c: Controller, events: seq<Experiment.Event>, t: int)
    requires Guarded(w, c, t) && OrderlyRun(w, c, events, t) && CourteousRun(w, c, events)
    ensures CreatedOnce(Experiment.RunOf(w, c, events).log)
    decreases events
  {
    if events != [] {
      NextStaysGuarded(w, c, events[0], t);
      AtMostOnceBehindLease(Experiment.Next(w, c, events[0]), c, events[1..], Clock(events[0], t));
    }
  }

  // ---------------------------------------------------------------- a condition users can check

  /** Actions of one mode that are alike after sanitizing are windows of at most 70 seconds. */
  ghost predicate AlikeAreShort(actions: seq<PodAction>) {
    forall a, b :: a in actions && b in actions && IsWindowed(a) == IsWindowed(b) && Helpers.SanitizeName(a.name) == Helpers.SanitizeName(b.name) && a != b ==>
      IsWindowed(a) && a.window.Some? && 1 <= a.window.value.intervalSeconds <= 70
  }

  lemma ShortWindowBrief(spec: Spec, startedAt: int, a: PodAction, t: string)
    requires KeysApart(spec.podFaults) && a in spec.podFaults && IsWindowed(a) && a.window.Some? && 1 <= a.window.value.intervalSeconds <= 70
    requires Bounds(spec) && startedAt % SECOND == 0 && t != ONESHOT
    ensures Brief(spec, startedAt, (a.name, t))
  {
    forall x, y | DueInTime(spec, startedAt, (a.name, t), x) && DueInTime(spec, startedAt, (a.name, t), y) ensures y <= StoredMicroTime(x) + HOLD {
      OnlyDueAction(spec, startedAt, a, t, x);
      OnlyDueAction(spec, startedAt, a, t, y);
      SameTickNear(a, startedAt, t, spec.durationSeconds, x, y);
    }
  }

  lemma OnlyDueAction(spec: Spec, startedAt: int, a: PodAction, t: string, x: int)
    requires KeysApart(spec.podFaults) && a in spec.podFaults && IsWindowed(a) && t != ONESHOT && DueAt(spec, startedAt, (a.name, t), x)
    ensures DueTick(a, x, startedAt) == Some(t)
  {
    var b :| b in spec.podFaults && b.name == a.name && DueTick(b, x, startedAt) == Some(t);
    TickTellsMode(b, x, b, x, startedAt);
    KeysApartUnique(spec.podFaults, a, b);
  }

  /** Two times in one tick lie within its interval. */
  lemma SameTickNear(a: PodAction, startedAt: int, t: string, duration: int64, x: int, y: int)
    requires IsWindowed(a) && a.window.Some? && 1 <= a.window.value.intervalSeconds <= 70 && startedAt % SECOND == 0
    requires 0 < duration <= MAX_SECONDS && x <= startedAt + duration * SECOND && y <= startedAt + duration * SECOND
    requires DueTick(a, x, startedAt) == Some(t) && DueTick(a, y, startedAt) == Some(t)
    ensures y <= StoredMicroTime(x) + HOLD
  {
    var k := ComputeWindowedTick(a.window, x, startedAt).index;
    DecimalSame(k, ComputeWindowedTick(a.window, y, startedAt).index);
    InTick(a.window.value, startedAt, duration, x);
    InTick(a.window.value, startedAt, duration, y);
    TickStart(startedAt, k, a.window.value.intervalSeconds, x);
    NearInTick(startedAt, k, a.window.value.intervalSeconds * SECOND, StoredMicroTime(x), y);
  }

  lemma InTick(w: Window, startedAt: int, duration: int64, x: int)
    requires w.intervalSeconds >= 1 && 0 < duration <= MAX_SECONDS && startedAt <= x <= startedAt + duration * SECOND
    ensures var k := ComputeWindowedTick(Some(w), x, startedAt);
      k.Due? && startedAt + k.index * (w.intervalSeconds * SECOND) <= x < startedAt + (k.index + 1) * (w.intervalSeconds * SECOND)
  {
    assert Seconds(w.intervalSeconds) == w.intervalSeconds * SECOND;
    assert Elapsed(x, startedAt) == x - startedAt;
  }

  lemma NearInTick(start: int, k: nat, i: int, m: int, y: int)
    requires start + k * i <= m && y < start + (k + 1) * i && i <= HOLD
    ensures y <= m + HOLD
  {
    assert (k + 1) * i == k * i + i;
  }

  lemma DecimalSame(m: nat, n: nat)
    ensures Helpers.Decimal(m) == Helpers.Decimal(n) ==> m == n
  {
    if Helpers.Decimal(m) == Helpers.Decimal(n) { Helpers.DecimalInjective(m, n); }
  }

  /** The stored time does not fall before the tick it lies in. */
  lemma TickStart(startedAt: int, k: nat, interval: int, x: int)
    requires startedAt % SECOND == 0 && startedAt + k * (interval * SECOND) <= x
    ensures startedAt + k * (interval * SECOND) <= StoredMicroTime(x)
  {
    var begin := startedAt + k * (interval * SECOND);
    WholeStart(startedAt, k * interval);
    assert k * (interval * SECOND) == (k * interval) * SECOND;
    if begin < x { LeaseProtocol.CutAfterWhole(begin, x); }
  }

  lemma WholeStart(startedAt: int, m: int)
    requires startedAt % SECOND == 0
    ensures (startedAt + m * SECOND) % MICROSECOND == 0
  {
    var q := startedAt / SECOND;
    assert startedAt + m * SECOND == 1000 * ((q + m) * 1_000_000);
    LeaseProtocol.Multiple((q + m) * 1_000_000);
  }

  /** So `Kill` and `kill` are harmless with windows of at most 70 seconds. */
  lemma ShortWindowsBrief(h: Helpers.Hash, id: Identity, spec: Spec)
    requires KeysApart(spec.podFaults) && RoomForTicks(id, spec) && AlikeAreShort(spec.podFaults) && Bounds(spec)
    ensures ClashesBrief(h, id, spec)
  {
    forall startedAt, now | startedAt % SECOND == 0 && now <= startedAt + spec.durationSeconds * SECOND ensures BriefAt(h, id, spec, startedAt, now) {
      var plans := DuePlans(h, id, spec, spec.podFaults, now, startedAt);
      forall p, q | p in plans && q in plans && p.jobName == q.jobName && PlanKey(p) != PlanKey(q) ensures Brief(spec, startedAt, PlanKey(p)) {
        ShortClash(h, id, spec, startedAt, now, p, q);
      }
    }
  }

  lemma ShortClash(h: Helpers.Hash, id: Identity, spec: Spec, startedAt: int, now: int, p: Plan, q: Plan)
    requires KeysApart(spec.podFaults) && RoomForTicks(id, spec) && AlikeAreShort(spec.podFaults) && Bounds(spec) && startedAt % SECOND == 0
    requires var plans := DuePlans(h, id, spec, spec.podFaults, now, startedAt); p in plans && q in plans
    requires p.jobName == q.jobName && PlanKey(p) != PlanKey(q)
    ensures Brief(spec, startedAt, PlanKey(p))
  {
    var a := PlanMember(h, id, spec, now, startedAt, p);
    var b := PlanMember(h, id, spec, now, startedAt, q);
    assert IsWindowed(a) == IsWindowed(b) && Helpers.SanitizeName(a.name) == Helpers.SanitizeName(b.name) && p.tick == q.tick by {
      SameJobAlike(h, id, spec, startedAt, now, a, b);
    }
    assert a != b;
    TickTellsMode(a, now, a, now, startedAt);
    ShortWindowBrief(spec, startedAt, a, p.tick);
  }

  lemma SameJobAlike(h: Helpers.Hash, id: Identity, spec: Spec, startedAt: int, now: int, a: PodAction, b: PodAction)
    requires RoomForTicks(id, spec) && a in spec.podFaults && b in spec.podFaults
    requires DueTick(a, now, startedAt).Some? && DueTick(b, now, startedAt).Some?
    requires PodFaultName(h, id, a.name, DueTick(a, now, startedAt).value) == PodFaultName(h, id, b.name, DueTick(b, now, startedAt).value)
    ensures IsWindowed(a) == IsWindowed(b) && Helpers.SanitizeName(a.name) == Helpers.SanitizeName(b.name) && DueTick(a, now, startedAt) == DueTick(b, now, startedAt)
  {
    RoomIsReadable(h, id, spec, a, now, startedAt);
    RoomIsReadable(h, id, spec, b, now, startedAt);
    ReadableNameInjective(id, a.name, DueTick(a, now, startedAt).value, b.name, DueTick(b, now, startedAt).value);
    TickTellsMode(a, now, b, now, startedAt);
  }
}
