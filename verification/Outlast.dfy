/** Where the Lease stops protecting: a tick that stays due longer than a Lease holds, and
    shares its Job, runs twice with nobody else near the experiment's Leases. */
module Outlast {
  import opened Wrappers
  import opened Machine
  import Helpers
  import PodSelection
  import opened Names
  import opened Api
  import LeaseProtocol
  import opened Cluster
  import opened Validation
  import opened Ticks
  import opened Protocol
  import opened Execution
  import opened Apart
  import opened Lifecycle
  import opened Cleanup
  import opened Reconciler
  import Experiment
  import opened Lifetime
  import opened Rehearsal
  import opened Stage
  import opened Exact
  import opened Shield

  // ---------------------------------------------------------------- courteous turns

  lemma CourteousEvent(w: World, c: Controller, ev: Experiment.Event)
    ensures CourteousRun(w, c, [ev]) <==> Courteous(w, ev) && RealClock(ev)
  {
    assert [ev][1..] == [];
  }

  lemma CourteousTurn(w: World, c: Controller, events: seq<Experiment.Event>, leases: map<string, LeaseProtocol.Lease>, now: int, pods: seq<PodSelection.Pod>)
    requires TurnWith(events, leases) && EventsAt(events, now, pods) && now >= LeaseProtocol.UNIX_EPOCH
    requires AllLong(leases) && OwnLeasesStay(w, leases)
    ensures CourteousRun(w, c, events)
  {
    assert EventAt(events[1], now, pods);
    assert events[1..] == [events[1]];
    CourteousEvent(w.(leases := leases), c, events[1]);
  }

  lemma {:induction false} CourteousJoin(w: World, c: Controller, a: seq<Experiment.Event>, b: seq<Experiment.Event>)
    requires CourteousRun(w, c, a) && CourteousRun(Experiment.RunOf(w, c, a), c, b)
    ensures CourteousRun(w, c, a + b)
    decreases a
  {
    if a == [] {
      assert a + b == b;
    } else {
      assert (a + b)[0] == a[0] && (a + b)[1..] == a[1..] + b;
      CourteousJoin(Experiment.Next(w, c, a[0]), c, a[1..], b);
    }
  }

  /** Leases of which only `n` is the experiment's own. */
  ghost predicate OnlyOwn(id: Identity, leases: map<string, LeaseProtocol.Lease>, n: string) {
    forall m :: m in leases && Mine(id, leases[m].owner) ==> m == n
  }

  lemma StrangersLeases(id: Identity, plans: seq<Plan>, free: string, now: int, own: map<string, LeaseProtocol.Lease>, n: string)
    requires own.Keys <= {n} && AllLong(own)
    ensures var leases := CrowdedLeases(id, plans, free, now, own);
      AllLong(leases) && OnlyOwn(id, leases, n) && (forall m :: m in own ==> leases[m] == own[m])
  {
    assert |id.name + "'"| != |id.name|;
  }

  // ---------------------------------------------------------------- the run

  /** Plan x launches at the start and is booked by plan y; when its Lease has run out and
      the tick is due still, it launches again. */
  ghost predicate Outlasted(s: Setting, later: int, x: nat, y: nat, z: nat) {
    var plans, again := PlansAt(s, s.start), PlansAt(s, later);
    && InTime(s, s.start) && InTime(s, later) && later > StoredMicroTime(s.start) + HOLD
    && x < |plans| && y < |plans| && z < |again| && again[z] == plans[x]
    && plans[y].jobName == plans[x].jobName && PlanKey(plans[y]) != PlanKey(plans[x])
    && (forall i :: 0 <= i < x ==> plans[i].jobName != plans[x].jobName)
    && (forall i :: 0 <= i < z ==> again[i].jobName != plans[x].jobName)
  }

  function OwnLease(s: Setting, n: string): map<string, LeaseProtocol.Lease> {
    map[n := LeaseProtocol.NewLease(LeaseProtocol.Owner(s.id.name, s.id.uid), Holder(s.c), s.start)]
  }

  lemma OwnLeaseLasts(s: Setting, n: string, later: int)
    requires s.start >= LeaseProtocol.UNIX_EPOCH
    ensures OwnHold(OwnLease(s, n), s.start) && AllLong(OwnLease(s, n))
    ensures later > StoredMicroTime(s.start) + HOLD ==> OwnStale(OwnLease(s, n), n, later)
  {
    LeaseProtocol.WindowBounds(OwnLease(s, n)[n]);
  }

  /** First turn: the Job is created behind a Lease of the experiment's own. */
  lemma Opening(s: Setting, w: World, size: nat, x: nat) returns (events: seq<Experiment.Event>, jobs: map<string, Job>)
    requires Viable(s) && Admitted(s.spec) && s.pods == Crowd(size) && size >= 1 && Scene(s, w, map[], [], iset{}) && w.leases == map[]
    requires InTime(s, s.start) && x < |PlansAt(s, s.start)|
    requires forall i :: 0 <= i < x ==> PlansAt(s, s.start)[i].jobName != PlansAt(s, s.start)[x].jobName
    ensures OrderlyRun(w, s.c, events, s.start) && EventsAt(events, s.start, s.pods) && CourteousRun(w, s.c, events)
    ensures var p := PlansAt(s, s.start)[x];
      && Scene(s, Experiment.RunOf(w, s.c, events), jobs, [] + [Creation(p.action, p.tick, PickOf(s, p))], iset{})
      && OneRunning(jobs, p.jobName) && PickOf(s, p) != []
      && OwnOnly(s, Experiment.RunOf(w, s.c, events), p.jobName)
  {
    var plans := PlansAt(s, s.start);
    var p := plans[x];
    SomePicked(s, s.start, size, p);
    StrangersLeases(s.id, plans, p.jobName, s.start, map[], p.jobName);
    PlansLetIn(s, s.start);
    LeasedIsOwn(s, w, plans, p);
    events, jobs := LaunchTurn(s, w, [], iset{}, s.start, s.start, x, map[]);
    CourteousTurn(w, s.c, events, CrowdedLeases(s.id, plans, p.jobName, s.start, map[]), s.start, s.pods);
  }

  lemma LeasedIsOwn(s: Setting, w: World, plans: seq<Plan>, p: Plan)
    requires w.fi.id == s.id && p in plans && p.leaseName == p.jobName
    ensures var leases := Leased(CrowdedWorld(w, plans, p.jobName, s.start, map[]), p, s.start, Holder(s.c));
      OnlyOwn(s.id, leases, p.jobName) && p.jobName in leases && leases[p.jobName] == OwnLease(s, p.jobName)[p.jobName]
  {
    StrangersLeases(s.id, plans, p.jobName, s.start, map[], p.jobName);
  }

  /** The experiment's one Lease is as it was made at the start. */
  ghost predicate OwnOnly(s: Setting, w: World, n: string) {
    w.fi.id == s.id && OnlyOwn(s.id, w.leases, n) && n in w.leases && w.leases[n] == OwnLease(s, n)[n]
  }

  lemma OwnIsKept(s: Setting, w: World, n: string, plans: seq<Plan>, free: string, now: int)
    requires OwnOnly(s, w, n) && s.start >= LeaseProtocol.UNIX_EPOCH
    ensures var leases := CrowdedLeases(s.id, plans, free, now, OwnLease(s, n));
      && AllLong(leases) && OwnLeasesStay(w, leases) && OnlyOwn(s.id, leases, n) && n in leases && leases[n] == OwnLease(s, n)[n]
  {
    OwnLeaseLasts(s, n, s.start);
    StrangersLeases(s.id, plans, free, now, OwnLease(s, n), n);
  }

  /** Second turn: another plan books the Job. */
  lemma Booking(s: Setting, w: World, jobs: map<string, Job>, log: seq<Creation>, y: nat) returns (events: seq<Experiment.Event>)
    requires Viable(s) && Scene(s, w, jobs, log, iset{}) && InTime(s, s.start) && y < |PlansAt(s, s.start)|
    requires var n := PlansAt(s, s.start)[y].jobName; OneRunning(jobs, n) && OwnOnly(s, w, n)
    ensures OrderlyRun(w, s.c, events, s.start) && EventsAt(events, s.start, s.pods) && CourteousRun(w, s.c, events)
    ensures var q := PlansAt(s, s.start)[y];
      Scene(s, Experiment.RunOf(w, s.c, events), map[], log, iset{PlanKey(q)}) && OwnOnly(s, Experiment.RunOf(w, s.c, events), q.jobName)
  {
    var plans := PlansAt(s, s.start);
    var n := plans[y].jobName;
    OwnLeaseLasts(s, n, s.start);
    OwnIsKept(s, w, n, plans, "", s.start);
    events := FinishTurn(s, w, jobs, log, iset{}, s.start, s.start, y, OwnLease(s, n));
    CourteousTurn(w, s.c, events, CrowdedLeases(s.id, plans, "", s.start, OwnLease(s, n)), s.start, s.pods);
    assert iset{} + iset{PlanKey(plans[y])} == iset{PlanKey(plans[y])};
  }

  /** Third turn: the Lease has run out, and the Job is created again. */
  lemma Relaunching(s: Setting, w: World, log: seq<Creation>, closed: iset<TickKey>, later: int, z: nat) returns (events: seq<Experiment.Event>)
    requires Viable(s) && Scene(s, w, map[], log, closed) && InTime(s, later) && later > StoredMicroTime(s.start) + HOLD
    requires z < |PlansAt(s, later)| && PlanKey(PlansAt(s, later)[z]) !in closed && PickOf(s, PlansAt(s, later)[z]) != []
    requires OwnOnly(s, w, PlansAt(s, later)[z].jobName)
    requires forall i :: 0 <= i < z ==> PlansAt(s, later)[i].jobName != PlansAt(s, later)[z].jobName
    ensures OrderlyRun(w, s.c, events, later) && EventsAt(events, later, s.pods) && CourteousRun(w, s.c, events)
    ensures var p := PlansAt(s, later)[z]; RunLog(w, s.c, events) == log + [Creation(p.action, p.tick, PickOf(s, p))]
  {
    var plans := PlansAt(s, later);
    var n := plans[z].jobName;
    OwnLeaseLasts(s, n, later);
    OwnIsKept(s, w, n, plans, n, later);
    var jobs;
    events, jobs := LaunchTurn(s, w, log, closed, later, later, z, OwnLease(s, n));
    CourteousTurn(w, s.c, events, CrowdedLeases(s.id, plans, n, later, OwnLease(s, n)), later, s.pods);
  }

  lemma OutlastRepeats(s: Setting, w: World, size: nat, later: int, x: nat, y: nat, z: nat) returns (events: seq<Experiment.Event>)
    requires Viable(s) && Admitted(s.spec) && s.pods == Crowd(size) && size >= 1 && Scene(s, w, map[], [], iset{}) && w.leases == map[]
    requires Outlasted(s, later, x, y, z)
    ensures OrderlyRun(w, s.c, events, s.start) && (forall i :: 0 <= i < |events| ==> RealEvent(events[i], size)) && CourteousRun(w, s.c, events)
    ensures !CreatedOnce(RunLog(w, s.c, events))
  {
    var plans := PlansAt(s, s.start);
    var made := Creation(plans[x].action, plans[x].tick, PickOf(s, plans[x]));
    var a, jobs := Opening(s, w, size, x);
    var wa := Experiment.RunOf(w, s.c, a);
    var b := Booking(s, wa, jobs, [] + [made], y);
    var wb := Experiment.RunOf(wa, s.c, b);
    var d := Relaunching(s, wb, [] + [made], iset{PlanKey(plans[y])}, later, z);
    TwiceOver(made, made);
    events := ThreeJoin(s, w, a, b, d, later, size);
  }

  lemma ThreeJoin(s: Setting, w: World, a: seq<Experiment.Event>, b: seq<Experiment.Event>, d: seq<Experiment.Event>, later: int, size: nat) returns (events: seq<Experiment.Event>)
    requires s.pods == Crowd(size) && LeaseProtocol.UNIX_EPOCH <= s.start <= later
    requires OrderlyRun(w, s.c, a, s.start) && EventsAt(a, s.start, s.pods) && CourteousRun(w, s.c, a)
    requires var wa := Experiment.RunOf(w, s.c, a);
      OrderlyRun(wa, s.c, b, s.start) && EventsAt(b, s.start, s.pods) && CourteousRun(wa, s.c, b)
    requires var wb := Experiment.RunOf(Experiment.RunOf(w, s.c, a), s.c, b);
      OrderlyRun(wb, s.c, d, later) && EventsAt(d, later, s.pods) && CourteousRun(wb, s.c, d)
    ensures OrderlyRun(w, s.c, events, s.start) && (forall i :: 0 <= i < |events| ==> RealEvent(events[i], size)) && CourteousRun(w, s.c, events)
    ensures Experiment.RunOf(w, s.c, events) == Experiment.RunOf(Experiment.RunOf(Experiment.RunOf(w, s.c, a), s.c, b), s.c, d)
  {
    var ab := a + b;
    TurnsJoin(w, s.c, a, b, s.start, s.start, s.pods);
    assert EventsAt(ab, s.start, s.pods);
    CourteousJoin(w, s.c, a, b);
    RunJoins(w, s.c, ab, d);
    LaterStart(Experiment.RunOf(w, s.c, ab), s.c, d, s.start, later);
    OrderJoins(w, s.c, ab, d, s.start, s.start, s.pods);
    CourteousJoin(w, s.c, ab, d);
    RealAt(ab, s.start, size);
    RealAt(d, later, size);
    events := ab + d;
  }

  // ---------------------------------------------------------------- which specs outlast

  predicate Alike(a: PodAction, b: PodAction) {
    IsWindowed(a) == IsWindowed(b) && Helpers.SanitizeName(a.name) == Helpers.SanitizeName(b.name)
  }

  /** Actions of one mode that are alike after sanitizing keep one interval. */
  ghost predicate OneRhythm(actions: seq<PodAction>) {
    forall a, b :: a in actions && b in actions && Alike(a, b) && IsWindowed(a) && a.window.Some? && b.window.Some? ==>
      a.window.value.intervalSeconds == b.window.value.intervalSeconds
  }

  /** The first action of its likes launches first, whenever it is due. */
  lemma FirstOfItsLike(h: Helpers.Hash, id: Identity, spec: Spec, i: nat, now: int, startedAt: int) returns (x: nat)
    requires RoomForTicks(id, spec) && i < |spec.podFaults| && DueTick(spec.podFaults[i], now, startedAt).Some?
    requires forall j :: 0 <= j < i ==> !Alike(spec.podFaults[j], spec.podFaults[i])
    ensures var a, plans := spec.podFaults[i], DuePlans(h, id, spec, spec.podFaults, now, startedAt);
      && x < |plans| && PlanFor(h, id, spec, a, DueTick(a, now, startedAt).value) == Some(plans[x])
      && forall j :: 0 <= j < x ==> plans[j].jobName != plans[x].jobName
  {
    var a := spec.podFaults[i];
    RoomIsReadable(h, id, spec, a, now, startedAt);
    x := PlaceOf(h, id, spec, i, DueTick(a, now, startedAt).value, now, startedAt);
    NoLikeBefore(h, id, spec, spec.podFaults[..i], a, now, startedAt);
  }

  lemma NoLikeBefore(h: Helpers.Hash, id: Identity, spec: Spec, before: seq<PodAction>, a: PodAction, now: int, startedAt: int)
    requires RoomForTicks(id, spec) && a in spec.podFaults && DueTick(a, now, startedAt).Some?
    requires forall b :: b in before ==> b in spec.podFaults && !Alike(b, a)
    ensures forall p :: p in DuePlans(h, id, spec, before, now, startedAt) ==> Some(p.jobName) != PodFaultName(h, id, a.name, DueTick(a, now, startedAt).value)
  {
    DuePlansMembers(h, id, spec, before, now, startedAt);
    forall p | p in DuePlans(h, id, spec, before, now, startedAt) ensures Some(p.jobName) != PodFaultName(h, id, a.name, DueTick(a, now, startedAt).value) {
      var b :| b in before && PlanOf(p, h, id, spec, b, now, startedAt);
      if Some(p.jobName) == PodFaultName(h, id, a.name, DueTick(a, now, startedAt).value) { SameJobAlike(h, id, spec, startedAt, now, b, a); }
    }
  }

  /** Alike actions due with one tick share their Job. */
  lemma AlikeSharesJob(h: Helpers.Hash, id: Identity, spec: Spec, a: PodAction, b: PodAction, now: int, startedAt: int) returns (y: nat)
    requires RoomForTicks(id, spec) && a in spec.podFaults && b in spec.podFaults && Alike(a, b)
    requires DueTick(a, now, startedAt).Some? && DueTick(b, now, startedAt) == DueTick(a, now, startedAt)
    ensures var t, plans := DueTick(a, now, startedAt).value, DuePlans(h, id, spec, spec.podFaults, now, startedAt);
      && y < |plans| && PlanKey(plans[y]) == (b.name, t) && Some(plans[y].jobName) == PodFaultName(h, id, a.name, t)
  {
    var t := DueTick(a, now, startedAt).value;
    AlikeNames(h, id, spec, a, b, now, startedAt);
    var j :| 0 <= j < |spec.podFaults| && spec.podFaults[j] == b;
    y := PlaceOf(h, id, spec, j, t, now, startedAt);
  }

  lemma AlikeNames(h: Helpers.Hash, id: Identity, spec: Spec, a: PodAction, b: PodAction, now: int, startedAt: int)
    requires RoomForTicks(id, spec) && a in spec.podFaults && b in spec.podFaults && Alike(a, b)
    requires DueTick(a, now, startedAt).Some? && DueTick(b, now, startedAt) == DueTick(a, now, startedAt)
    ensures var t := DueTick(a, now, startedAt).value;
      PodFaultName(h, id, b.name, t).Some? && PodFaultName(h, id, b.name, t) == PodFaultName(h, id, a.name, t)
  {
    var t := DueTick(a, now, startedAt).value;
    RoomIsReadable(h, id, spec, a, now, startedAt);
    RoomIsReadable(h, id, spec, b, now, startedAt);
    ReadableNameInjective(id, a.name, t, b.name, t);
  }

  /** No window, or one longer than a Lease holds. */
  predicate Lasting(a: PodAction) {
    IsWindowed(a) ==> a.window.Some? && a.window.value.intervalSeconds > 70
  }

  lemma LastingDue(a: PodAction, startedAt: int, now: int)
    requires Lasting(a) && startedAt <= now <= startedAt + HOLD + 1
    ensures DueTick(a, now, startedAt) == Some(if IsWindowed(a) then Helpers.Decimal(0) else ONESHOT)
  {
    if IsWindowed(a) {
      var i: int := a.window.value.intervalSeconds;
      assert Seconds(i) == i * SECOND;
      assert Elapsed(now, startedAt) == now - startedAt;
      FirstQuotient(now - startedAt, i * SECOND);
    }
  }

  lemma FirstQuotient(e: nat, i: int)
    requires e < i
    ensures Quotient(e, i) == 0
  {
  }

  /** With lasting actions that are alike there is a run that outlasts the Lease. */
  lemma AlikeOutlasts(s: Setting, i: nat, j: nat) returns (later: int, x: nat, y: nat, z: nat)
    requires RoomForTicks(s.id, s.spec) && s.spec.durationSeconds > 70 && s.start % SECOND == 0
    requires i < |s.spec.podFaults| && j < |s.spec.podFaults|
    requires var a, b := s.spec.podFaults[i], s.spec.podFaults[j]; Alike(a, b) && a.name != b.name && Lasting(a) && Lasting(b)
    requires forall k :: 0 <= k < i ==> !Alike(s.spec.podFaults[k], s.spec.podFaults[i])
    ensures Outlasted(s, later, x, y, z)
  {
    var a, b := s.spec.podFaults[i], s.spec.podFaults[j];
    later := s.start + HOLD + 1;
    LastingDue(a, s.start, s.start);
    LastingDue(b, s.start, s.start);
    LastingDue(a, s.start, later);
    x := FirstOfItsLike(s.c.hash, s.id, s.spec, i, s.start, s.start);
    y := AlikeSharesJob(s.c.hash, s.id, s.spec, a, b, s.start, s.start);
    z := FirstOfItsLike(s.c.hash, s.id, s.spec, i, later, s.start);
  }

  /** Some first of its likes and another, both lasting. */
  lemma SomeLasting(spec: Spec, id: Identity, counts: PodCounts) returns (i: nat, j: nat)
    requires PodsValid(id, spec, counts) && KeysApart(spec.podFaults) && OneRhythm(spec.podFaults) && !AlikeAreShort(spec.podFaults)
    ensures i < |spec.podFaults| && j < |spec.podFaults| && (forall k :: 0 <= k < i ==> !Alike(spec.podFaults[k], spec.podFaults[i]))
    ensures var a, b := spec.podFaults[i], spec.podFaults[j]; Alike(a, b) && a.name != b.name && Lasting(a) && Lasting(b)
  {
    var a, b :| a in spec.podFaults && b in spec.podFaults && Alike(a, b) && a != b
      && !(IsWindowed(a) && a.window.Some? && 1 <= a.window.value.intervalSeconds <= 70);
    AllWindowed(spec, id, counts);
    i, j := FirstAndOther(spec.podFaults, a, b);
  }

  lemma FirstAndOther(actions: seq<PodAction>, a: PodAction, b: PodAction) returns (i: nat, j: nat)
    requires KeysApart(actions) && a in actions && b in actions && Alike(a, b) && a != b
    ensures i < |actions| && j < |actions| && Alike(actions[i], a) && Alike(actions[j], a) && actions[i].name != actions[j].name
    ensures forall k :: 0 <= k < i ==> !Alike(actions[k], actions[i])
  {
    var like := (k: nat) => k < |actions| && Alike(actions[k], a);
    var m :| 0 <= m < |actions| && actions[m] == a;
    i := FirstTrue(like, 0, m);
    forall k | 0 <= k < i ensures !Alike(actions[k], actions[i]) { assert !like(k); }
    var other := if actions[i] == a then b else a;
    j :| 0 <= j < |actions| && actions[j] == other;
    if actions[i].name == other.name { KeysApartUnique(actions, actions[i], other); }
  }

  lemma AllWindowed(spec: Spec, id: Identity, counts: PodCounts)
    requires PodsValid(id, spec, counts)
    ensures forall a :: a in spec.podFaults && IsWindowed(a) ==> a.window.Some? && a.window.value.intervalSeconds >= 1
  {
    forall a | a in spec.podFaults && IsWindowed(a) ensures a.window.Some? && a.window.value.intervalSeconds >= 1 {
      var i :| 0 <= i < |spec.podFaults| && spec.podFaults[i] == a;
      assert ValidPodAction(id, spec.podFaults[i], counts(i));
    }
  }

  lemma FirstTrue(f: nat -> bool, lo: nat, hi: nat) returns (i: nat)
    requires lo <= hi && f(hi) && forall k: nat :: k < lo ==> !f(k)
    ensures i <= hi && f(i) && forall k: nat :: k < i ==> !f(k)
    decreases hi - lo
  {
    if f(lo) { i := lo; } else { i := FirstTrue(f, lo + 1, hi); }
  }

  // ---------------------------------------------------------------- at most once, Leases untouched

  /** Every run with the experiment's Leases left alone, at most once. */
  ghost predicate AlwaysOnceUntouched(c: Controller, id: Identity, spec: Spec, size: nat) {
    forall w: World, events: seq<Experiment.Event>, t: int ::
      RealRun(w, c, id, spec, events, t, size) && AllLong(w.leases) && CourteousRun(w, c, events) ==> CreatedOnce(RunLog(w, c, events))
  }

  /** The exact condition with the Leases left alone, for experiments that outlast a Lease:
      names that are alike only between windows of at most 70 seconds. */
  lemma AtMostOnceUntouched(c: Controller, id: Identity, spec: Spec, meshCounts: PodCounts, podCounts: PodCounts, size: nat)
    requires ValidSpec(id, spec, meshCounts, podCounts) && !spec.cancel && 70 < spec.durationSeconds <= MAX_SECONDS && '/' !in id.ns
    requires RoomForTicks(id, spec) && Admitted(spec) && Admits(spec, size) && KeysApart(spec.podFaults) && OneRhythm(spec.podFaults)
    ensures AlwaysOnceUntouched(c, id, spec, size) <==> AlikeAreShort(spec.podFaults)
  {
    if AlikeAreShort(spec.podFaults) {
      ShortWindowsBrief(c.hash, id, spec);
      forall w: World, events: seq<Experiment.Event>, t: int | RealRun(w, c, id, spec, events, t, size) && AllLong(w.leases) && CourteousRun(w, c, events)
        ensures CreatedOnce(RunLog(w, c, events))
      {
        AtMostOnceBehindLease(w, c, events, t);
      }
    } else {
      RoomIsNameable(c.hash, id, spec);
      var w, events, t := OutlastingRun(c, id, spec, meshCounts, podCounts, size);
      assert RealRun(w, c, id, spec, events, t, size);
    }
  }

  lemma OutlastingRun(c: Controller, id: Identity, spec: Spec, meshCounts: PodCounts, podCounts: PodCounts, size: nat) returns (w: World, events: seq<Experiment.Event>, t: int)
    requires Sound(c, id, spec, meshCounts, podCounts) && Admitted(spec) && Admits(spec, size) && spec.durationSeconds > 70
    requires RoomForTicks(id, spec) && KeysApart(spec.podFaults) && OneRhythm(spec.podFaults) && !AlikeAreShort(spec.podFaults)
    ensures RealRun(w, c, id, spec, events, t, size) && AllLong(w.leases) && CourteousRun(w, c, events)
    ensures !CreatedOnce(RunLog(w, c, events))
  {
    var i, j := SomeLasting(spec, id, podCounts);
    var s;
    s, w := SetStage(c, id, spec, meshCounts, podCounts, size);
    var later, x, y, z := AlikeOutlasts(s, i, j);
    events := OutlastRepeats(s, w, size, later, x, y, z);
    t := s.start;
  }
}
