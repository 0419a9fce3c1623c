/** Where the code's guarantees end: at-most-once execution and the documented promise of
    window.maxTotalPodsAffected hold over every run exactly under conditions on the spec. */
module Exact {
  import opened Wrappers
  import opened Machine
  import Ordering
  import opened Helpers
  import opened Names
  import opened Api
  import opened VirtualServices
  import opened Cluster
  import opened Mesh
  import opened Validation
  import opened Targets
  import opened Ticks
  import opened Protocol
  import opened Execution
  import opened Apart
  import opened Lifecycle
  import opened Cleanup
  import opened Reconciler
  import opened Lifetime
  import opened Stage
  import Experiment
  import LeaseProtocol
  import PodSelection

  // ---------------------------------------------------------------- the runs meant

  /** Clocks a controller can read, and no listing longer than `size`. */
  ghost predicate RealEvent(ev: Experiment.Event, size: nat) {
    ev.Reconciling? ==>
      && ev.round.now >= LeaseProtocol.UNIX_EPOCH && ev.round.lifecycleClock >= LeaseProtocol.UNIX_EPOCH
      && Listings(ev, size)
  }

  /** A run of the experiment from before its first Job. */
  ghost predicate RealRun(w: World, c: Controller, id: Identity, spec: Spec, events: seq<Experiment.Event>, t: int, size: nat) {
    && w.fi.id == id && w.fi.spec == spec && w.log == [] && Stored(w.fi.status)
    && OrderlyRun(w, c, events, t)
    && forall i :: 0 <= i < |events| ==> RealEvent(events[i], size)
  }

  /** What the controller lets through: a valid, uncancelled spec whose ticks can all be
      named, in a namespace without a slash. */
  ghost predicate Sound(c: Controller, id: Identity, spec: Spec, meshCounts: PodCounts, podCounts: PodCounts) {
    && ValidSpec(id, spec, meshCounts, podCounts) && !spec.cancel && spec.durationSeconds <= MAX_SECONDS
    && '/' !in id.ns && AllNameable(c.hash, id, spec)
  }

  /** All guardrails let `size` pods in, and 32 bits hold them. */
  ghost predicate Admits(spec: Spec, size: nat) {
    1 <= size <= MAX_INT32 && forall a :: a in spec.podFaults ==> a.refuseIfPodsLessThan <= size
  }

  // ---------------------------------------------------------------- a world to begin in

  const USER_SERVICE := VirtualService(map[], Obj(map["http" := List([Obj(map["route" := List([Null])])])]))

  /** A routed VirtualService of the user's for every INBOUND target. */
  function Hosts(desired: map<string, Wanted>): Store {
    map k | k in desired && !desired[k].managed :: SplitKey(k) := USER_SERVICE
  }

  lemma HostsFit(id: Identity, actions: seq<MeshAction>, render: Render)
    requires AllDereferenceable(actions) && '/' !in id.ns
    ensures var d := DesiredByTarget(id, actions);
      Experiment.TargetsFit(id, actions, Hosts(d), render) && Experiment.InboundKept(id, d, Hosts(d))
  {
    var d := DesiredByTarget(id, actions);
    forall k | k in d ensures ApplyOne(id, Lookup(Hosts(d), SplitKey(k)), d[k], render).Applied? {
      if !d[k].managed {
        assert SplitKey(k) in Hosts(d);
        UserServiceFits(id, d[k], render);
      } else if SplitKey(k) in Hosts(d) {
        var j :| j in d && !d[j].managed && SplitKey(j) == SplitKey(k);
        Experiment.TargetParts(id, actions, j);
        Experiment.TargetParts(id, actions, k);
        assert false;
      }
    }
  }

  lemma UserServiceFits(id: Identity, d: Wanted, render: Render)
    requires !d.managed
    ensures ApplyOne(id, Some(USER_SERVICE), d, render).Applied?
  {
    var list := HttpOf(USER_SERVICE.spec);
    assert list == [Obj(map["route" := List([Null])])] && RouteOf(list[0]) == Some([Null]);
  }

  /** Some store in which the rules are in place, and stay so. */
  lemma RulesInPlace(id: Identity, actions: seq<MeshAction>, render: Render) returns (vss: Store, order: seq<string>)
    requires AllDereferenceable(actions) && '/' !in id.ns
    ensures ApplyAll(id, vss, DesiredByTarget(id, actions), order, render) == (vss, NoFailure)
    ensures Orphans(id, vss, ManagedKeys(id, actions)) == {}
  {
    var d := DesiredByTarget(id, actions);
    order := Listing(d.Keys);
    HostsFit(id, actions, render);
    Experiment.FitIsNoFailure(id, actions, Hosts(d), order, render);
    Experiment.SteadyStore(id, actions, Hosts(d), order, order, render);
    var after := ApplyAll(id, Hosts(d), d, order, render).0;
    vss := after - Orphans(id, after, ManagedKeys(id, actions));
  }

  function Crowd(size: nat): (pods: seq<PodSelection.Pod>)
    ensures |pods| == size && forall p :: p in pods ==> !p.terminating
  {
    seq(size, i requires 0 <= i < size => PodSelection.Pod(Decimal(i), false))
  }

  lemma {:induction false} LiveAll(pods: seq<PodSelection.Pod>)
    requires forall p :: p in pods ==> !p.terminating
    ensures PodSelection.Live(pods) == pods
  {
    if pods != [] {
      assert pods == [pods[0]] + pods[1..];
      LiveAll(pods[1..]);
    }
  }

  lemma CrowdCounted(size: nat)
    ensures |PodSelection.Candidates(Crowd(size))| == size
  {
    LiveAll(Crowd(size));
    Ordering.StableSortSound(PodSelection.Live(Crowd(size)), PodSelection.PodName);
    Ordering.SameLength(PodSelection.Live(Crowd(size)), PodSelection.Candidates(Crowd(size)));
  }

  function Begun(s: Setting, vss: Store): World {
    World(FaultInjection(s.id, s.spec, Status(Running, Some(s.start), Some(s.start + s.spec.durationSeconds * SECOND), None, [])),
          vss, map[], map[], [])
  }

  /** The stage for a sound experiment, started at the epoch, in a namespace of `size` pods. */
  lemma SetStage(c: Controller, id: Identity, spec: Spec, meshCounts: PodCounts, podCounts: PodCounts, size: nat) returns (s: Setting, w: World)
    requires Sound(c, id, spec, meshCounts, podCounts) && Admits(spec, size)
    ensures s.c == c && s.id == id && s.spec == spec && s.start == LeaseProtocol.UNIX_EPOCH && s.pods == Crowd(size)
    ensures Viable(s) && Scene(s, w, map[], [], iset{}) && Stored(w.fi.status) && w.leases == map[]
  {
    ValidDereferenceable(spec, meshCounts);
    CrowdLetIn(spec, size);
    var vss, order := RulesInPlace(id, spec.meshFaults, c.render);
    s := Setting(c, id, spec, LeaseProtocol.UNIX_EPOCH, meshCounts, podCounts, order, Crowd(size));
    w := Begun(s, vss);
    SoundIsViable(s);
    BegunIsScene(s, vss);
  }

  lemma BegunIsScene(s: Setting, vss: Store)
    requires AllDereferenceable(s.spec.meshFaults) && s.start % SECOND == 0
    requires ApplyAll(s.id, vss, DesiredByTarget(s.id, s.spec.meshFaults), s.order, s.c.render) == (vss, NoFailure)
    requires Orphans(s.id, vss, ManagedKeys(s.id, s.spec.meshFaults)) == {}
    ensures var w := Begun(s, vss); Scene(s, w, map[], [], iset{}) && Stored(w.fi.status) && w.leases == map[]
  {
    InPlaceOnstage(s, Begun(s, vss));
    WholeSum(s.start, s.spec.durationSeconds);
  }

  lemma WholeSum(start: int, d: int)
    requires start % SECOND == 0
    ensures (start + d * SECOND) % SECOND == 0
  {
  }

  lemma SoundIsViable(s: Setting)
    requires Sound(s.c, s.id, s.spec, s.meshCounts, s.podCounts) && AllLetIn(s.spec, s.pods) && s.start >= LeaseProtocol.UNIX_EPOCH
    ensures Viable(s)
  {
  }

  ghost predicate AllLetIn(spec: Spec, pods: seq<PodSelection.Pod>) {
    forall a :: a in spec.podFaults ==> Wrap32(|PodSelection.Candidates(pods)|) >= a.refuseIfPodsLessThan
  }

  lemma CrowdLetIn(spec: Spec, size: nat)
    requires Admits(spec, size)
    ensures AllLetIn(spec, Crowd(size))
  {
    CrowdCounted(size);
    assert Wrap32(size) == size;
  }

  /** With the rules in place, the experiment is on stage. */
  lemma InPlaceOnstage(s: Setting, w: World)
    requires AllDereferenceable(s.spec.meshFaults)
    requires ApplyAll(s.id, w.vss, DesiredByTarget(s.id, s.spec.meshFaults), s.order, s.c.render) == (w.vss, NoFailure)
    requires Orphans(s.id, w.vss, ManagedKeys(s.id, s.spec.meshFaults)) == {}
    requires w.fi.id == s.id && w.fi.spec == s.spec
    requires w.fi.status.startedAt == Some(s.start) && w.fi.status.expiresAt == Some(s.start + s.spec.durationSeconds * SECOND)
    ensures Onstage(s, w)
  {
    assert w.vss - {} == w.vss;
  }

  // ---------------------------------------------------------------- runs joined

  lemma {:induction false} RunJoins(w: World, c: Controller, a: seq<Experiment.Event>, b: seq<Experiment.Event>)
    ensures Experiment.RunOf(w, c, a + b) == Experiment.RunOf(Experiment.RunOf(w, c, a), c, b)
    decreases a
  {
    if a == [] {
      assert a + b == b;
    } else {
      assert (a + b)[0] == a[0] && (a + b)[1..] == a[1..] + b;
      RunJoins(Experiment.Next(w, c, a[0]), c, a[1..], b);
    }
  }

  /** A run fit for a later clock is fit for an earlier one. */
  lemma {:induction false} LaterStart(w: World, c: Controller, events: seq<Experiment.Event>, t: int, u: int)
    requires OrderlyRun(w, c, events, u) && t <= u
    ensures OrderlyRun(w, c, events, t)
    decreases events
  {
    if events != [] && !events[0].Reconciling? {
      LaterStart(Experiment.Next(w, c, events[0]), c, events[1..], t, u);
    }
  }

  lemma {:induction false} OrderJoins(w: World, c: Controller, a: seq<Experiment.Event>, b: seq<Experiment.Event>, t: int, now: int, pods: seq<PodSelection.Pod>)
    requires OrderlyRun(w, c, a, t) && EventsAt(a, now, pods) && t <= now && OrderlyRun(Experiment.RunOf(w, c, a), c, b, now)
    ensures OrderlyRun(w, c, a + b, t)
    decreases a
  {
    if a == [] {
      assert a + b == b;
      LaterStart(w, c, b, t, now);
    } else {
      assert (a + b)[0] == a[0] && (a + b)[1..] == a[1..] + b;
      assert EventAt(a[0], now, pods);
      assert forall i :: 0 <= i < |a[1..]| ==> a[1..][i] == a[i + 1];
      OrderJoins(Experiment.Next(w, c, a[0]), c, a[1..], b, Clock(a[0], t), now, pods);
    }
  }

  /** Turns at one time, one after the other. */
  lemma TurnsJoin(w: World, c: Controller, a: seq<Experiment.Event>, b: seq<Experiment.Event>, t: int, now: int, pods: seq<PodSelection.Pod>)
    requires OrderlyRun(w, c, a, t) && EventsAt(a, now, pods) && t <= now
    requires OrderlyRun(Experiment.RunOf(w, c, a), c, b, now) && EventsAt(b, now, pods)
    ensures OrderlyRun(w, c, a + b, t) && EventsAt(a + b, now, pods)
    ensures Experiment.RunOf(w, c, a + b) == Experiment.RunOf(Experiment.RunOf(w, c, a), c, b)
  {
    RunJoins(w, c, a, b);
    OrderJoins(w, c, a, b, t, now, pods);
  }

  lemma RealAt(events: seq<Experiment.Event>, now: int, size: nat)
    requires EventsAt(events, now, Crowd(size)) && now >= LeaseProtocol.UNIX_EPOCH
    ensures forall i :: 0 <= i < |events| ==> RealEvent(events[i], size)
  {
    forall i | 0 <= i < |events| ensures RealEvent(events[i], size) {
      assert EventAt(events[i], now, Crowd(size));
    }
  }

  // ---------------------------------------------------------------- at most once

  /** A selection is sized by its mode's own field, as the resource's admission rule asks
      (api/v1alpha1/pod_fault_types.go). */
  ghost predicate Admitted(spec: Spec) {
    forall a :: a in spec.podFaults && a.selection.mode == PERCENT ==> a.selection.count.None?
  }

  lemma SomePicked(s: Setting, now: int, size: nat, p: Plan)
    requires Viable(s) && Admitted(s.spec) && s.pods == Crowd(size) && size >= 1 && p in PlansAt(s, now)
    ensures PickOf(s, p) != []
  {
    var a := PlanMember(s.c.hash, s.id, s.spec, now, s.start, p);
    assert ValidSelection(a.selection) by { SelectionOfValid(s.id, s.spec, s.podCounts, a); }
    SomeWanted(a.selection, size, p.cap);
    CrowdPicked(s, p, size);
  }

  lemma SelectionOfValid(id: Identity, spec: Spec, counts: PodCounts, a: PodAction)
    requires PodsValid(id, spec, counts) && a in spec.podFaults
    ensures ValidSelection(a.selection)
  {
    var i :| 0 <= i < |spec.podFaults| && spec.podFaults[i] == a;
    assert ValidPodAction(id, spec.podFaults[i], counts(i));
  }

  lemma CrowdPicked(s: Setting, p: Plan, size: nat)
    requires s.pods == Crowd(size)
    ensures |PickOf(s, p)| == PodSelection.Quota(size, p.count, p.percent, p.cap)
  {
    CrowdCounted(size);
  }

  lemma SomeWanted(s: Selection, size: nat, cap: int32)
    requires ValidSelection(s) && (s.mode == PERCENT ==> s.count.None?) && size >= 1
    ensures PodSelection.Quota(size, s.count, s.percent, cap) >= 1
  {
    if s.mode == PERCENT { PodSelection.PercentRoundsUp(size, s.percent.value); }
  }

  /** Every run, at most once. */
  ghost predicate AlwaysOnce(c: Controller, id: Identity, spec: Spec, size: nat) {
    forall w: World, events: seq<Experiment.Event>, t: int :: RealRun(w, c, id, spec, events, t, size) ==> CreatedOnce(RunLog(w, c, events))
  }

  function RunLog(w: World, c: Controller, events: seq<Experiment.Event>): seq<Creation> {
    Experiment.RunOf(w, c, events).log
  }

  /** The first plan whose Job another one also uses, and the next that does. */
  lemma FirstClash(plans: seq<Plan>) returns (x: nat, y: nat)
    requires !PlansApart(plans)
    ensures x < y < |plans| && plans[y].jobName == plans[x].jobName
    ensures forall i :: 0 <= i < x ==> plans[i].jobName != plans[x].jobName
    ensures forall i :: x < i < y ==> plans[i].jobName != plans[x].jobName
  {
    var a, b :| 0 <= a < b < |plans| && plans[a].jobName == plans[b].jobName;
    x := FirstWith(plans, plans[a].jobName, 0, a);
    y := FirstWith(plans, plans[a].jobName, x + 1, b);
  }

  lemma FirstWith(plans: seq<Plan>, n: string, lo: nat, hi: nat) returns (x: nat)
    requires lo <= hi < |plans| && plans[hi].jobName == n
    ensures lo <= x <= hi && plans[x].jobName == n && forall i :: lo <= i < x ==> plans[i].jobName != n
    decreases hi - lo
  {
    if plans[lo].jobName == n { x := lo; } else { x := FirstWith(plans, n, lo + 1, hi); }
  }

  lemma TwiceOver(c: Creation, d: Creation)
    requires CreationKey(c) == CreationKey(d)
    ensures !CreatedOnce([] + [c] + [d])
  {
    var log := [] + [c] + [d];
    assert log[0] == c && log[1] == d;
  }

  /** Two plans of one Job at one time: a run that creates it twice for one tick. Either
      the second books the first's finished Job and the first creates it again; or, both
      being for the same tick, the first books it and the second creates it again. */
  lemma ClashRepeats(s: Setting, w: World, size: nat, now: int) returns (events: seq<Experiment.Event>)
    requires Viable(s) && Admitted(s.spec) && s.pods == Crowd(size) && size >= 1 && Scene(s, w, map[], [], iset{})
    requires InTime(s, now) && !PlansApart(PlansAt(s, now))
    ensures OrderlyRun(w, s.c, events, now) && (forall i :: 0 <= i < |events| ==> RealEvent(events[i], size))
    ensures !CreatedOnce(RunLog(w, s.c, events))
  {
    var plans := PlansAt(s, now);
    var x, y := FirstClash(plans);
    var p, q := plans[x], plans[y];
    SomePicked(s, now, size, p);
    SomePicked(s, now, size, q);
    var first, jobs := LaunchTurn(s, w, [], iset{}, now, now, x, map[]);
    var w1 := Experiment.RunOf(w, s.c, first);
    var later: seq<Experiment.Event>;
    if PlanKey(p) == PlanKey(q) {
      later := RepeatTurn(s, w1, jobs, [] + [Creation(p.action, p.tick, PickOf(s, p))], iset{}, now, now, x, y, map[]);
      TwiceOver(Creation(p.action, p.tick, PickOf(s, p)), Creation(q.action, q.tick, PickOf(s, q)));
    } else {
      later := BookedByAnother(s, w1, jobs, [] + [Creation(p.action, p.tick, PickOf(s, p))], now, x, y);
      TwiceOver(Creation(p.action, p.tick, PickOf(s, p)), Creation(p.action, p.tick, PickOf(s, p)));
    }
    events := first + later;
    TurnsJoin(w, s.c, first, later, now, now, s.pods);
    RealAt(events, now, size);
  }

  lemma BookedByAnother(s: Setting, w: World, jobs: map<string, Job>, log: seq<Creation>, now: int, x: nat, y: nat) returns (events: seq<Experiment.Event>)
    requires Viable(s) && Scene(s, w, jobs, log, iset{}) && InTime(s, now)
    requires var plans := PlansAt(s, now);
      && x < y < |plans| && plans[y].jobName == plans[x].jobName && OneRunning(jobs, plans[x].jobName)
      && (forall i :: 0 <= i < x ==> plans[i].jobName != plans[x].jobName)
      && PlanKey(plans[x]) != PlanKey(plans[y]) && PickOf(s, plans[x]) != []
    ensures OrderlyRun(w, s.c, events, now) && EventsAt(events, now, s.pods)
    ensures var p := PlansAt(s, now)[x];
      RunLog(w, s.c, events) == log + [Creation(p.action, p.tick, PickOf(s, p))]
  {
    var a := FinishTurn(s, w, jobs, log, iset{}, now, now, y, map[]);
    var closed := iset{} + iset{PlanKey(PlansAt(s, now)[y])};
    var b, again := LaunchTurn(s, Experiment.RunOf(w, s.c, a), log, closed, now, now, x, map[]);
    events := a + b;
    TurnsJoin(w, s.c, a, b, now, now, s.pods);
  }

  /** Two actions of one mode and one name clash from the start. */
  lemma TwinsClash(h: Hash, id: Identity, spec: Spec, counts: PodCounts, i: nat, j: nat)
    requires PodsValid(id, spec, counts) && i < j < |spec.podFaults|
    requires var a, b := spec.podFaults[i], spec.podFaults[j];
      IsWindowed(a) == IsWindowed(b) && a.name == b.name && NameableNow(h, id, a, 0, 0)
    ensures !PlansApart(DuePlans(h, id, spec, spec.podFaults, 0, 0))
  {
    var a, b := spec.podFaults[i], spec.podFaults[j];
    assert ValidPodAction(id, spec.podFaults[i], counts(i)) && ValidPodAction(id, spec.podFaults[j], counts(j));
    DueAtStart(a);
    DueAtStart(b);
    PodFaultNameDefined(h, id, a.name, DueTick(a, 0, 0).value);
    ClashAt(h, id, spec, i, j, 0);
  }

  lemma SomeTwins(actions: seq<PodAction>) returns (i: nat, j: nat)
    requires !KeysApart(actions)
    ensures i < j < |actions| && IsWindowed(actions[i]) == IsWindowed(actions[j]) && actions[i].name == actions[j].name
  {
    i, j :| 0 <= i < j < |actions| && IsWindowed(actions[i]) == IsWindowed(actions[j]) && actions[i].name == actions[j].name;
  }

  lemma ClashSomewhere(h: Hash, id: Identity, spec: Spec, counts: PodCounts) returns (age: int)
    requires PodsValid(id, spec, counts) && AllNameable(h, id, spec) && spec.durationSeconds >= 0 && !JobsApart(h, id, spec)
    ensures 0 <= age <= spec.durationSeconds * SECOND && !PlansApart(DuePlans(h, id, spec, spec.podFaults, age, 0))
  {
    if KeysApart(spec.podFaults) {
      age :| 0 <= age <= spec.durationSeconds * SECOND && !PlansApart(DuePlans(h, id, spec, spec.podFaults, age, 0));
    } else {
      var i, j := SomeTwins(spec.podFaults);
      assert NameableNow(h, id, spec.podFaults[i], 0, 0);
      TwinsClash(h, id, spec, counts, i, j);
      age := 0;
    }
  }

  /** Without JobsApart, some plans due together share a Job. */
  lemma SomeClash(s: Setting) returns (now: int)
    requires Viable(s) && !JobsApart(s.c.hash, s.id, s.spec)
    ensures InTime(s, now) && !PlansApart(PlansAt(s, now))
  {
    var age := ClashSomewhere(s.c.hash, s.id, s.spec, s.podCounts);
    now := s.start + age;
    DueByAge(s.c.hash, s.id, s.spec, s.spec.podFaults, now, s.start);
  }

  /** The exact condition of at-most-once. Over every run of a sound experiment no two Jobs
      are created for one tick, exactly when no two plans that are ever due together share
      a Job name. */
  lemma AtMostOnceExact(c: Controller, id: Identity, spec: Spec, meshCounts: PodCounts, podCounts: PodCounts, size: nat)
    requires Sound(c, id, spec, meshCounts, podCounts) && Admitted(spec) && Admits(spec, size)
    ensures AlwaysOnce(c, id, spec, size) <==> JobsApart(c.hash, id, spec)
  {
    if JobsApart(c.hash, id, spec) {
      forall w: World, events: seq<Experiment.Event>, t: int | RealRun(w, c, id, spec, events, t, size)
        ensures CreatedOnce(RunLog(w, c, events))
      {
        FreshIsLiving(w, c, t);
        AtMostOnceForLife(w, c, events, t);
      }
    } else {
      var w, events, t := RepeatingRun(c, id, spec, meshCounts, podCounts, size);
      assert RealRun(w, c, id, spec, events, t, size);
    }
  }

  lemma RepeatingRun(c: Controller, id: Identity, spec: Spec, meshCounts: PodCounts, podCounts: PodCounts, size: nat) returns (w: World, events: seq<Experiment.Event>, t: int)
    requires Sound(c, id, spec, meshCounts, podCounts) && Admitted(spec) && Admits(spec, size) && !JobsApart(c.hash, id, spec)
    ensures RealRun(w, c, id, spec, events, t, size) && !CreatedOnce(RunLog(w, c, events))
  {
    var s;
    s, w := SetStage(c, id, spec, meshCounts, podCounts, size);
    t := SomeClash(s);
    events := ClashRepeats(s, w, size, t);
  }

  lemma RoomIsNameable(h: Hash, id: Identity, spec: Spec)
    requires RoomForTicks(id, spec)
    ensures AllNameable(h, id, spec)
  {
    forall a, age | a in spec.podFaults && 0 <= age <= spec.durationSeconds * SECOND ensures NameableNow(h, id, a, age, 0) {
      if DueTick(a, age, 0).Some? { RoomIsReadable(h, id, spec, a, age, 0); }
    }
  }

  /** For names short enough to stay readable: exactly when no two actions of one mode are
      alike after sanitizing. So two actions of one name fail it, and so do `Kill` and
      `kill`; but not a ONE_SHOT and a WINDOWED action of one name. */
  lemma AtMostOnceReadable(c: Controller, id: Identity, spec: Spec, meshCounts: PodCounts, podCounts: PodCounts, size: nat)
    requires ValidSpec(id, spec, meshCounts, podCounts) && !spec.cancel && spec.durationSeconds <= MAX_SECONDS && '/' !in id.ns
    requires RoomForTicks(id, spec) && Admitted(spec) && Admits(spec, size)
    ensures AlwaysOnce(c, id, spec, size) <==> SlugsApart(spec.podFaults)
  {
    RoomIsNameable(c.hash, id, spec);
    AtMostOnceExact(c, id, spec, meshCounts, podCounts, size);
    ReadableApart(c.hash, id, spec, podCounts);
  }

  // ---------------------------------------------------------------- the window's total

  /** The documented promise of window.maxTotalPodsAffected, over every run whose listings
      hold at most `size` pods. */
  ghost predicate WindowTotalHolds(c: Controller, id: Identity, spec: Spec, a: PodAction, size: nat)
    requires a.window.Some?
  {
    forall w: World, events: seq<Experiment.Event>, t: int ::
      RealRun(w, c, id, spec, events, t, size) ==> PodsNamed(RunLog(w, c, events), a.name) <= a.window.value.maxTotalPodsAffected
  }

  function TickTime(s: Setting, a: PodAction, k: nat): int
    requires a.window.Some?
  {
    s.start + k * (a.window.value.intervalSeconds * SECOND)
  }

  lemma StartsWithin(k: nat, i: int, d: nat)
    requires i >= 1 && k <= d / i
    ensures 0 <= k * (i * SECOND) <= d * SECOND
  {
    DivisionBounds(d, i);
    MulMonotone(k, d / i, i);
    assert k * (i * SECOND) == (k * i) * SECOND;
  }

  lemma QuotientOf(k: nat, i: int)
    requires i > 0
    ensures Quotient(k * i, i) == k
  {
    MulMonotone(Quotient(k * i, i) + 1, k, i);
    MulMonotone(k + 1, Quotient(k * i, i), i);
  }

  lemma TickAt(s: Setting, a: PodAction, k: nat)
    requires ProperWindowed(a, s.spec) && 0 < s.spec.durationSeconds <= MAX_SECONDS && k < TickBudget(a, s.spec)
    ensures InTime(s, TickTime(s, a, k)) && DueTick(a, TickTime(s, a, k), s.start) == Some(Decimal(k))
  {
    var i := a.window.value.intervalSeconds;
    StartsWithin(k, i, s.spec.durationSeconds);
    assert Seconds(i) == i * SECOND;
    QuotientOf(k, i * SECOND);
  }

  lemma NamedPlan(h: Hash, id: Identity, spec: Spec, a: PodAction, tick: string, now: int, startedAt: int) returns (p: Plan)
    requires a in spec.podFaults && DueTick(a, now, startedAt) == Some(tick) && NameableNow(h, id, a, now, startedAt)
    ensures p in DuePlans(h, id, spec, spec.podFaults, now, startedAt) && PlanFor(h, id, spec, a, tick) == Some(p)
  {
    PodFaultNameDefined(h, id, a.name, tick);
    p := PlanFor(h, id, spec, a, tick).value;
    assert PlanOf(p, h, id, spec, a, now, startedAt);
    DuePlansMembers(h, id, spec, spec.podFaults, now, startedAt);
  }

  /** The plan for tick k, at the tick's beginning; nobody else uses its Job. */
  lemma TickPlan(s: Setting, a: PodAction, k: nat) returns (x: nat)
    requires Viable(s) && JobsApart(s.c.hash, s.id, s.spec) && ProperWindowed(a, s.spec) && k < TickBudget(a, s.spec)
    ensures InTime(s, TickTime(s, a, k))
    ensures var plans := PlansAt(s, TickTime(s, a, k));
      && x < |plans| && PlanFor(s.c.hash, s.id, s.spec, a, Decimal(k)) == Some(plans[x])
      && forall i :: 0 <= i < x ==> plans[i].jobName != plans[x].jobName
  {
    var now := TickTime(s, a, k);
    TickAt(s, a, k);
    NameableThroughout(s.c.hash, s.id, s.spec, now, s.start);
    var p := NamedPlan(s.c.hash, s.id, s.spec, a, Decimal(k), now, s.start);
    x :| 0 <= x < |PlansAt(s, now)| && PlansAt(s, now)[x] == p;
    assert PlansApart(PlansAt(s, now)) by {
      PlansBuilt(s, now);
      BuiltApart(s.c.hash, s.id, s.spec, now, s.start);
    }
  }

  ghost function TicksBefore(a: PodAction, k: nat): iset<TickKey> {
    iset key: TickKey | key.0 == a.name && TickBelow(key.1, k)
  }

  lemma OneMoreTickClosed(a: PodAction, k: nat)
    ensures (a.name, Decimal(k)) !in TicksBefore(a, k)
    ensures TicksBefore(a, k) + iset{(a.name, Decimal(k))} == TicksBefore(a, k + 1)
  {
    if TickBelow(Decimal(k), k) {
      var n: nat :| n < k && Decimal(k) == Decimal(n);
      DecimalInjective(k, n);
    }
    forall key: TickKey | key in TicksBefore(a, k + 1) ensures key in TicksBefore(a, k) || key == (a.name, Decimal(k)) {
      var n: nat :| n < k + 1 && key.1 == Decimal(n);
    }
    forall key: TickKey | key in TicksBefore(a, k) ensures TickBelow(key.1, k + 1) {
      var n: nat :| n < k && key.1 == Decimal(n);
    }
  }

  /** Tick k is launched and booked; and any play from there on is one from here. */
  lemma TickPlayed(s: Setting, w: World, a: PodAction, size: nat, most: nat, log: seq<Creation>, k: nat, left: nat, t: int, total: int) returns (first: seq<Experiment.Event>, w1: World, log1: seq<Creation>)
    requires Rolling(s, a, size, most) && k < TickBudget(a, s.spec) && t <= TickTime(s, a, k)
    requires Scene(s, w, map[], log, TicksBefore(a, k)) && left > 0 && Owed(log, a.name, left, most, total)
    ensures Scene(s, w1, map[], log1, TicksBefore(a, k + 1)) && Owed(log1, a.name, left - 1, most, total)
    ensures TickTime(s, a, k) <= TickTime(s, a, k + 1)
    ensures forall later :: Plays(w1, s.c, later, TickTime(s, a, k), size, a, total) ==> Plays(w, s.c, first + later, t, size, a, total)
  {
    first, log1 := TickTurns(s, w, a, size, most, log, k, t);
    w1 := Experiment.RunOf(w, s.c, first);
    OneLessOwed(log, log1, a.name, left, most, total);
    TicksGoOn(s, a, k);
    forall later | Plays(w1, s.c, later, TickTime(s, a, k), size, a, total) ensures Plays(w, s.c, first + later, t, size, a, total) {
      PlaysOn(w, s.c, first, later, t, TickTime(s, a, k), size, a, total);
    }
  }

  lemma TickTurns(s: Setting, w: World, a: PodAction, size: nat, most: nat, log: seq<Creation>, k: nat, t: int) returns (events: seq<Experiment.Event>, log1: seq<Creation>)
    requires Rolling(s, a, size, most) && k < TickBudget(a, s.spec) && t <= TickTime(s, a, k)
    requires Scene(s, w, map[], log, TicksBefore(a, k))
    ensures OrderlyRun(w, s.c, events, t) && EventsAt(events, TickTime(s, a, k), s.pods) && TickTime(s, a, k) >= s.start
    ensures Scene(s, Experiment.RunOf(w, s.c, events), map[], log1, TicksBefore(a, k + 1))
    ensures PodsNamed(log1, a.name) == PodsNamed(log, a.name) + most
  {
    var now := TickTime(s, a, k);
    var x := TickPlan(s, a, k);
    var p := PlansAt(s, now)[x];
    TickNames(s, a, k, size, p, log);
    OneMoreTickClosed(a, k);
    log1 := log + [Creation(p.action, p.tick, PickOf(s, p))];
    var first, jobs := LaunchTurn(s, w, log, TicksBefore(a, k), now, t, x, map[]);
    var later := FinishTurn(s, Experiment.RunOf(w, s.c, first), jobs, log1, TicksBefore(a, k), now, now, x, map[]);
    events := first + later;
    TurnsJoin(w, s.c, first, later, t, now, s.pods);
    TickNames(s, a, k, size, p, log);
  }

  lemma TickNames(s: Setting, a: PodAction, k: nat, size: nat, p: Plan, log: seq<Creation>)
    requires PlanFor(s.c.hash, s.id, s.spec, a, Decimal(k)) == Some(p) && s.pods == Crowd(size)
    ensures |PickOf(s, p)| == PerTick(a, s.spec, size)
    ensures PodsNamed(log + [Creation(p.action, p.tick, PickOf(s, p))], a.name) == PodsNamed(log, a.name) + PerTick(a, s.spec, size)
  {
    CrowdCounted(size);
    NotOneshot(k);
    PodsNamedMore(log, Creation(p.action, p.tick, PickOf(s, p)), a.name);
  }

  /** A fit run of real events in which the window's Jobs come to name so many pods. */
  ghost predicate Plays(w: World, c: Controller, events: seq<Experiment.Event>, t: int, size: nat, a: PodAction, total: int) {
    OrderlyRun(w, c, events, t) && (forall i :: 0 <= i < |events| ==> RealEvent(events[i], size)) && PodsNamed(RunLog(w, c, events), a.name) == total
  }

  lemma PlaysOn(w: World, c: Controller, first: seq<Experiment.Event>, later: seq<Experiment.Event>, t: int, now: int, size: nat, a: PodAction, total: int)
    requires OrderlyRun(w, c, first, t) && EventsAt(first, now, Crowd(size)) && LeaseProtocol.UNIX_EPOCH <= now && t <= now
    requires Plays(Experiment.RunOf(w, c, first), c, later, now, size, a, total)
    ensures Plays(w, c, first + later, t, size, a, total)
  {
    RunsJoin(w, c, first, later, t, now, size, Crowd(size));
  }

  lemma NothingPlays(w: World, c: Controller, t: int, size: nat, a: PodAction)
    ensures Plays(w, c, [], t, size, a, PodsNamed(w.log, a.name))
  {
  }

  /** A stage on which the window can be played. */
  ghost predicate Rolling(s: Setting, a: PodAction, size: nat, most: nat) {
    && Viable(s) && JobsApart(s.c.hash, s.id, s.spec) && ProperWindowed(a, s.spec) && s.pods == Crowd(size)
    && most == PerTick(a, s.spec, size) > 0
  }

  /** So many pods are named when `left` more ticks are played. */
  predicate Owed(log: seq<Creation>, action: string, left: nat, most: nat, total: int) {
    total == PodsNamed(log, action) + left * most
  }

  lemma OneLessOwed(log: seq<Creation>, log1: seq<Creation>, action: string, left: nat, most: nat, total: int)
    requires left > 0 && Owed(log, action, left, most, total) && PodsNamed(log1, action) == PodsNamed(log, action) + most
    ensures Owed(log1, action, left - 1, most, total)
  {
    OneMoreTimes(left - 1, most);
  }

  /** `left` more ticks in a row, from tick k on. */
  lemma {:induction false} TicksPlayed(s: Setting, w: World, a: PodAction, size: nat, most: nat, log: seq<Creation>, k: nat, left: nat, t: int, total: int) returns (events: seq<Experiment.Event>)
    requires Rolling(s, a, size, most) && k + left <= TickBudget(a, s.spec) && t <= TickTime(s, a, k)
    requires Scene(s, w, map[], log, TicksBefore(a, k)) && Owed(log, a.name, left, most, total)
    ensures Plays(w, s.c, events, t, size, a, total)
    decreases left
  {
    if left == 0 {
      events := [];
      NothingPlays(w, s.c, t, size, a);
    } else {
      var first, w1, log1 := TickPlayed(s, w, a, size, most, log, k, left, t, total);
      var later := TicksPlayed(s, w1, a, size, most, log1, k + 1, left - 1, TickTime(s, a, k), total);
      events := first + later;
    }
  }

  lemma RunsJoin(w: World, c: Controller, a: seq<Experiment.Event>, b: seq<Experiment.Event>, t: int, now: int, size: nat, pods: seq<PodSelection.Pod>)
    requires OrderlyRun(w, c, a, t) && EventsAt(a, now, pods) && t <= now && OrderlyRun(Experiment.RunOf(w, c, a), c, b, now)
    requires pods == Crowd(size) && now >= LeaseProtocol.UNIX_EPOCH && forall i :: 0 <= i < |b| ==> RealEvent(b[i], size)
    ensures OrderlyRun(w, c, a + b, t) && RunLog(w, c, a + b) == RunLog(Experiment.RunOf(w, c, a), c, b)
    ensures forall i :: 0 <= i < |a + b| ==> RealEvent((a + b)[i], size)
  {
    RunJoins(w, c, a, b);
    OrderJoins(w, c, a, b, t, now, pods);
    RealAt(a, now, size);
  }

  lemma TicksGoOn(s: Setting, a: PodAction, k: nat)
    requires a.window.Some? && a.window.value.intervalSeconds >= 1
    ensures TickTime(s, a, k) <= TickTime(s, a, k + 1)
  {
    OneMoreTimes(k, a.window.value.intervalSeconds * SECOND);
  }

  lemma OneMoreTimes(k: nat, m: nat)
    ensures (k + 1) * m == k * m + m
  {
  }

  /** The blast bound is attained: by a run that begins every tick of the window, with the
      Leases of all other plans held by someone else. */
  lemma BoundReached(c: Controller, id: Identity, spec: Spec, meshCounts: PodCounts, podCounts: PodCounts, a: PodAction, size: nat) returns (w: World, events: seq<Experiment.Event>, t: int)
    requires Sound(c, id, spec, meshCounts, podCounts) && JobsApart(c.hash, id, spec) && Admits(spec, size) && ProperWindowed(a, spec)
    ensures RealRun(w, c, id, spec, events, t, size)
    ensures PodsNamed(RunLog(w, c, events), a.name) == TickBudget(a, spec) * PerTick(a, spec, size)
  {
    var s;
    s, w := SetStage(c, id, spec, meshCounts, podCounts, size);
    t := s.start;
    events := WindowPlayed(s, w, a, size);
  }

  lemma WindowPlayed(s: Setting, w: World, a: PodAction, size: nat) returns (events: seq<Experiment.Event>)
    requires Viable(s) && JobsApart(s.c.hash, s.id, s.spec) && ProperWindowed(a, s.spec) && s.pods == Crowd(size)
    requires Scene(s, w, map[], [], iset{})
    ensures OrderlyRun(w, s.c, events, s.start) && forall i :: 0 <= i < |events| ==> RealEvent(events[i], size)
    ensures PodsNamed(RunLog(w, s.c, events), a.name) == TickBudget(a, s.spec) * PerTick(a, s.spec, size)
  {
    if PerTick(a, s.spec, size) == 0 {
      events := [];
    } else {
      SceneOpen(s, w, a);
      var most := PerTick(a, s.spec, size);
      events := TicksPlayed(s, w, a, size, most, [], 0, TickBudget(a, s.spec), s.start, TickBudget(a, s.spec) * most);
    }
  }

  lemma SceneOpen(s: Setting, w: World, a: PodAction)
    requires Scene(s, w, map[], [], iset{})
    ensures Scene(s, w, map[], [], TicksBefore(a, 0))
  {
  }

  /** The promise holds over every run exactly when the ticks that begin within the
      duration, each with the most pods it can name of `size`, already stay within it. */
  lemma WindowTotalExact(c: Controller, id: Identity, spec: Spec, meshCounts: PodCounts, podCounts: PodCounts, a: PodAction, size: nat)
    requires Sound(c, id, spec, meshCounts, podCounts) && JobsApart(c.hash, id, spec) && Admits(spec, size) && ProperWindowed(a, spec)
    ensures WindowTotalHolds(c, id, spec, a, size)
       <==> TickBudget(a, spec) * PerTick(a, spec, size) <= a.window.value.maxTotalPodsAffected
  {
    if TickBudget(a, spec) * PerTick(a, spec, size) <= a.window.value.maxTotalPodsAffected {
      forall w: World, events: seq<Experiment.Event>, t: int | RealRun(w, c, id, spec, events, t, size)
        ensures PodsNamed(RunLog(w, c, events), a.name) <= a.window.value.maxTotalPodsAffected
      {
        RunWithin(w, c, id, spec, events, t, a, size);
      }
    } else {
      var w, events, t := BoundReached(c, id, spec, meshCounts, podCounts, a, size);
      assert RealRun(w, c, id, spec, events, t, size) && PodsNamed(RunLog(w, c, events), a.name) > a.window.value.maxTotalPodsAffected;
    }
  }

  lemma RunWithin(w: World, c: Controller, id: Identity, spec: Spec, events: seq<Experiment.Event>, t: int, a: PodAction, size: nat)
    requires RealRun(w, c, id, spec, events, t, size) && Bounds(spec) && JobsApart(c.hash, id, spec) && ProperWindowed(a, spec)
    ensures PodsNamed(RunLog(w, c, events), a.name) <= TickBudget(a, spec) * PerTick(a, spec, size)
  {
    forall i | 0 <= i < |events| ensures Listings(events[i], size) { assert RealEvent(events[i], size); }
    BlastBoundForLife(w, c, events, t, a, size);
  }
}
