/** When the Jobs of one pass are told apart by their names, and when ticks are due. */
module Apart {
  import opened Wrappers
  import opened Machine
  import opened Helpers
  import opened Names
  import opened Api
  import opened Validation
  import opened Ticks
  import opened Protocol
  import opened Execution

  // ---------------------------------------------------------------- keys

  /** No two actions share ticks: one mode and one name mean one action. */
  ghost predicate KeysApart(actions: seq<PodAction>) {
    forall i, j :: 0 <= i < j < |actions| && IsWindowed(actions[i]) == IsWindowed(actions[j]) ==> actions[i].name != actions[j].name
  }

  lemma KeysApartRest(actions: seq<PodAction>)
    requires KeysApart(actions) && actions != []
    ensures KeysApart(actions[1..])
    ensures forall b :: b in actions[1..] && IsWindowed(b) == IsWindowed(actions[0]) ==> b.name != actions[0].name
  {
    assert forall i :: 0 <= i < |actions[1..]| ==> actions[1..][i] == actions[i + 1];
  }

  lemma KeysApartUnique(actions: seq<PodAction>, a: PodAction, b: PodAction)
    requires KeysApart(actions) && a in actions && b in actions && IsWindowed(a) == IsWindowed(b) && a.name == b.name
    ensures a == b
  {
    var i :| 0 <= i < |actions| && actions[i] == a;
    var j :| 0 <= j < |actions| && actions[j] == b;
    assert !(i < j) && !(j < i);
  }

  /** A tick tells its action's mode. */
  lemma TickTellsMode(a: PodAction, x: int, b: PodAction, y: int, startedAt: int)
    requires DueTick(a, x, startedAt).Some? && DueTick(a, x, startedAt) == DueTick(b, y, startedAt)
    ensures IsWindowed(a) == IsWindowed(b)
    ensures IsTickID(DueTick(a, x, startedAt).value)
    ensures IsWindowed(a) <==> DueTick(a, x, startedAt) != Some(ONESHOT)
  {
    forall n: nat ensures Decimal(n) != ONESHOT { NotOneshot(n); }
  }

  lemma NotOneshot(n: nat)
    ensures Decimal(n) != ONESHOT
  {
    DecimalDigits(n);
    assert Decimal(n)[0] in Decimal(n) && ONESHOT[0] == 'o';
  }

  // ---------------------------------------------------------------- due ticks

  /** Some action has this tick due. */
  ghost predicate DueAt(spec: Spec, startedAt: int, k: TickKey, now: int) {
    exists a :: a in spec.podFaults && a.name == k.0 && DueTick(a, now, startedAt) == Some(k.1)
  }

  lemma DueUnbrokenKey(spec: Spec, startedAt: int, k: TickKey, x: int, now: int, y: int)
    requires KeysApart(spec.podFaults) && x <= now <= y && DueAt(spec, startedAt, k, x) && DueAt(spec, startedAt, k, y)
    ensures DueAt(spec, startedAt, k, now)
  {
    var a :| a in spec.podFaults && a.name == k.0 && DueTick(a, x, startedAt) == Some(k.1);
    var b :| b in spec.podFaults && b.name == k.0 && DueTick(b, y, startedAt) == Some(k.1);
    TickTellsMode(a, x, b, y, startedAt);
    KeysApartUnique(spec.podFaults, a, b);
    DueUnbroken(a, x, now, y, startedAt);
  }

  lemma PlanMember(h: Hash, id: Identity, spec: Spec, now: int, startedAt: int, p: Plan) returns (a: PodAction)
    requires p in DuePlans(h, id, spec, spec.podFaults, now, startedAt)
    ensures a in spec.podFaults && PlanOf(p, h, id, spec, a, now, startedAt)
    ensures DueAt(spec, startedAt, PlanKey(p), now) && p.jobName == NameOf(h, id)(PlanKey(p)) && p.leaseName == p.jobName
  {
    DuePlansMembers(h, id, spec, spec.podFaults, now, startedAt);
    a :| a in spec.podFaults && PlanOf(p, h, id, spec, a, now, startedAt);
  }

  /** When plans are made at all, every tick that is due has one. */
  lemma DueHasPlan(h: Hash, id: Identity, spec: Spec, now: int, startedAt: int, k: TickKey) returns (p: Plan)
    requires BuildPlans(h, id, spec, now, startedAt).ok && DueAt(spec, startedAt, k, now)
    ensures p in BuildPlans(h, id, spec, now, startedAt).plans && PlanKey(p) == k
  {
    var a :| a in spec.podFaults && a.name == k.0 && DueTick(a, now, startedAt) == Some(k.1);
    BuiltWhenAccepted(h, id, spec, spec.podFaults, now, startedAt, Built(true, [], None));
    AcceptedIsNamed(h, id, spec, a, now, startedAt);
    p := PlanFor(h, id, spec, a, k.1).value;
    assert PlanOf(p, h, id, spec, a, now, startedAt);
    DuePlansMembers(h, id, spec, spec.podFaults, now, startedAt);
    PlansAreDue(h, id, spec, now, startedAt);
  }

  lemma AcceptedIsNamed(h: Hash, id: Identity, spec: Spec, a: PodAction, now: int, startedAt: int)
    requires Contribute(h, id, spec, a, now, startedAt).Accepted? && DueTick(a, now, startedAt).Some?
    ensures PlanFor(h, id, spec, a, DueTick(a, now, startedAt).value).Some?
  {
  }

  // ---------------------------------------------------------------- Jobs of one pass

  /** No two plans that are ever due together share a Job. */
  ghost predicate JobsApart(h: Hash, id: Identity, spec: Spec) {
    && KeysApart(spec.podFaults)
    && forall age :: 0 <= age <= spec.durationSeconds * SECOND ==> PlansApart(DuePlans(h, id, spec, spec.podFaults, age, 0))
  }

  lemma {:induction false} DueByAge(h: Hash, id: Identity, spec: Spec, actions: seq<PodAction>, now: int, startedAt: int)
    ensures DuePlans(h, id, spec, actions, now, startedAt) == DuePlans(h, id, spec, actions, now - startedAt, 0)
  {
    if actions != [] {
      SameContribution(h, id, spec, actions[0], now, startedAt);
      DueByAge(h, id, spec, actions[1..], now, startedAt);
    }
  }

  lemma EarlyPlan(h: Hash, id: Identity, spec: Spec, a: PodAction, age: int)
    requires age < 0
    ensures DuePlan(h, id, spec, a, age, 0) == [] || DuePlan(h, id, spec, a, age, 0) == DuePlan(h, id, spec, a, 0, 0)
  {
  }

  /** Before the start, as after rounding, only plans are due that are due at the start. */
  lemma {:induction false} EarlyPlans(h: Hash, id: Identity, spec: Spec, actions: seq<PodAction>, age: int)
    requires age < 0 && PlansApart(DuePlans(h, id, spec, actions, 0, 0))
    ensures forall p :: p in DuePlans(h, id, spec, actions, age, 0) ==> p in DuePlans(h, id, spec, actions, 0, 0)
    ensures PlansApart(DuePlans(h, id, spec, actions, age, 0))
  {
    if actions != [] {
      var head, rest := DuePlan(h, id, spec, actions[0], 0, 0), DuePlans(h, id, spec, actions[1..], 0, 0);
      var head0, rest0 := DuePlan(h, id, spec, actions[0], age, 0), DuePlans(h, id, spec, actions[1..], age, 0);
      EarlyPlan(h, id, spec, actions[0], age);
      SplitApart(head, rest);
      EarlyPlans(h, id, spec, actions[1..], age);
      JoinApart(head0, rest0);
    }
  }

  lemma SplitApart(head: seq<Plan>, rest: seq<Plan>)
    requires |head| <= 1 && PlansApart(head + rest)
    ensures PlansApart(rest) && forall p, q :: p in head && q in rest ==> p.jobName != q.jobName
  {
    var all := head + rest;
    forall i, j | 0 <= i < j < |rest| ensures rest[i].jobName != rest[j].jobName {
      assert all[|head| + i] == rest[i] && all[|head| + j] == rest[j];
    }
    forall p, q | p in head && q in rest ensures p.jobName != q.jobName {
      var j :| 0 <= j < |rest| && rest[j] == q;
      assert all[0] == p && all[|head| + j] == q;
    }
  }

  lemma JoinApart(head: seq<Plan>, rest: seq<Plan>)
    requires |head| <= 1 && PlansApart(rest) && forall p, q :: p in head && q in rest ==> p.jobName != q.jobName
    ensures PlansApart(head + rest)
  {
    var all := head + rest;
    forall i, j | 0 <= i < j < |all| ensures all[i].jobName != all[j].jobName {
      assert all[j] == rest[j - |head|] && rest[j - |head|] in rest;
      if i < |head| { assert all[i] in head; } else { assert all[i] == rest[i - |head|]; }
    }
  }

  /** So the plans of every pass before expiry have Jobs of their own. */
  lemma BuiltApart(h: Hash, id: Identity, spec: Spec, now: int, startedAt: int)
    requires JobsApart(h, id, spec) && spec.durationSeconds >= 0 && now <= startedAt + spec.durationSeconds * SECOND
    ensures PlansApart(BuildPlans(h, id, spec, now, startedAt).plans)
  {
    DueByAge(h, id, spec, spec.podFaults, now, startedAt);
    PlansAreDue(h, id, spec, now, startedAt);
    assert PlansApart(DuePlans(h, id, spec, spec.podFaults, 0, 0));
    if now < startedAt { EarlyPlans(h, id, spec, spec.podFaults, now - startedAt); }
  }

  /** The plans of a pass are named by their ticks, and have ticks of their own as soon as
      the actions do. */
  lemma BuiltNamed(h: Hash, id: Identity, spec: Spec, now: int, startedAt: int)
    ensures NamedBy(BuildPlans(h, id, spec, now, startedAt).plans, NameOf(h, id))
    ensures KeysApart(spec.podFaults) ==> TicksApart(BuildPlans(h, id, spec, now, startedAt).plans)
  {
    PlansAreDue(h, id, spec, now, startedAt);
    var plans := DuePlans(h, id, spec, spec.podFaults, now, startedAt);
    forall p | p in plans ensures p.jobName == NameOf(h, id)(PlanKey(p)) {
      var a := PlanMember(h, id, spec, now, startedAt, p);
    }
    if KeysApart(spec.podFaults) { DueTicksApart(h, id, spec, spec.podFaults, now, startedAt); }
  }

  lemma {:induction false} DueTicksApart(h: Hash, id: Identity, spec: Spec, actions: seq<PodAction>, now: int, startedAt: int)
    requires KeysApart(actions)
    ensures TicksApart(DuePlans(h, id, spec, actions, now, startedAt))
  {
    if actions != [] {
      var a := actions[0];
      var head, rest := DuePlan(h, id, spec, a, now, startedAt), DuePlans(h, id, spec, actions[1..], now, startedAt);
      KeysApartRest(actions);
      DueTicksApart(h, id, spec, actions[1..], now, startedAt);
      DuePlansMembers(h, id, spec, actions[1..], now, startedAt);
      forall p, q | p in head && q in rest ensures PlanKey(p) != PlanKey(q) {
        DuePlanMember(h, id, spec, a, now, startedAt, p);
        var b :| b in actions[1..] && PlanOf(q, h, id, spec, b, now, startedAt);
        if p.tick == q.tick { TickTellsMode(a, now, b, now, startedAt); }
      }
      JoinTicksApart(head, rest);
    }
  }

  lemma JoinTicksApart(head: seq<Plan>, rest: seq<Plan>)
    requires |head| <= 1 && TicksApart(rest) && forall p, q :: p in head && q in rest ==> PlanKey(p) != PlanKey(q)
    ensures TicksApart(head + rest)
  {
    var all := head + rest;
    forall i, j | 0 <= i < j < |all| ensures PlanKey(all[i]) != PlanKey(all[j]) {
      assert all[j] == rest[j - |head|] && rest[j - |head|] in rest;
      if i < |head| { assert all[i] in head; } else { assert all[i] == rest[i - |head|]; }
    }
  }

  // ---------------------------------------------------------------- conditions a user can check

  /** It is enough that the actions are apart and no two ticks of the experiment, however
      far from each other in time, come out with one Job name. */
  lemma SeparateNamesApart(h: Hash, id: Identity, spec: Spec)
    requires KeysApart(spec.podFaults)
    requires forall k: TickKey, l: TickKey, x: int, y: int ::
      DueAt(spec, 0, k, x) && DueAt(spec, 0, l, y) && NameOf(h, id)(k) == NameOf(h, id)(l) ==> k == l
    ensures JobsApart(h, id, spec)
  {
    forall age | 0 <= age <= spec.durationSeconds * SECOND ensures PlansApart(DuePlans(h, id, spec, spec.podFaults, age, 0)) {
      var plans := DuePlans(h, id, spec, spec.podFaults, age, 0);
      DueTicksApart(h, id, spec, spec.podFaults, age, 0);
      forall i, j | 0 <= i < j < |plans| ensures plans[i].jobName != plans[j].jobName {
        var a := PlanMember(h, id, spec, age, 0, plans[i]);
        var b := PlanMember(h, id, spec, age, 0, plans[j]);
        assert PlanKey(plans[i]) != PlanKey(plans[j]);
      }
    }
  }

  /** Experiment and action names that leave room for any tick number in 63 characters. */
  ghost predicate RoomForTicks(id: Identity, spec: Spec) {
    forall a :: a in spec.podFaults ==> |SanitizeName(id.name)| + |SanitizeName(a.name)| <= 35
  }

  /** No two actions of one mode are alike after sanitizing. */
  ghost predicate SlugsApart(actions: seq<PodAction>) {
    forall i, j :: 0 <= i < j < |actions| && IsWindowed(actions[i]) == IsWindowed(actions[j]) ==> SanitizeName(actions[i].name) != SanitizeName(actions[j].name)
  }

  function Pow10(k: nat): nat {
    if k == 0 then 1 else 10 * Pow10(k - 1)
  }

  lemma {:induction false} DecimalLength(n: nat, k: nat)
    requires k > 0 && n < Pow10(k)
    ensures |Decimal(n)| <= k
  {
    if n >= 10 {
      assert k > 1 by { assert Pow10(1) == 10 * Pow10(0); }
      DecimalLength(n / 10, k - 1);
    }
  }

  lemma TickLength(n: nat)
    requires n <= MAX_INT64
    ensures |Decimal(n)| <= 19
  {
    assert Pow10(5) == 100000;
    assert Pow10(10) == 100000 * Pow10(5) by { assert Pow10(7) == 100 * Pow10(5); }
    assert Pow10(15) == 100000 * Pow10(10) by { assert Pow10(12) == 100 * Pow10(10); }
    assert Pow10(19) == 10000 * Pow10(15) by { assert Pow10(17) == 100 * Pow10(15); }
    DecimalLength(n, 19);
  }

  lemma QuotientBound(e: nat, i: int)
    requires i > 0
    ensures Quotient(e, i) <= e
  {
    if Quotient(e, i) > e {
      MulMonotone(e + 1, Quotient(e, i), i);
      MulMonotone(1, i, e + 1);
    }
  }

  lemma DueTickLength(a: PodAction, now: int, startedAt: int)
    requires DueTick(a, now, startedAt).Some?
    ensures |DueTick(a, now, startedAt).value| <= 19
  {
    if IsWindowed(a) {
      QuotientBound(Elapsed(now, startedAt), Seconds(a.window.value.intervalSeconds));
      TickLength(ComputeWindowedTick(a.window, now, startedAt).index);
    }
  }

  lemma RoomIsReadable(h: Hash, id: Identity, spec: Spec, a: PodAction, now: int, startedAt: int)
    requires RoomForTicks(id, spec) && a in spec.podFaults && DueTick(a, now, startedAt).Some?
    ensures var t := DueTick(a, now, startedAt).value;
      && |ReadableName(id, a.name, t)| <= 63 && PodFaultName(h, id, a.name, t) == Some(ReadableName(id, a.name, t))
      && IsTickID(t)
  {
    var t := DueTick(a, now, startedAt).value;
    DueTickLength(a, now, startedAt);
    TickTellsMode(a, now, a, now, startedAt);
    TickIDPlain(t);
    assert |ReadableName(id, a.name, t)| == 9 + |SanitizeName(id.name)| + |SanitizeName(a.name)| + |SanitizeName(t)|;
  }

  lemma {:induction false} SlugsDueApart(h: Hash, id: Identity, spec: Spec, actions: seq<PodAction>, now: int)
    requires SlugsApart(actions) && RoomForTicks(id, spec) && forall a :: a in actions ==> a in spec.podFaults
    ensures PlansApart(DuePlans(h, id, spec, actions, now, 0))
  {
    if actions != [] {
      var a := actions[0];
      var head, rest := DuePlan(h, id, spec, a, now, 0), DuePlans(h, id, spec, actions[1..], now, 0);
      assert forall i :: 0 <= i < |actions[1..]| ==> actions[1..][i] == actions[i + 1];
      SlugsDueApart(h, id, spec, actions[1..], now);
      DuePlansMembers(h, id, spec, actions[1..], now, 0);
      forall p, q | p in head && q in rest ensures p.jobName != q.jobName {
        DuePlanMember(h, id, spec, a, now, 0, p);
        var b :| b in actions[1..] && PlanOf(q, h, id, spec, b, now, 0);
        SlugsTellNames(h, id, spec, a, b, now);
      }
      JoinApart(head, rest);
    }
  }

  lemma SlugsTellNames(h: Hash, id: Identity, spec: Spec, a: PodAction, b: PodAction, now: int)
    requires RoomForTicks(id, spec) && a in spec.podFaults && b in spec.podFaults
    requires DueTick(a, now, 0).Some? && DueTick(b, now, 0).Some?
    requires IsWindowed(a) == IsWindowed(b) ==> SanitizeName(a.name) != SanitizeName(b.name)
    ensures PodFaultName(h, id, a.name, DueTick(a, now, 0).value) != PodFaultName(h, id, b.name, DueTick(b, now, 0).value)
  {
    RoomIsReadable(h, id, spec, a, now, 0);
    RoomIsReadable(h, id, spec, b, now, 0);
    ReadableNameInjective(id, a.name, DueTick(a, now, 0).value, b.name, DueTick(b, now, 0).value);
    if DueTick(a, now, 0) == DueTick(b, now, 0) { TickTellsMode(a, now, b, now, 0); }
  }

  lemma {:induction false} DuePlansAppend(h: Hash, id: Identity, spec: Spec, a: seq<PodAction>, b: seq<PodAction>, now: int, startedAt: int)
    ensures DuePlans(h, id, spec, a + b, now, startedAt) == DuePlans(h, id, spec, a, now, startedAt) + DuePlans(h, id, spec, b, now, startedAt)
  {
    if a == [] {
      assert a + b == b;
    } else {
      assert (a + b)[0] == a[0] && (a + b)[1..] == a[1..] + b;
      DuePlansAppend(h, id, spec, a[1..], b, now, startedAt);
      Regrouped(DuePlan(h, id, spec, a[0], now, startedAt), DuePlans(h, id, spec, a[1..], now, startedAt), DuePlans(h, id, spec, b, now, startedAt));
    }
  }

  /** The plan of an action follows those of the actions before it. */
  lemma PlaceOf(h: Hash, id: Identity, spec: Spec, i: nat, t: string, now: int, startedAt: int) returns (x: nat)
    requires i < |spec.podFaults| && DueTick(spec.podFaults[i], now, startedAt) == Some(t) && PlanFor(h, id, spec, spec.podFaults[i], t).Some?
    ensures var plans := DuePlans(h, id, spec, spec.podFaults, now, startedAt);
      && x < |plans| && Some(plans[x]) == PlanFor(h, id, spec, spec.podFaults[i], t)
      && plans[..x] == DuePlans(h, id, spec, spec.podFaults[..i], now, startedAt)
  {
    Cut(spec.podFaults, i, |spec.podFaults|);
    assert spec.podFaults[..|spec.podFaults|] == spec.podFaults;
    PlaceAfter(h, id, spec, spec.podFaults[..i], spec.podFaults[i..], t, now, startedAt);
    x := |DuePlans(h, id, spec, spec.podFaults[..i], now, startedAt)|;
  }

  lemma PlaceAfter(h: Hash, id: Identity, spec: Spec, before: seq<PodAction>, rest: seq<PodAction>, t: string, now: int, startedAt: int)
    requires rest != [] && DueTick(rest[0], now, startedAt) == Some(t) && PlanFor(h, id, spec, rest[0], t).Some?
    ensures var first, plans := DuePlans(h, id, spec, before, now, startedAt), DuePlans(h, id, spec, before + rest, now, startedAt);
      |first| < |plans| && Some(plans[|first|]) == PlanFor(h, id, spec, rest[0], t) && plans[..|first|] == first
  {
    DuePlansAppend(h, id, spec, before, rest, now, startedAt);
    LeadingPlan(h, id, spec, rest, t, now, startedAt);
    Follows(DuePlans(h, id, spec, before, now, startedAt), DuePlans(h, id, spec, rest, now, startedAt));
  }

  lemma Follows(a: seq<Plan>, b: seq<Plan>)
    requires b != []
    ensures (a + b)[|a|] == b[0] && (a + b)[..|a|] == a
  {
  }

  lemma LeadingPlan(h: Hash, id: Identity, spec: Spec, actions: seq<PodAction>, t: string, now: int, startedAt: int)
    requires actions != [] && DueTick(actions[0], now, startedAt) == Some(t) && PlanFor(h, id, spec, actions[0], t).Some?
    ensures var plans := DuePlans(h, id, spec, actions, now, startedAt); plans != [] && PlanFor(h, id, spec, actions[0], t) == Some(plans[0])
  {
  }

  /** Two actions due with one Job name clash. */
  lemma ClashAt(h: Hash, id: Identity, spec: Spec, i: nat, j: nat, now: int)
    requires i < j < |spec.podFaults|
    requires var a, b := spec.podFaults[i], spec.podFaults[j];
      && DueTick(a, now, 0).Some? && DueTick(b, now, 0).Some?
      && PodFaultName(h, id, a.name, DueTick(a, now, 0).value).Some?
      && PodFaultName(h, id, a.name, DueTick(a, now, 0).value) == PodFaultName(h, id, b.name, DueTick(b, now, 0).value)
    ensures !PlansApart(DuePlans(h, id, spec, spec.podFaults, now, 0))
  {
    var actions := spec.podFaults;
    var plans := DuePlans(h, id, spec, actions, now, 0);
    var x := PlaceOf(h, id, spec, i, DueTick(actions[i], now, 0).value, now, 0);
    var y := PlaceOf(h, id, spec, j, DueTick(actions[j], now, 0).value, now, 0);
    PlacesDiffer(h, id, spec, i, j, DueTick(actions[i], now, 0).value, now, 0);
    assert x == |plans[..x]| && y == |plans[..y]|;
    assert plans[x].jobName == plans[y].jobName;
  }

  lemma PlacesDiffer(h: Hash, id: Identity, spec: Spec, i: nat, j: nat, t: string, now: int, startedAt: int)
    requires i < j < |spec.podFaults| && DueTick(spec.podFaults[i], now, startedAt) == Some(t) && PlanFor(h, id, spec, spec.podFaults[i], t).Some?
    ensures |DuePlans(h, id, spec, spec.podFaults[..i], now, startedAt)| < |DuePlans(h, id, spec, spec.podFaults[..j], now, startedAt)|
  {
    Cut(spec.podFaults, i, j);
    PlaceAfter(h, id, spec, spec.podFaults[..i], spec.podFaults[i..j], t, now, startedAt);
  }

  lemma Cut(actions: seq<PodAction>, i: nat, j: nat)
    requires i < j <= |actions|
    ensures actions[..j] == actions[..i] + actions[i..j] && actions[i..j] != [] && actions[i..j][0] == actions[i]
  {
  }

  lemma DueAtStart(a: PodAction)
    requires IsWindowed(a) ==> a.window.Some? && a.window.value.intervalSeconds >= 1
    ensures DueTick(a, 0, 0) == Some(if IsWindowed(a) then Decimal(0) else ONESHOT)
  {
    if IsWindowed(a) { assert Seconds(a.window.value.intervalSeconds) == a.window.value.intervalSeconds * SECOND; }
  }

  /** With names short enough to stay readable, that comes down to what the actions are
      called. */
  lemma ReadableApart(h: Hash, id: Identity, spec: Spec, counts: PodCounts)
    requires RoomForTicks(id, spec) && PodsValid(id, spec, counts) && spec.durationSeconds >= 0
    ensures JobsApart(h, id, spec) <==> SlugsApart(spec.podFaults)
  {
    var actions := spec.podFaults;
    if SlugsApart(actions) {
      forall age | 0 <= age <= spec.durationSeconds * SECOND ensures PlansApart(DuePlans(h, id, spec, actions, age, 0)) {
        SlugsDueApart(h, id, spec, actions, age);
      }
    } else {
      var i, j :| 0 <= i < j < |actions| && IsWindowed(actions[i]) == IsWindowed(actions[j]) && SanitizeName(actions[i].name) == SanitizeName(actions[j].name);
      assert ValidPodAction(id, actions[i], counts(i)) && ValidPodAction(id, actions[j], counts(j));
      DueAtStart(actions[i]);
      DueAtStart(actions[j]);
      RoomIsReadable(h, id, spec, actions[i], 0, 0);
      RoomIsReadable(h, id, spec, actions[j], 0, 0);
      ClashAt(h, id, spec, i, j, 0);
    }
  }
}
