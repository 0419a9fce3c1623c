/** applyDesiredTargets: bringing the VirtualServices of the namespace to the desired
    rules, target by target. */
module Targets {
  import opened Wrappers
  import opened Helpers
  import opened Names
  import opened Api
  import opened VirtualServices
  import opened Cluster
  import opened Mesh
  import opened Validation

  const MANAGED_BY := "managed-by"
  const OPERATOR := "fi-operator"
  const FI_LABEL := "chaos.sghaida.io/fi"

  predicate Labelled(id: Identity, vs: VirtualService) {
    FI_LABEL in vs.labels && vs.labels[FI_LABEL] == id.name
  }

  /** Created by the operator for this experiment. */
  predicate ManagedVS(id: Identity, vs: VirtualService) {
    MANAGED_BY in vs.labels && vs.labels[MANAGED_BY] == OPERATOR && Labelled(id, vs)
  }

  function NewManagedVS(id: Identity, d: Wanted): VirtualService {
    VirtualService(
      map[MANAGED_BY := OPERATOR, FI_LABEL := id.name],
      Obj(map["hosts" := List(HostValues(d.hosts)),
              "gateways" := List([Str("mesh")]),
              "http" := List([DefaultRule("default-" + id.name, d.hosts)])]))
  }

  function HostValues(hosts: seq<string>): seq<Value> {
    seq(|hosts|, i requires 0 <= i < |hosts| => Str(hosts[i]))
  }

  // ---------------------------------------------------------------- one target

  datatype Outcome = Missing | Unsafe | Applied(vs: VirtualService, written: bool)

  /** The in-memory object before rules are injected. */
  function Prepared(spec: Value, d: Wanted): Value {
    var g := EnsureGateways(spec, d.managed);
    if d.managed && FirstRoute(HttpOf(g)).None? then EnsureDefaultRule(g, d.hosts) else g
  }

  /** The route injected rules get. */
  function BaseRoute(spec: Value, d: Wanted): Option<seq<Value>> {
    var found := FirstRoute(HttpOf(EnsureGateways(spec, d.managed)));
    if found.Some? then found else if d.managed then Some(DefaultRoute(d.hosts)) else None
  }

  function Injected(id: Identity, spec: Value, d: Wanted): seq<Value>
    requires BaseRoute(spec, d).Some?
  {
    Patched(PrefixOf(id.name), HttpOf(Prepared(spec, d)), EnsureRoutes(d.rules, BaseRoute(spec, d).value))
  }

  function ApplyOne(id: Identity, current: Option<VirtualService>, d: Wanted, render: Render): Outcome {
    if current.None? && !d.managed then Missing
    else
      var vs := if current.Some? then current.value else NewManagedVS(id, d);
      if BaseRoute(vs.spec, d).None? then Unsafe
      else
        var p := Prepared(vs.spec, d);
        var list := Injected(id, vs.spec, d);
        var written := current.None? || render(HttpOf(p)) != render(list) || (d.managed && !HasMeshGateway(vs.spec));
        Applied(if written then vs.(spec := WithHttp(p, list)) else vs, written)
  }

  /** Rules as grouping makes them. */
  ghost predicate WellGrouped(id: Identity, d: Wanted) {
    d.rules != [] && Desired(PrefixOf(id.name), d.rules)
  }

  lemma HttpOfGateways(spec: Value, managed: bool)
    ensures HttpOf(EnsureGateways(spec, managed)) == HttpOf(spec)
    ensures managed ==> HasMeshGateway(EnsureGateways(spec, managed))
  {
  }

  lemma GatewaysKept(spec: Value, items: seq<Value>)
    ensures HasMeshGateway(WithHttp(spec, items)) == HasMeshGateway(spec)
  {
  }

  /** The list an apply leaves starts with its rules, each with the base route, so the
      base route of the result is the same one. */
  lemma InjectedKeepsBase(id: Identity, spec: Value, d: Wanted)
    requires WellGrouped(id, d) && BaseRoute(spec, d).Some?
    ensures BaseRoute(spec, d).value != []
    ensures FirstRoute(Injected(id, spec, d)) == BaseRoute(spec, d)
    ensures Without(PrefixOf(id.name), Injected(id, spec, d)) == Without(PrefixOf(id.name), HttpOf(Prepared(spec, d)))
    ensures OwnPart(PrefixOf(id.name), Injected(id, spec, d)) == EnsureRoutes(d.rules, BaseRoute(spec, d).value)
  {
    var base := BaseRoute(spec, d).value;
    var rules := EnsureRoutes(d.rules, base);
    FirstRouteNonEmpty(HttpOf(EnsureGateways(spec, d.managed)));
    EnsuredRules(PrefixOf(id.name), d.rules, base);
    FirstRouteUniform(rules, base);
    FirstRouteAppend(rules, Without(PrefixOf(id.name), HttpOf(Prepared(spec, d))));
    PatchedParts(PrefixOf(id.name), HttpOf(Prepared(spec, d)), rules);
  }

  /** Applying the same desired state again changes nothing and writes nothing, on any
      starting object and whatever `%v` makes of lists. */
  lemma ApplyIdempotent(id: Identity, current: Option<VirtualService>, d: Wanted, render: Render)
    requires WellGrouped(id, d) && ApplyOne(id, current, d, render).Applied?
    ensures var vs := ApplyOne(id, current, d, render).vs;
      ApplyOne(id, Some(vs), d, render) == Applied(vs, false)
  {
    var first := ApplyOne(id, current, d, render);
    if first.written {
      var start := if current.Some? then current.value else NewManagedVS(id, d);
      InjectedKeepsBase(id, start.spec, d);
      var p, list := Prepared(start.spec, d), Injected(id, start.spec, d);
      PreparedTwice(p, list, start.spec, d);
      var again := WithHttp(p, list);
      assert Prepared(again, d) == again && BaseRoute(again, d) == BaseRoute(start.spec, d);
      assert Injected(id, again, d) == list;
    }
  }

  lemma PreparedTwice(p: Value, list: seq<Value>, spec: Value, d: Wanted)
    requires p == Prepared(spec, d) && BaseRoute(spec, d).Some? && FirstRoute(list) == BaseRoute(spec, d)
    ensures var again := WithHttp(p, list);
      && Prepared(again, d) == again && BaseRoute(again, d) == BaseRoute(spec, d)
      && (d.managed ==> HasMeshGateway(again))
  {
    var g := EnsureGateways(spec, d.managed);
    HttpOfGateways(spec, d.managed);
    GatewaysKept(g, [DefaultRule("default", d.hosts)]);
    GatewaysKept(p, list);
  }

  /** Where the stored list is the injected one: always, unless the rendering confuses it
      with a different list that was there before. */
  lemma ApplyStoresInjected(id: Identity, current: Option<VirtualService>, d: Wanted, render: Render)
    requires ApplyOne(id, current, d, render).Applied?
    ensures var start := if current.Some? then current.value else NewManagedVS(id, d);
      var r := ApplyOne(id, current, d, render);
      (HttpOf(r.vs.spec) == Injected(id, start.spec, d)) == (r.written || HttpOf(start.spec) == Injected(id, start.spec, d))
  {
  }

  // ---------------------------------------------------------------- all targets

  datatype Failure = NoFailure | MissingTarget | UnsafeTarget

  /** What applying does at one target key, given the object found there. */
  type Effect = (string, Option<VirtualService>) -> Outcome

  function EffectOf(id: Identity, desired: map<string, Wanted>, render: Render): Effect {
    (k: string, current: Option<VirtualService>) =>
      if k in desired then ApplyOne(id, current, desired[k], render) else Missing
  }

  function Visit(store: map<Key, VirtualService>, k: string, effect: Effect): (map<Key, VirtualService>, Failure) {
    match effect(k, Lookup(store, SplitKey(k)))
    case Missing => (store, MissingTarget)
    case Unsafe => (store, UnsafeTarget)
    case Applied(vs, written) => (store[SplitKey(k) := vs], NoFailure)
  }

  function VisitAll(store: map<Key, VirtualService>, order: seq<string>, effect: Effect): (map<Key, VirtualService>, Failure)
    decreases order
  {
    if order == [] then (store, NoFailure)
    else
      var r := Visit(store, order[0], effect);
      if r.1 != NoFailure then r else VisitAll(r.0, order[1..], effect)
  }

  /** The loop over the targets, in the order `order`: it stops at the first failure and
      keeps what it did before. */
  function ApplyAll(id: Identity, store: map<Key, VirtualService>, desired: map<string, Wanted>, order: seq<string>, render: Render): (map<Key, VirtualService>, Failure) {
    VisitAll(store, order, EffectOf(id, desired, render))
  }

  lemma {:induction false} VisitAppend(store: map<Key, VirtualService>, a: seq<string>, b: seq<string>, effect: Effect)
    ensures var r := VisitAll(store, a, effect);
      VisitAll(store, a + b, effect) == if r.1 == NoFailure then VisitAll(r.0, b, effect) else r
    decreases a
  {
    if a == [] {
      assert a + b == b;
    } else {
      assert (a + b)[1..] == a[1..] + b;
      VisitAppend(Visit(store, a[0], effect).0, a[1..], b, effect);
    }
  }

  /** A failing pass has applied the targets before the failing one, and keeps that. */
  lemma {:induction false} FailureKeepsEarlier(store: map<Key, VirtualService>, order: seq<string>, effect: Effect) returns (j: nat)
    requires VisitAll(store, order, effect).1 != NoFailure
    ensures var after := VisitAll(store, order, effect).0;
      && j < |order| && VisitAll(store, order[..j], effect) == (after, NoFailure)
      && !effect(order[j], Lookup(after, SplitKey(order[j]))).Applied?
      && VisitAll(store, order, effect).1 == Visit(after, order[j], effect).1
    decreases order
  {
    var r := Visit(store, order[0], effect);
    if r.1 != NoFailure {
      j := 0;
    } else {
      var i := FailureKeepsEarlier(r.0, order[1..], effect);
      j := i + 1;
      assert order[..j][1..] == order[1..][..i] && order[..j][0] == order[0];
    }
  }

  /** Visiting one more target, and how a failure there ends the visit. */
  lemma OneMore(start: map<Key, VirtualService>, store: map<Key, VirtualService>, keys: set<string>, order: seq<string>, k: string, todo: set<string>, effect: Effect)
    requires k in keys && k !in todo && todo <= keys && Enumerates(order, keys - todo - {k})
    requires (store, NoFailure) == VisitAll(start, order, effect)
    ensures var r := Visit(store, k, effect);
      && Enumerates(order + [k], keys - todo) && VisitAll(start, order + [k], effect) == r
      && Enumerates(order + [k] + Listing(todo), keys)
      && (r.1 != NoFailure ==> VisitAll(start, order + [k] + Listing(todo), effect) == r)
  {
    EnumerateMore(order, [k], keys - todo - {k}, {k});
    EnumerateMore(order + [k], Listing(todo), keys - todo, todo);
    assert keys - todo - {k} + {k} == keys - todo;
    assert keys - todo + todo == keys;
    VisitAppend(start, order, [k], effect);
    VisitAppend(start, order + [k], Listing(todo), effect);
  }

  lemma EnumerateMore(a: seq<string>, b: seq<string>, s: set<string>, t: set<string>)
    requires Enumerates(a, s) && Enumerates(b, t) && s !! t
    ensures Enumerates(a + b, s + t)
  {
    assert forall x :: x in a + b <==> x in a || x in b;
    forall i, j | 0 <= i < j < |a + b| ensures (a + b)[i] != (a + b)[j] {
      if i < |a| <= j { assert a[i] in s && b[j - |a|] in t; }
    }
  }

  /** The loop body: get or create the object, rewrite it in memory, store it if needed. */
  method ApplyTarget(s: Server, targetKey: string, desired: map<string, Wanted>, render: Render) returns (failure: Failure)
    requires targetKey in desired
    modifies s`vss
    ensures (s.vss, failure) == Visit(old(s.vss), targetKey, EffectOf(s.fi.id, desired, render))
  {
    var d := desired[targetKey];
    var key := SplitKey(targetKey);
    var created := key !in s.vss;
    if created && !d.managed { return MissingTarget; }
    var vs := new Draft(if created then NewManagedVS(s.fi.id, d) else s.vss[key]);
    ghost var start := vs.spec;
    var gatewayChanged := vs.EnsureMeshGateway(d.managed);
    var baseRoute := vs.FindAnyExistingRoute();
    if baseRoute.None? {
      if !d.managed { return UnsafeTarget; }
      baseRoute := Some(DefaultRoute(d.hosts));
      vs.EnsureAtLeastOneDefaultRule(d.hosts);
    }
    assert vs.spec == Prepared(start, d) && baseRoute == BaseRoute(start, d);
    var rules := AttachRoutes(d.rules, baseRoute.value);
    var changed := vs.PatchHTTP(PrefixOf(s.fi.id.name), rules, render);
    if created || changed || gatewayChanged {
      s.vss := s.vss[key := VirtualService(vs.labels, vs.spec)];
    } else {
      assert s.vss == old(s.vss)[key := old(s.vss)[key]];
    }
    return NoFailure;
  }

  method AttachRoutes(rules: seq<Value>, baseRoute: seq<Value>) returns (r: seq<Value>)
    ensures r == EnsureRoutes(rules, baseRoute)
  {
    r := [];
    for i := 0 to |rules|
      invariant r == EnsureRoutes(rules[..i], baseRoute)
    {
      assert rules[..i + 1] == rules[..i] + [rules[i]];
      r := r + [EnsureRoute(rules[i], baseRoute)];
    }
    assert rules[..|rules|] == rules;
  }

  /** The order Go visits the map in is not determined: any enumeration of the keys may
      come out. The store ends as that enumeration leaves it. */
  method ApplyDesiredTargets(s: Server, desired: map<string, Wanted>, render: Render) returns (failure: Failure, ghost order: seq<string>)
    modifies s`vss
    ensures Enumerates(order, desired.Keys)
    ensures (s.vss, failure) == ApplyAll(s.fi.id, old(s.vss), desired, order, render)
  {
    var todo := desired.Keys;
    order := [];
    while todo != {}
      invariant todo <= desired.Keys
      invariant Enumerates(order, desired.Keys - todo)
      invariant (s.vss, NoFailure) == ApplyAll(s.fi.id, old(s.vss), desired, order, render)
      decreases |todo|
    {
      var k :| k in todo;
      todo := todo - {k};
      OneMore(old(s.vss), s.vss, desired.Keys, order, k, todo, EffectOf(s.fi.id, desired, render));
      failure := ApplyTarget(s, k, desired, render);
      if failure != NoFailure {
        order := order + [k] + Listing(todo);
        return;
      }
      order := order + [k];
    }
    return NoFailure, order;
  }

  /** Some enumeration of a set. */
  ghost function Listing(s: set<string>): (r: seq<string>)
    ensures Enumerates(r, s)
    decreases |s|
  {
    if s == {} then [] else var k :| k in s; [k] + Listing(s - {k})
  }

  // ---------------------------------------------------------------- order does not matter

  ghost predicate DistinctTargets(order: seq<string>) {
    forall i, j :: 0 <= i < j < |order| ==> SplitKey(order[i]) != SplitKey(order[j])
  }

  /** Each target ends as one visit of its own start leaves it; nothing else changes. */
  lemma {:induction false} VisitPointwise(store: map<Key, VirtualService>, order: seq<string>, effect: Effect)
    requires DistinctTargets(order)
    ensures var r := VisitAll(store, order, effect);
      && (r.1 == NoFailure <==> forall k :: k in order ==> effect(k, Lookup(store, SplitKey(k))).Applied?)
      && (r.1 == NoFailure ==>
            && (forall k :: k in order ==> Lookup(r.0, SplitKey(k)) == Some(effect(k, Lookup(store, SplitKey(k))).vs))
            && (forall p :: (forall k :: k in order ==> SplitKey(k) != p) ==> Lookup(r.0, p) == Lookup(store, p)))
    decreases order
  {
    if order != [] {
      var k0, rest := order[0], order[1..];
      assert order == [k0] + rest;
      var r0 := Visit(store, k0, effect);
      if r0.1 == NoFailure {
        DistinctTail(order);
        VisitPointwise(r0.0, rest, effect);
        var r := VisitAll(r0.0, rest, effect);
        assert forall k :: k in rest ==> Lookup(r0.0, SplitKey(k)) == Lookup(store, SplitKey(k));
        if r.1 == NoFailure {
          assert Lookup(r.0, SplitKey(k0)) == Lookup(r0.0, SplitKey(k0));
        }
      }
    }
  }

  lemma DistinctTail(order: seq<string>)
    requires DistinctTargets(order) && order != []
    ensures DistinctTargets(order[1..]) && forall k :: k in order[1..] ==> SplitKey(k) != SplitKey(order[0])
  {
    var rest := order[1..];
    assert forall i :: 0 <= i < |rest| ==> rest[i] == order[i + 1];
  }

  lemma SameLookups(a: map<Key, VirtualService>, b: map<Key, VirtualService>)
    requires forall p :: Lookup(a, p) == Lookup(b, p)
    ensures a == b
  {
    forall p ensures p in a <==> p in b { assert Lookup(a, p) == Lookup(b, p); }
    forall p | p in a ensures a[p] == b[p] { assert Lookup(a, p) == Lookup(b, p); }
  }

  lemma TargetsDistinct(id: Identity, actions: seq<MeshAction>, order: seq<string>)
    requires AllDereferenceable(actions) && '/' !in id.ns && Enumerates(order, DesiredByTarget(id, actions).Keys)
    ensures DistinctTargets(order)
  {
    GroupingSound(id, actions);
    forall k | k in order ensures JoinKey(SplitKey(k).0, SplitKey(k).1) == k {
      var a :| a in actions && TargetKey(id, a) == Some(k);
      SplitJoin(id.ns, if a.direction == INBOUND then a.virtualServiceRef.value else ManagedName(id, a));
    }
    forall i, j | 0 <= i < j < |order| ensures SplitKey(order[i]) != SplitKey(order[j]) {
      assert order[i] in order && order[j] in order;
    }
  }

  /** Whatever order the target map is visited in, a pass in which no target fails ends in
      the same store; and whether one fails does not depend on the order either. */
  lemma ApplyOrderFree(id: Identity, store: map<Key, VirtualService>, actions: seq<MeshAction>, x: seq<string>, y: seq<string>, render: Render)
    requires AllDereferenceable(actions) && '/' !in id.ns
    requires Enumerates(x, DesiredByTarget(id, actions).Keys) && Enumerates(y, DesiredByTarget(id, actions).Keys)
    ensures var d := DesiredByTarget(id, actions);
      var rx, ry := ApplyAll(id, store, d, x, render), ApplyAll(id, store, d, y, render);
      (rx.1 == NoFailure <==> ry.1 == NoFailure) && (rx.1 == NoFailure ==> rx == ry)
  {
    var d := DesiredByTarget(id, actions);
    TargetsDistinct(id, actions, x);
    TargetsDistinct(id, actions, y);
    VisitOrderFree(store, x, y, EffectOf(id, d, render));
  }

  lemma VisitOrderFree(store: map<Key, VirtualService>, x: seq<string>, y: seq<string>, effect: Effect)
    requires DistinctTargets(x) && DistinctTargets(y) && forall k :: k in x <==> k in y
    ensures var rx, ry := VisitAll(store, x, effect), VisitAll(store, y, effect);
      (rx.1 == NoFailure <==> ry.1 == NoFailure) && (rx.1 == NoFailure ==> rx == ry)
  {
    VisitPointwise(store, x, effect);
    VisitPointwise(store, y, effect);
    var rx, ry := VisitAll(store, x, effect), VisitAll(store, y, effect);
    if rx.1 == NoFailure {
      forall p ensures Lookup(rx.0, p) == Lookup(ry.0, p) {
        if k :| k in x && SplitKey(k) == p { assert k in y; }
      }
      SameLookups(rx.0, ry.0);
    }
  }

  // ---------------------------------------------------------------- a whole pass again

  lemma {:induction false} RuleSource(id: Identity, actions: seq<MeshAction>, key: string, v: Value) returns (a: MeshAction)
    requires AllDereferenceable(actions) && v in RulesFor(id, actions, key)
    ensures a in actions && TargetKey(id, a) == Some(key) && v == InjectedRule(id, a)
  {
    var n := |actions| - 1;
    assert actions == actions[..n] + [actions[n]];
    if v in RulesFor(id, actions[..n], key) {
      a := RuleSource(id, actions[..n], key, v);
    } else {
      a := actions[n];
    }
  }

  lemma {:induction false} RulesForSome(id: Identity, actions: seq<MeshAction>, key: string, a: MeshAction)
    requires AllDereferenceable(actions) && a in actions && TargetKey(id, a) == Some(key)
    ensures InjectedRule(id, a) in RulesFor(id, actions, key)
  {
    var n := |actions| - 1;
    assert actions == actions[..n] + [actions[n]];
    if a in actions[..n] { RulesForSome(id, actions[..n], key, a); }
  }

  /** The rules grouped under a target are those of the actions aimed at it. */
  lemma RuleOrigin(id: Identity, actions: seq<MeshAction>, k: string, v: Value) returns (a: MeshAction)
    requires AllDereferenceable(actions) && k in DesiredByTarget(id, actions)
    requires v in DesiredByTarget(id, actions)[k].rules
    ensures a in actions && TargetKey(id, a) == Some(k) && v == InjectedRule(id, a)
  {
    GroupingSound(id, actions);
    assert v in multiset(RulesFor(id, actions, k));
    a := RuleSource(id, actions, k, v);
  }

  lemma RuleGrouped(id: Identity, actions: seq<MeshAction>, k: string, a: MeshAction)
    requires AllDereferenceable(actions) && a in actions && TargetKey(id, a) == Some(k)
    ensures k in DesiredByTarget(id, actions) && InjectedRule(id, a) in DesiredByTarget(id, actions)[k].rules
  {
    GroupingSound(id, actions);
    RulesForSome(id, actions, k, a);
    assert InjectedRule(id, a) in multiset(DesiredByTarget(id, actions)[k].rules);
  }

  /** Grouping yields, for every target, a non-empty list of recognisable rules. */
  lemma GroupedWell(id: Identity, actions: seq<MeshAction>, k: string)
    requires AllDereferenceable(actions) && k in DesiredByTarget(id, actions)
    ensures WellGrouped(id, DesiredByTarget(id, actions)[k])
  {
    var rules := DesiredByTarget(id, actions)[k].rules;
    assert rules != [] by {
      GroupingSound(id, actions);
      var a :| a in actions && TargetKey(id, a) == Some(k);
      RuleGrouped(id, actions, k, a);
    }
    forall v | v in rules ensures Own(PrefixOf(id.name), v) && Routeless(v) {
      var a := RuleOrigin(id, actions, k, v);
      InjectedRuleShape(id, a);
    }
  }

  /** A second pass over the store a first one left, in any order, leaves it untouched. */
  lemma SecondPassIdle(id: Identity, store: map<Key, VirtualService>, actions: seq<MeshAction>, x: seq<string>, y: seq<string>, render: Render)
    requires AllDereferenceable(actions) && '/' !in id.ns
    requires Enumerates(x, DesiredByTarget(id, actions).Keys) && Enumerates(y, DesiredByTarget(id, actions).Keys)
    requires ApplyAll(id, store, DesiredByTarget(id, actions), x, render).1 == NoFailure
    ensures var d := DesiredByTarget(id, actions);
      var after := ApplyAll(id, store, d, x, render).0;
      ApplyAll(id, after, d, y, render) == (after, NoFailure)
  {
    var d := DesiredByTarget(id, actions);
    var effect := EffectOf(id, d, render);
    TargetsDistinct(id, actions, x);
    assert Idempotent(effect, d.Keys) by {
      forall k, c | k in d && effect(k, c).Applied? ensures effect(k, Some(effect(k, c).vs)) == Applied(effect(k, c).vs, false) {
        GroupedWell(id, actions, k);
        ApplyIdempotent(id, c, d[k], render);
      }
    }
    VisitTwice(store, x, y, effect);
  }

  ghost predicate Idempotent(effect: Effect, keys: set<string>) {
    forall k, c :: k in keys && effect(k, c).Applied? ==> effect(k, Some(effect(k, c).vs)) == Applied(effect(k, c).vs, false)
  }

  lemma VisitTwice(store: map<Key, VirtualService>, x: seq<string>, y: seq<string>, effect: Effect)
    requires DistinctTargets(x) && (forall k :: k in y ==> k in x) && Idempotent(effect, SetOf(x))
    requires VisitAll(store, x, effect).1 == NoFailure
    ensures var after := VisitAll(store, x, effect).0; VisitAll(after, y, effect) == (after, NoFailure)
  {
    VisitPointwise(store, x, effect);
    var after := VisitAll(store, x, effect).0;
    forall k | k in y ensures Visit(after, k, effect) == (after, NoFailure) {
      assert k in x;
      var vs := effect(k, Lookup(store, SplitKey(k))).vs;
      assert after[SplitKey(k) := vs] == after;
    }
    IdleVisits(after, y, effect);
  }

  lemma {:induction false} IdleVisits(store: map<Key, VirtualService>, order: seq<string>, effect: Effect)
    requires forall k :: k in order ==> Visit(store, k, effect) == (store, NoFailure)
    ensures VisitAll(store, order, effect) == (store, NoFailure)
    decreases order
  {
    if order != [] {
      assert order[0] in order;
      IdleVisits(store, order[1..], effect);
    }
  }

  // ---------------------------------------------------------------- validated specs

  /** The experiment's effect on traffic through one target, under first-match routing,
      whatever the conditions mean that users write and the experiment does not. With a
      validated spec: a request whose path, headers and caller some action aimed at the
      target declares resolves to the rule of such an action, which goes where requests
      went before and delays or aborts as declared, at most maxTrafficPercent of them; any
      other resolves as if the experiment's rules were not there. */
  lemma TrafficContained(fi: FaultInjection, current: Option<VirtualService>, k: string, counts: PodCounts, render: Render, others: Others, r: Request)
    requires var actions := fi.spec.meshFaults;
      && MeshValid(fi.spec, counts) && AllDereferenceable(actions) && k in DesiredByTarget(fi.id, actions)
    requires var d := DesiredByTarget(fi.id, fi.spec.meshFaults)[k];
      var o := ApplyOne(fi.id, current, d, render);
      o.Applied? && (o.written || HttpOf(current.value.spec) == Injected(fi.id, current.value.spec, d))
    ensures var d := DesiredByTarget(fi.id, fi.spec.meshFaults)[k];
      var start := if current.Some? then current.value else NewManagedVS(fi.id, d);
      var prefix := PrefixOf(fi.id.name);
      var without := VirtualServices.Without(prefix, HttpOf(Prepared(start.spec, d)));
      var during := HttpOf(ApplyOne(fi.id, current, d, render).vs.spec);
      var hit := Resolve(during, Accepts(others), r);
      && Resolve(VirtualServices.Without(prefix, during), Accepts(others), r) == Resolve(without, Accepts(others), r)
      && (if Declared(fi, k, r) then hit.Some? && RouteOf(hit.value) == BaseRoute(start.spec, d) && RouteOf(hit.value).Some? && HitExplained(fi, k, hit.value, r)
          else hit == Resolve(without, Accepts(others), r))
  {
    var d := DesiredByTarget(fi.id, fi.spec.meshFaults)[k];
    var start := if current.Some? then current.value else NewManagedVS(fi.id, d);
    var prefix := PrefixOf(fi.id.name);
    GroupedWell(fi.id, fi.spec.meshFaults, k);
    ApplyStoresInjected(fi.id, current, d, render);
    InjectedKeepsBase(fi.id, start.spec, d);
    var base := BaseRoute(start.spec, d).value;
    EnsuredRules(prefix, d.rules, base);
    RoutingContained(prefix, HttpOf(Prepared(start.spec, d)), EnsureRoutes(d.rules, base), Accepts(others), r);
    DeclaredAccepted(fi, k, counts, base, others, r);
  }

  ghost predicate AimedActionWants(fi: FaultInjection, a: MeshAction, k: string, r: Request) {
    a in fi.spec.meshFaults && Dereferenceable(a) && TargetKey(fi.id, a) == Some(k) && Wants(a, r)
  }

  ghost predicate Declared(fi: FaultInjection, k: string, r: Request) {
    exists a :: AimedActionWants(fi, a, k, r)
  }

  /** The rule is the action's, given a route, and faults a permitted share. */
  ghost predicate Explains(fi: FaultInjection, a: MeshAction, v: Value) {
    && Dereferenceable(a) && (exists base :: v == EnsureRoute(InjectedRule(fi.id, a), base))
    && a.kind in {HTTP_LATENCY, HTTP_ABORT} && FaultsAs(a, v) && a.percent <= fi.spec.maxTrafficPercent
  }

  ghost predicate HitExplained(fi: FaultInjection, k: string, v: Value, r: Request) {
    exists a :: AimedActionWants(fi, a, k, r) && Explains(fi, a, v)
  }

  /** Some rule of the target accepts the request exactly when an action aimed at it
      declares it, and whichever accepts it is explained by such an action. */
  lemma DeclaredAccepted(fi: FaultInjection, k: string, counts: PodCounts, base: seq<Value>, others: Others, r: Request)
    requires var actions := fi.spec.meshFaults;
      && MeshValid(fi.spec, counts) && AllDereferenceable(actions) && k in DesiredByTarget(fi.id, actions)
    ensures var rules := EnsureRoutes(DesiredByTarget(fi.id, fi.spec.meshFaults)[k].rules, base);
      && (Declared(fi, k, r) <==> exists v :: v in rules && Accepts(others)(v, r))
      && forall v :: v in rules && Accepts(others)(v, r) ==> HitExplained(fi, k, v, r)
  {
    var actions := fi.spec.meshFaults;
    var source := DesiredByTarget(fi.id, actions)[k].rules;
    var rules := EnsureRoutes(source, base);
    forall v | v in rules && Accepts(others)(v, r) ensures HitExplained(fi, k, v, r) {
      var i :| 0 <= i < |source| && v == EnsureRoute(source[i], base);
      var a := RuleOrigin(fi.id, actions, k, source[i]);
      RuleExplained(fi, a, counts, base, others, r);
      assert AimedActionWants(fi, a, k, r);
    }
    if Declared(fi, k, r) {
      var a :| AimedActionWants(fi, a, k, r);
      RuleGrouped(fi.id, actions, k, a);
      RuleExplained(fi, a, counts, base, others, r);
      var i :| 0 <= i < |source| && source[i] == InjectedRule(fi.id, a);
      assert rules[i] in rules && Accepts(others)(rules[i], r);
    }
    if v :| v in rules && Accepts(others)(v, r) {
      assert HitExplained(fi, k, v, r);
    }
  }

  lemma RuleExplained(fi: FaultInjection, a: MeshAction, counts: PodCounts, base: seq<Value>, others: Others, r: Request)
    requires MeshValid(fi.spec, counts) && a in fi.spec.meshFaults && Dereferenceable(a)
    ensures var v := EnsureRoute(InjectedRule(fi.id, a), base);
      Explains(fi, a, v) && (Accepts(others)(v, r) <==> Wants(a, r))
  {
    var j :| 0 <= j < |fi.spec.meshFaults| && fi.spec.meshFaults[j] == a;
    assert ValidMeshAction(fi.spec, fi.spec.meshFaults[j], counts(j));
    InjectedRuleSound(fi.id, a, base, others, r);
  }
}
