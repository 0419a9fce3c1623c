/** mesh_fault.go: rewriting the HTTP rule list of one VirtualService. */
module VirtualServices {
  import opened Wrappers

  // ---------------------------------------------------------------- unstructured objects

  /** `map[string]any` and what it holds. */
  datatype Value =
    | Null
    | Str(text: string)
    | Num(n: int)
    | List(items: seq<Value>)
    | Obj(fields: map<string, Value>)

  function FieldsOf(v: Value): map<string, Value> {
    if v.Obj? then v.fields else map[]
  }

  /** spec.http, or nothing when it is missing or no list. */
  function HttpOf(spec: Value): seq<Value> {
    var f := FieldsOf(spec);
    if "http" in f && f["http"].List? then f["http"].items else []
  }

  function WithHttp(spec: Value, items: seq<Value>): (r: Value)
    ensures HttpOf(r) == items
  {
    Obj(FieldsOf(spec)["http" := List(items)])
  }

  /** The "name" of a rule, "" when missing or no string. */
  function RuleName(v: Value): string {
    var f := FieldsOf(v);
    if "name" in f && f["name"].Str? then f["name"].text else ""
  }

  /** fiRuleNamePrefix. */
  function PrefixOf(experiment: string): string { "fi-" + experiment + "-" }

  /** An item is an experiment's own when it is a map whose name starts with the prefix. */
  predicate Own(prefix: string, v: Value) {
    v.Obj? && prefix <= RuleName(v)
  }

  function Without(prefix: string, list: seq<Value>): seq<Value> {
    if list == [] then []
    else (if Own(prefix, list[0]) then [] else [list[0]]) + Without(prefix, list[1..])
  }

  function OwnPart(prefix: string, list: seq<Value>): seq<Value> {
    if list == [] then []
    else (if Own(prefix, list[0]) then [list[0]] else []) + OwnPart(prefix, list[1..])
  }

  function Patched(prefix: string, list: seq<Value>, rules: seq<Value>): seq<Value> {
    rules + Without(prefix, list)
  }

  ghost predicate AllOwn(prefix: string, rules: seq<Value>) {
    forall v :: v in rules ==> Own(prefix, v)
  }

  /** Non-empty "route" list of an item. */
  function RouteOf(v: Value): Option<seq<Value>> {
    var f := FieldsOf(v);
    if "route" in f && f["route"].List? && f["route"].items != [] then Some(f["route"].items) else None
  }

  /** findAnyExistingRoute. */
  function FirstRoute(list: seq<Value>): Option<seq<Value>> {
    if list == [] then None
    else if RouteOf(list[0]).Some? then RouteOf(list[0])
    else FirstRoute(list[1..])
  }

  predicate Routeless(rule: Value) {
    var f := FieldsOf(rule);
    "route" !in f && "redirect" !in f && "direct_response" !in f
  }

  /** ensureHTTPRuleHasRoute on a clone of the rule. */
  function EnsureRoute(rule: Value, base: seq<Value>): Value {
    if Routeless(rule) then Obj(FieldsOf(rule)["route" := List(base)]) else rule
  }

  function EnsureRoutes(rules: seq<Value>, base: seq<Value>): (r: seq<Value>)
    ensures |r| == |rules| && forall i :: 0 <= i < |rules| ==> r[i] == EnsureRoute(rules[i], base)
  {
    seq(|rules|, i requires 0 <= i < |rules| => EnsureRoute(rules[i], base))
  }

  function DefaultRoute(hosts: seq<string>): seq<Value> {
    [Obj(map["destination" := Obj(map["host" := Str(if hosts == [] then "" else hosts[0])])])]
  }

  function DefaultRule(name: string, hosts: seq<string>): Value {
    Obj(map["name" := Str(name),
            "match" := List([Obj(map["uri" := Obj(map["prefix" := Str("/")])])]),
            "route" := List(DefaultRoute(hosts))])
  }

  /** ensureManagedOutboundVSGatewaysMesh. */
  function EnsureGateways(spec: Value, managed: bool): Value {
    if !managed || HasMeshGateway(spec) then spec
    else Obj(FieldsOf(spec)["gateways" := List([Str("mesh")])])
  }

  predicate HasMeshGateway(spec: Value) {
    var f := FieldsOf(spec);
    "gateways" in f && f["gateways"].List? && Str("mesh") in f["gateways"].items
  }

  /** ensureVSHasAtLeastOneDefaultRouteRule. */
  function EnsureDefaultRule(spec: Value, hosts: seq<string>): Value {
    if HttpOf(spec) != [] then spec else WithHttp(spec, [DefaultRule("default", hosts)])
  }

  /** `fmt.Sprintf("%v", list)` is not modelled: any rendering of lists as text. */
  type Render = seq<Value> -> string

  datatype VirtualService = VirtualService(labels: map<string, string>, spec: Value)

  // ---------------------------------------------------------------- the object in memory

  /** The copy of a VirtualService a reconcile fetched and rewrites before storing it. */
  class Draft {
    const labels: map<string, string>
    var spec: Value

    constructor (vs: VirtualService)
      ensures labels == vs.labels && spec == vs.spec
    {
      labels, spec := vs.labels, vs.spec;
    }

    method EnsureMeshGateway(managed: bool) returns (changed: bool)
      modifies this
      ensures spec == EnsureGateways(old(spec), managed)
      ensures changed == (managed && !HasMeshGateway(old(spec)))
    {
      if !managed { return false; }
      var f := FieldsOf(spec);
      if "gateways" in f && f["gateways"].List? {
        var arr := f["gateways"].items;
        for i := 0 to |arr|
          invariant Str("mesh") !in arr[..i]
        {
          if arr[i] == Str("mesh") { return false; }
        }
        assert arr[..|arr|] == arr;
      }
      spec := Obj(f["gateways" := List([Str("mesh")])]);
      return true;
    }

    method FindAnyExistingRoute() returns (route: Option<seq<Value>>)
      ensures route == FirstRoute(HttpOf(spec))
    {
      var list := HttpOf(spec);
      for i := 0 to |list|
        invariant FirstRoute(list) == FirstRoute(list[i..])
      {
        assert list[i..][0] == list[i] && list[i..][1..] == list[i + 1..];
        if RouteOf(list[i]).Some? { return RouteOf(list[i]); }
      }
      return None;
    }

    method EnsureAtLeastOneDefaultRule(hosts: seq<string>)
      modifies this
      ensures spec == EnsureDefaultRule(old(spec), hosts)
    {
      if HttpOf(spec) == [] {
        spec := WithHttp(spec, [DefaultRule("default", hosts)]);
      }
    }

    /** patchVirtualServiceHTTP. */
    method PatchHTTP(prefix: string, rules: seq<Value>, render: Render) returns (changed: bool)
      modifies this
      ensures spec == WithHttp(old(spec), Patched(prefix, HttpOf(old(spec)), rules))
      ensures changed == (render(HttpOf(old(spec))) != render(Patched(prefix, HttpOf(old(spec)), rules)))
    {
      var existing := HttpOf(spec);
      var filtered := FilterForeign(prefix, existing);
      var newHTTP: seq<Value> := [];
      for i := 0 to |rules|
        invariant newHTTP == rules[..i]
      {
        newHTTP := newHTTP + [rules[i]];
      }
      newHTTP := newHTTP + filtered;
      assert newHTTP == Patched(prefix, existing, rules);
      changed := render(existing) != render(newHTTP);
      spec := WithHttp(spec, newHTTP);
    }
  }

  /** The loop over the existing items, which keeps those without the prefix. */
  method FilterForeign(prefix: string, existing: seq<Value>) returns (filtered: seq<Value>)
    ensures filtered == Without(prefix, existing)
  {
    filtered := [];
    for i := 0 to |existing|
      invariant filtered == Without(prefix, existing[..i])
    {
      WithoutNext(prefix, existing, i);
      if !Own(prefix, existing[i]) {
        filtered := filtered + [existing[i]];
      }
    }
    assert existing[..|existing|] == existing;
  }

  lemma WithoutNext(prefix: string, list: seq<Value>, i: nat)
    requires i < |list|
    ensures Without(prefix, list[..i + 1]) == Without(prefix, list[..i]) + if Own(prefix, list[i]) then [] else [list[i]]
  {
    assert list[..i + 1] == list[..i] + [list[i]];
    UserItemsAppend(prefix, list[..i], [list[i]]);
  }

  // ---------------------------------------------------------------- filters

  /** Both filters go through concatenation. */
  lemma WithoutAppend(prefix: string, a: seq<Value>, b: seq<Value>)
    ensures Without(prefix, a + b) == Without(prefix, a) + Without(prefix, b)
    ensures OwnPart(prefix, a + b) == OwnPart(prefix, a) + OwnPart(prefix, b)
  {
    UserItemsAppend(prefix, a, b);
    OwnItemsAppend(prefix, a, b);
  }

  lemma Regrouped(a: seq<Value>, b: seq<Value>, c: seq<Value>)
    ensures (a + b) + c == a + (b + c)
  {
  }

  lemma {:induction false} UserItemsAppend(prefix: string, a: seq<Value>, b: seq<Value>)
    ensures Without(prefix, a + b) == Without(prefix, a) + Without(prefix, b)
  {
    if a == [] {
      assert a + b == b;
    } else {
      assert (a + b)[0] == a[0] && (a + b)[1..] == a[1..] + b;
      UserItemsAppend(prefix, a[1..], b);
      Regrouped(if Own(prefix, a[0]) then [] else [a[0]], Without(prefix, a[1..]), Without(prefix, b));
    }
  }

  lemma {:induction false} OwnItemsAppend(prefix: string, a: seq<Value>, b: seq<Value>)
    ensures OwnPart(prefix, a + b) == OwnPart(prefix, a) + OwnPart(prefix, b)
  {
    if a == [] {
      assert a + b == b;
    } else {
      assert (a + b)[0] == a[0] && (a + b)[1..] == a[1..] + b;
      OwnItemsAppend(prefix, a[1..], b);
      Regrouped(if Own(prefix, a[0]) then [a[0]] else [], OwnPart(prefix, a[1..]), OwnPart(prefix, b));
    }
  }

  lemma {:induction false} WithoutOwn(prefix: string, rules: seq<Value>)
    requires AllOwn(prefix, rules)
    ensures Without(prefix, rules) == [] && OwnPart(prefix, rules) == rules
  {
    if rules != [] {
      assert rules == [rules[0]] + rules[1..];
      WithoutOwn(prefix, rules[1..]);
    }
  }

  lemma {:induction false} WithoutNone(prefix: string, list: seq<Value>)
    requires forall v :: v in list ==> !Own(prefix, v)
    ensures Without(prefix, list) == list && OwnPart(prefix, list) == []
  {
    if list != [] {
      assert list == [list[0]] + list[1..];
      WithoutNone(prefix, list[1..]);
    }
  }

  lemma {:induction false} WithoutMembers(prefix: string, list: seq<Value>)
    ensures forall v :: v in Without(prefix, list) <==> v in list && !Own(prefix, v)
    ensures forall v :: v in OwnPart(prefix, list) <==> v in list && Own(prefix, v)
  {
    if list != [] {
      assert list == [list[0]] + list[1..];
      WithoutMembers(prefix, list[1..]);
    }
  }

  /** A patch replaces the own items and nothing else. */
  lemma PatchedParts(prefix: string, list: seq<Value>, rules: seq<Value>)
    requires AllOwn(prefix, rules)
    ensures Without(prefix, Patched(prefix, list, rules)) == Without(prefix, list)
    ensures OwnPart(prefix, Patched(prefix, list, rules)) == rules
  {
    var rest := Without(prefix, list);
    WithoutAppend(prefix, rules, rest);
    WithoutOwn(prefix, rules);
    WithoutMembers(prefix, list);
    WithoutNone(prefix, rest);
  }

  // ---------------------------------------------------------------- inject / clean up round trip

  function PatchAll(prefix: string, list: seq<Value>, history: seq<seq<Value>>): seq<Value>
    decreases history
  {
    if history == [] then list
    else PatchAll(prefix, Patched(prefix, list, history[0]), history[1..])
  }

  /** Whatever was injected on the way, a final patch without rules leaves exactly the
      original list minus own items, in order; all of it when it held none. */
  lemma {:induction false} RoundTrip(prefix: string, list: seq<Value>, history: seq<seq<Value>>)
    requires forall rules :: rules in history ==> AllOwn(prefix, rules)
    ensures Patched(prefix, PatchAll(prefix, list, history), []) == Without(prefix, list)
    ensures (forall v :: v in list ==> !Own(prefix, v)) ==> Patched(prefix, PatchAll(prefix, list, history), []) == list
    decreases history
  {
    if history != [] {
      PatchedParts(prefix, list, history[0]);
      RoundTrip(prefix, Patched(prefix, list, history[0]), history[1..]);
    }
    if forall v :: v in list ==> !Own(prefix, v) { WithoutNone(prefix, list); }
  }

  // ---------------------------------------------------------------- the base route

  lemma {:induction false} FirstRouteAppend(a: seq<Value>, b: seq<Value>)
    ensures FirstRoute(a + b) == if FirstRoute(a).Some? then FirstRoute(a) else FirstRoute(b)
  {
    if a == [] {
      assert a + b == b;
    } else {
      assert (a + b)[1..] == a[1..] + b;
      FirstRouteAppend(a[1..], b);
    }
  }

  lemma {:induction false} FirstRouteUniform(list: seq<Value>, route: seq<Value>)
    requires forall v :: v in list ==> RouteOf(v) == Some(route)
    ensures FirstRoute(list) == if list == [] then None else Some(route)
  {
    if list != [] { assert list[0] in list; }
  }

  /** One apply on a target that has a base route. */
  function Inject(prefix: string, list: seq<Value>, rules: seq<Value>): seq<Value>
    requires FirstRoute(list).Some?
  {
    Patched(prefix, list, EnsureRoutes(rules, FirstRoute(list).value))
  }

  ghost predicate Desired(prefix: string, rules: seq<Value>) {
    forall v :: v in rules ==> Own(prefix, v) && Routeless(v)
  }

  /** Own items carry the route `route`, which is also the user's first. */
  ghost predicate Based(prefix: string, list: seq<Value>, route: seq<Value>) {
    && FirstRoute(Without(prefix, list)) == Some(route)
    && forall v :: v in list && Own(prefix, v) ==> RouteOf(v) == Some(route)
  }

  lemma FirstRouteNonEmpty(list: seq<Value>)
    ensures FirstRoute(list).Some? ==> FirstRoute(list).value != []
  {
  }

  lemma EnsuredRules(prefix: string, rules: seq<Value>, base: seq<Value>)
    requires Desired(prefix, rules) && base != []
    ensures AllOwn(prefix, EnsureRoutes(rules, base))
    ensures forall v :: v in EnsureRoutes(rules, base) ==> RouteOf(v) == Some(base)
  {
    forall v | v in EnsureRoutes(rules, base) ensures Own(prefix, v) && RouteOf(v) == Some(base) {
      var i :| 0 <= i < |rules| && v == EnsureRoute(rules[i], base);
      assert rules[i] in rules;
    }
  }

  /** Although the base route is read from a list that may start with injected rules, it
      is the user's first route, and stays so. */
  lemma {:induction false} BasedFirstRoute(prefix: string, list: seq<Value>, route: seq<Value>)
    requires Based(prefix, list, route)
    ensures FirstRoute(list) == Some(route)
  {
    if list != [] && !RouteOf(list[0]).Some? {
      assert list == [list[0]] + list[1..];
      assert list[0] in list;
      BasedFirstRoute(prefix, list[1..], route);
    } else if list != [] {
      assert list[0] in list;
    }
  }

  lemma InjectKeepsBased(prefix: string, list: seq<Value>, rules: seq<Value>, route: seq<Value>)
    requires Based(prefix, list, route) && Desired(prefix, rules)
    ensures FirstRoute(list) == Some(route) && Based(prefix, Inject(prefix, list, rules), route)
    ensures OwnPart(prefix, Inject(prefix, list, rules)) == EnsureRoutes(rules, route)
  {
    BasedFirstRoute(prefix, list, route);
    FirstRouteNonEmpty(list);
    EnsuredRules(prefix, rules, route);
    PatchedParts(prefix, list, EnsureRoutes(rules, route));
    WithoutMembers(prefix, list);
  }

  function InjectAll(prefix: string, list: seq<Value>, history: seq<seq<Value>>): seq<Value>
    decreases history
  {
    if history == [] || FirstRoute(list).None? then list
    else InjectAll(prefix, Inject(prefix, list, history[0]), history[1..])
  }

  /** Over any run of applies from a clean list, every injected rule carries the user's
      first non-empty route, and the user's own part never changes. */
  lemma BaseRouteStable(prefix: string, list: seq<Value>, history: seq<seq<Value>>)
    requires forall v :: v in list ==> !Own(prefix, v)
    requires FirstRoute(list).Some?
    requires forall rules :: rules in history ==> Desired(prefix, rules)
    ensures var f := InjectAll(prefix, list, history);
      && Without(prefix, f) == list
      && forall v :: v in f && Own(prefix, v) ==> RouteOf(v) == FirstRoute(list)
  {
    WithoutNone(prefix, list);
    InjectAllBased(prefix, list, history, FirstRoute(list).value);
  }

  lemma {:induction false} InjectAllBased(prefix: string, list: seq<Value>, history: seq<seq<Value>>, route: seq<Value>)
    requires Based(prefix, list, route)
    requires forall rules :: rules in history ==> Desired(prefix, rules)
    ensures var f := InjectAll(prefix, list, history);
      Based(prefix, f, route) && Without(prefix, f) == Without(prefix, list)
    decreases history
  {
    BasedFirstRoute(prefix, list, route);
    if history != [] {
      InjectKeepsBased(prefix, list, history[0], route);
      FirstRouteNonEmpty(list);
      EnsuredRules(prefix, history[0], route);
      PatchedParts(prefix, list, EnsureRoutes(history[0], route));
      InjectAllBased(prefix, Inject(prefix, list, history[0]), history[1..], route);
    }
  }

  /** When the user edits the routes under a running experiment (`injected` still in
      front, all with the old route), the next apply follows the edit exactly when
      nothing is injected or the edit left the first route as it was. */
  lemma RouteEditFollowed(prefix: string, injected: seq<Value>, route: seq<Value>, edited: seq<Value>)
    requires route != [] && FirstRoute(edited).Some?
    requires forall v :: v in injected ==> Own(prefix, v) && RouteOf(v) == Some(route)
    ensures FirstRoute(injected + edited) == FirstRoute(edited)
       <==> injected == [] || FirstRoute(edited) == Some(route)
  {
    FirstRouteAppend(injected, edited);
    FirstRouteUniform(injected, route);
  }

  // ---------------------------------------------------------------- several experiments

  datatype Op = Op(experiment: string, rules: seq<Value>)

  function RunOps(list: seq<Value>, ops: seq<Op>): seq<Value>
    decreases ops
  {
    if ops == [] then list
    else RunOps(Patched(PrefixOf(ops[0].experiment), list, ops[0].rules), ops[1..])
  }

  /** What `experiment` applied last, or `otherwise` if it never did. */
  function LastApplied(experiment: string, ops: seq<Op>, otherwise: seq<Value>): seq<Value>
    decreases ops
  {
    if ops == [] then otherwise
    else LastApplied(experiment, ops[1..], if ops[0].experiment == experiment then ops[0].rules else otherwise)
  }

  function UserPart(experiments: set<string>, list: seq<Value>): seq<Value> {
    if list == [] then []
    else (if OwnedByAny(experiments, list[0]) then [] else [list[0]]) + UserPart(experiments, list[1..])
  }

  predicate OwnedByAny(experiments: set<string>, v: Value) {
    exists e :: e in experiments && Own(PrefixOf(e), v)
  }

  /** Two experiments are told apart by their prefixes exactly when neither name is the
      other, or the other continued after a dash. */
  predicate Separate(a: string, b: string) {
    !(PrefixOf(a) <= PrefixOf(b)) && !(PrefixOf(b) <= PrefixOf(a))
  }

  lemma PrefixConflict(a: string, b: string)
    ensures PrefixOf(a) <= PrefixOf(b) <==> a == b || a + "-" <= b
    ensures Separate(a, b) <==> a != b && !(a + "-" <= b) && !(b + "-" <= a)
  {
    PrefixConflictOneWay(a, b);
    PrefixConflictOneWay(b, a);
  }

  lemma PrefixConflictOneWay(a: string, b: string)
    ensures PrefixOf(a) <= PrefixOf(b) <==> a == b || a + "-" <= b
  {
    var p, q := PrefixOf(a), PrefixOf(b);
    assert p[3..] == a + "-" && q[3..] == b + "-";
    assert p[..3] == "fi-" == q[..3];
    if p <= q {
      assert a + "-" == q[..|p|][3..] == (b + "-")[..|a| + 1];
      if |a| == |b| {
        assert a == (a + "-")[..|a|] == (b + "-")[..|a|] == b;
      } else {
        assert (b + "-")[..|a| + 1] == b[..|a| + 1];
      }
    }
    if a + "-" <= b {
      assert q == "fi-" + (a + "-" + b[|a| + 1..]) + "-";
      assert q[..|p|] == p;
    }
  }

  lemma OwnedOnce(p: string, q: string, v: Value)
    requires Own(p, v) && Own(q, v)
    ensures p <= q || q <= p
  {
    var n := RuleName(v);
    assert p == n[..|p|] && q == n[..|q|];
    if |p| <= |q| { assert q[..|p|] == n[..|q|][..|p|] == n[..|p|]; }
    else { assert p[..|q|] == n[..|p|][..|q|] == n[..|q|]; }
  }

  lemma {:induction false} OwnPartUntouched(p: string, q: string, list: seq<Value>)
    requires !(p <= q) && !(q <= p)
    ensures OwnPart(p, Without(q, list)) == OwnPart(p, list)
  {
    if list != [] {
      OwnPartUntouched(p, q, list[1..]);
      var head := if Own(q, list[0]) then [] else [list[0]];
      WithoutAppend(p, head, Without(q, list[1..]));
      if Own(p, list[0]) && Own(q, list[0]) { OwnedOnce(p, q, list[0]); }
    }
  }

  lemma {:induction false} UserPartAppend(experiments: set<string>, a: seq<Value>, b: seq<Value>)
    ensures UserPart(experiments, a + b) == UserPart(experiments, a) + UserPart(experiments, b)
  {
    if a == [] {
      assert a + b == b;
    } else {
      assert (a + b)[0] == a[0] && (a + b)[1..] == a[1..] + b;
      UserPartAppend(experiments, a[1..], b);
      Regrouped(if OwnedByAny(experiments, a[0]) then [] else [a[0]], UserPart(experiments, a[1..]), UserPart(experiments, b));
    }
  }

  lemma {:induction false} UserPartUntouched(experiments: set<string>, e: string, list: seq<Value>)
    requires e in experiments
    ensures UserPart(experiments, Without(PrefixOf(e), list)) == UserPart(experiments, list)
  {
    if list != [] {
      UserPartUntouched(experiments, e, list[1..]);
      var head := if Own(PrefixOf(e), list[0]) then [] else [list[0]];
      UserPartAppend(experiments, head, Without(PrefixOf(e), list[1..]));
    }
  }

  lemma {:induction false} UserPartOfOwn(experiments: set<string>, e: string, rules: seq<Value>)
    requires e in experiments && AllOwn(PrefixOf(e), rules)
    ensures UserPart(experiments, rules) == []
  {
    if rules != [] {
      assert rules == [rules[0]] + rules[1..];
      assert Own(PrefixOf(e), rules[0]);
      UserPartOfOwn(experiments, e, rules[1..]);
    }
  }

  lemma OneOpIsolated(experiments: set<string>, list: seq<Value>, op: Op)
    requires op.experiment in experiments && AllOwn(PrefixOf(op.experiment), op.rules)
    requires forall a, b :: a in experiments && b in experiments && a != b ==> Separate(a, b)
    ensures var r := Patched(PrefixOf(op.experiment), list, op.rules);
      && UserPart(experiments, r) == UserPart(experiments, list)
      && forall e :: e in experiments ==>
           OwnPart(PrefixOf(e), r) == if e == op.experiment then op.rules else OwnPart(PrefixOf(e), list)
  {
    var p := PrefixOf(op.experiment);
    var r := Patched(p, list, op.rules);
    PatchKeepsUserPart(experiments, list, op.experiment, op.rules);
    PatchedParts(p, list, op.rules);
    forall e | e in experiments && e != op.experiment ensures OwnPart(PrefixOf(e), r) == OwnPart(PrefixOf(e), list) {
      var q := PrefixOf(e);
      assert Separate(e, op.experiment);
      OwnPartUntouched(q, p, list);
      WithoutAppend(q, op.rules, Without(p, list));
      forall v | v in op.rules ensures !Own(q, v) {
        if Own(q, v) { OwnedOnce(q, p, v); }
      }
      WithoutNone(q, op.rules);
    }
  }

  /** Any interleaving of applies and cleanups by experiments with separate prefixes
      keeps the user's items as they were, in order, and leaves each experiment with
      exactly the rules it applied last. */
  lemma {:induction false} ExperimentsIsolated(experiments: set<string>, list: seq<Value>, ops: seq<Op>)
    requires forall a, b :: a in experiments && b in experiments && a != b ==> Separate(a, b)
    requires forall op :: op in ops ==> op.experiment in experiments && AllOwn(PrefixOf(op.experiment), op.rules)
    ensures var r := RunOps(list, ops);
      && UserPart(experiments, r) == UserPart(experiments, list)
      && forall e :: e in experiments ==>
           OwnPart(PrefixOf(e), r) == LastApplied(e, ops, OwnPart(PrefixOf(e), list))
    decreases ops
  {
    if ops != [] {
      OneOpIsolated(experiments, list, ops[0]);
      ExperimentsIsolated(experiments, Patched(PrefixOf(ops[0].experiment), list, ops[0].rules), ops[1..]);
    }
  }

  /** A run of applies and cleanups by several experiments, each apply giving its rules
      the first route it finds. */
  function InjectOps(list: seq<Value>, ops: seq<Op>): seq<Value>
    decreases ops
  {
    if ops == [] || FirstRoute(list).None? then list
    else InjectOps(Inject(PrefixOf(ops[0].experiment), list, ops[0].rules), ops[1..])
  }

  /** Items of any of the experiments carry `route`, which is also the user's first. */
  ghost predicate BasedForAll(experiments: set<string>, list: seq<Value>, route: seq<Value>) {
    && FirstRoute(UserPart(experiments, list)) == Some(route)
    && forall v :: v in list && OwnedByAny(experiments, v) ==> RouteOf(v) == Some(route)
  }

  lemma {:induction false} BasedForAllFirst(experiments: set<string>, list: seq<Value>, route: seq<Value>)
    requires BasedForAll(experiments, list, route)
    ensures FirstRoute(list) == Some(route)
  {
    if list != [] {
      assert list == [list[0]] + list[1..] && list[0] in list;
      if !RouteOf(list[0]).Some? { BasedForAllFirst(experiments, list[1..], route); }
    }
  }

  lemma {:induction false} UserPartOfUser(experiments: set<string>, list: seq<Value>)
    requires forall v :: v in list ==> !OwnedByAny(experiments, v)
    ensures UserPart(experiments, list) == list
  {
    if list != [] {
      assert list == [list[0]] + list[1..] && list[0] in list;
      UserPartOfUser(experiments, list[1..]);
    }
  }

  lemma InjectKeepsBasedForAll(experiments: set<string>, list: seq<Value>, op: Op, route: seq<Value>)
    requires BasedForAll(experiments, list, route) && op.experiment in experiments && Desired(PrefixOf(op.experiment), op.rules)
    ensures FirstRoute(list) == Some(route)
    ensures var r := Inject(PrefixOf(op.experiment), list, op.rules);
      BasedForAll(experiments, r, route) && UserPart(experiments, r) == UserPart(experiments, list)
  {
    var p := PrefixOf(op.experiment);
    BasedForAllFirst(experiments, list, route);
    FirstRouteNonEmpty(list);
    var rules := EnsureRoutes(op.rules, route);
    EnsuredRules(p, op.rules, route);
    PatchKeepsUserPart(experiments, list, op.experiment, rules);
    WithoutMembers(p, list);
    assert Inject(p, list, op.rules) == rules + Without(p, list);
  }

  lemma PatchKeepsUserPart(experiments: set<string>, list: seq<Value>, e: string, rules: seq<Value>)
    requires e in experiments && AllOwn(PrefixOf(e), rules)
    ensures UserPart(experiments, Patched(PrefixOf(e), list, rules)) == UserPart(experiments, list)
  {
    UserPartUntouched(experiments, e, list);
    UserPartOfOwn(experiments, e, rules);
    UserPartAppend(experiments, rules, Without(PrefixOf(e), list));
  }

  /** Also with several experiments at work, in any interleaving, every injected rule
      carries the first route of the user's own list, and that list stays as it was;
      prefixes need not even be separate for this. */
  lemma BaseRouteShared(experiments: set<string>, list: seq<Value>, ops: seq<Op>)
    requires forall v :: v in list ==> !OwnedByAny(experiments, v)
    requires FirstRoute(list).Some?
    requires forall op :: op in ops ==> op.experiment in experiments && Desired(PrefixOf(op.experiment), op.rules)
    ensures var f := InjectOps(list, ops);
      && UserPart(experiments, f) == list
      && forall v :: v in f && OwnedByAny(experiments, v) ==> RouteOf(v) == FirstRoute(list)
  {
    UserPartOfUser(experiments, list);
    InjectOpsBased(experiments, list, ops, FirstRoute(list).value);
  }

  lemma {:induction false} InjectOpsBased(experiments: set<string>, list: seq<Value>, ops: seq<Op>, route: seq<Value>)
    requires BasedForAll(experiments, list, route)
    requires forall op :: op in ops ==> op.experiment in experiments && Desired(PrefixOf(op.experiment), op.rules)
    ensures var f := InjectOps(list, ops);
      BasedForAll(experiments, f, route) && UserPart(experiments, f) == UserPart(experiments, list)
    decreases ops
  {
    if ops != [] {
      InjectKeepsBasedForAll(experiments, list, ops[0], route);
      InjectOpsBased(experiments, Inject(PrefixOf(ops[0].experiment), list, ops[0].rules), ops[1..], route);
    }
  }

  lemma PrefixTransitive(p: string, q: string, n: string)
    ensures p <= q && q <= n ==> p <= n
  {
    if p <= q && q <= n { assert q[..|p|] == n[..|q|][..|p|] == n[..|p|]; }
  }

  /** And separation is needed: for `a` and `a-b`, every cleanup of the former wipes the
      latter's rules from any list. */
  lemma ConflictWipes(a: string, b: string, list: seq<Value>)
    requires a + "-" <= b
    ensures OwnPart(PrefixOf(b), Patched(PrefixOf(a), list, [])) == []
  {
    PrefixConflict(a, b);
    WithoutMembers(PrefixOf(a), list);
    forall v | v in Without(PrefixOf(a), list) ensures !Own(PrefixOf(b), v) {
      PrefixTransitive(PrefixOf(a), PrefixOf(b), RuleName(v));
    }
    WithoutNone(PrefixOf(b), Without(PrefixOf(a), list));
    assert Patched(PrefixOf(a), list, []) == Without(PrefixOf(a), list);
  }

  // ---------------------------------------------------------------- first-match routing

  /** The rule a request resolves to: the first map item that accepts it. */
  function Resolve<Req>(list: seq<Value>, accepts: (Value, Req) -> bool, r: Req): Option<Value> {
    if list == [] then None
    else if list[0].Obj? && accepts(list[0], r) then Some(list[0])
    else Resolve(list[1..], accepts, r)
  }

  lemma {:induction false} ResolveAppend<Req>(a: seq<Value>, b: seq<Value>, accepts: (Value, Req) -> bool, r: Req)
    ensures Resolve(a + b, accepts, r) == if Resolve(a, accepts, r).Some? then Resolve(a, accepts, r) else Resolve(b, accepts, r)
    ensures Resolve(a, accepts, r).Some? <==> exists v :: v in a && v.Obj? && accepts(v, r)
    ensures Resolve(a, accepts, r).Some? ==> Resolve(a, accepts, r).value in a && accepts(Resolve(a, accepts, r).value, r)
  {
    if a == [] {
      assert a + b == b;
    } else {
      assert (a + b)[1..] == a[1..] + b;
      assert a == [a[0]] + a[1..];
      ResolveAppend(a[1..], b, accepts, r);
    }
  }

  /** Under first-match semantics, whatever it means to accept: a request no injected
      rule accepts goes where it goes without the experiment, during it and after
      cleanup; any other goes to an injected rule that accepts it. */
  lemma RoutingContained<Req>(prefix: string, list: seq<Value>, rules: seq<Value>, accepts: (Value, Req) -> bool, r: Req)
    requires AllOwn(prefix, rules)
    ensures var during := Patched(prefix, list, rules);
      var untouched := Resolve(Without(prefix, list), accepts, r);
      && (if exists v :: v in rules && accepts(v, r)
          then Resolve(during, accepts, r).Some? && Resolve(during, accepts, r).value in rules && accepts(Resolve(during, accepts, r).value, r)
          else Resolve(during, accepts, r) == untouched)
      && Resolve(Patched(prefix, during, []), accepts, r) == untouched
  {
    ResolveAppend(rules, Without(prefix, list), accepts, r);
    PatchedParts(prefix, list, rules);
    assert forall v :: v in rules ==> Own(prefix, v) && v.Obj?;
    var during := Patched(prefix, list, rules);
    assert Patched(prefix, during, []) == Without(prefix, during);
  }
}
