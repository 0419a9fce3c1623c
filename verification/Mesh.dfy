/** mesh_fault.go and applyDesiredTargets: from mesh actions to VirtualServices. */
module Mesh {
  import opened Wrappers
  import opened Ordering
  import opened Helpers
  import opened Names
  import opened Api
  import opened VirtualServices

  // ---------------------------------------------------------------- one rule

  function InjectedRuleName(id: Identity, a: MeshAction): string {
    PrefixOf(id.name) + MapChars(a.direction, ToLower) + "-" + SanitizeName(a.name)
  }

  function ManagedName(id: Identity, a: MeshAction): string {
    "fi-" + id.name + "-" + SanitizeName(a.name)
  }

  /** `%d` of any int. */
  function Integer(n: int): string {
    if n < 0 then "-" + Decimal(-n) else Decimal(n)
  }

  /** One match block. The prefix wins when both are set, although the type's comment
      (api/v1alpha1/mesh_fault_types.go) says the exact path does. */
  function MatchBlock(a: MeshAction, m: HTTPMatch): Value {
    Obj(UriPart(m) + HeaderPart(m) + LabelPart(a))
  }

  function UriPart(m: HTTPMatch): map<string, Value> {
    if TrimSpace(m.uriPrefix) != "" then map["uri" := Obj(map["prefix" := Str(m.uriPrefix)])]
    else if TrimSpace(m.uriExact) != "" then map["uri" := Obj(map["exact" := Str(m.uriExact)])]
    else map[]
  }

  function HeaderPart(m: HTTPMatch): map<string, Value> {
    if m.headers == map[] then map[]
    else map["headers" := Obj(map k | k in m.headers :: Obj(map["exact" := Str(m.headers[k])]))]
  }

  function LabelPart(a: MeshAction): map<string, Value> {
    if a.direction != OUTBOUND || a.sourceLabels == map[] then map[]
    else map["sourceLabels" := Obj(map k | k in a.sourceLabels :: Str(a.sourceLabels[k]))]
  }

  /** So the exact path is matched exactly when no prefix is set beside it. */
  lemma ExactPathNeedsNoPrefix(a: MeshAction, m: HTTPMatch)
    requires TrimSpace(m.uriExact) != ""
    ensures Field(MatchBlock(a, m), "uri") == Obj(map["exact" := Str(m.uriExact)]) <==> TrimSpace(m.uriPrefix) == ""
  {
    var uri := Field(MatchBlock(a, m), "uri");
    if TrimSpace(m.uriPrefix) != "" {
      assert "prefix" in uri.fields;
    }
  }

  function MatchBlocks(a: MeshAction): (r: seq<Value>)
    ensures |r| == |a.routes| && forall i :: 0 <= i < |r| ==> r[i] == MatchBlock(a, a.routes[i])
  {
    seq(|a.routes|, i requires 0 <= i < |a.routes| => MatchBlock(a, a.routes[i]))
  }

  /** The pointers buildInjectedHTTPRule and its caller follow without a nil check. */
  predicate Dereferenceable(a: MeshAction) {
    && (a.kind == HTTP_LATENCY ==> a.fixedDelaySeconds.Some?)
    && (a.kind == HTTP_ABORT ==> a.abortStatus.Some?)
    && (a.direction == INBOUND ==> a.virtualServiceRef.Some?)
  }

  function Fault(a: MeshAction): Value
    requires Dereferenceable(a)
  {
    var percentage := Obj(map["value" := Num(a.percent)]);
    if a.kind == HTTP_LATENCY then
      Obj(map["delay" := Obj(map["fixedDelay" := Str(Integer(a.fixedDelaySeconds.value) + "s"), "percentage" := percentage])])
    else if a.kind == HTTP_ABORT then
      Obj(map["abort" := Obj(map["httpStatus" := Num(a.abortStatus.value), "percentage" := percentage])])
    else Obj(map[])
  }

  function InjectedRule(id: Identity, a: MeshAction): Value
    requires Dereferenceable(a)
  {
    var rule := map["name" := Str(InjectedRuleName(id, a)), "match" := List(MatchBlocks(a)), "fault" := Fault(a)];
    Obj(if a.timeoutSeconds.Some? && a.timeoutSeconds.value > 0
        then rule["timeout" := Str(Integer(a.timeoutSeconds.value) + "s")] else rule)
  }

  function Field(v: Value, k: string): Value {
    if k in FieldsOf(v) then FieldsOf(v)[k] else Null
  }

  // ---------------------------------------------------------------- what a rule says

  /** What a proxy goes by: the path and headers of a request, and its caller's labels. */
  datatype Request = Request(path: string, headers: map<string, string>, labels: map<string, string>)

  /** The meaning of whatever the experiment never writes into a match block. */
  type Others = (string, Value, Request) -> bool

  predicate SaysText(cond: Value, kind: string) {
    cond.Obj? && cond.fields.Keys == {kind} && cond.fields[kind].Str?
  }

  /** One condition of an Istio HTTPMatchRequest. */
  predicate Meets(field: string, cond: Value, r: Request, others: Others) {
    if field == "uri" && SaysText(cond, "prefix") then cond.fields["prefix"].text <= r.path
    else if field == "uri" && SaysText(cond, "exact") then r.path == cond.fields["exact"].text
    else if field == "headers" && cond.Obj? && forall h :: h in cond.fields ==> SaysText(cond.fields[h], "exact") then
      forall h :: h in cond.fields ==> h in r.headers && r.headers[h] == cond.fields[h].fields["exact"].text
    else if field == "sourceLabels" && cond.Obj? && forall l :: l in cond.fields ==> cond.fields[l].Str? then
      forall l :: l in cond.fields ==> l in r.labels && r.labels[l] == cond.fields[l].text
    else others(field, cond, r)
  }

  predicate AllMet(conds: map<string, Value>, r: Request, others: Others) {
    forall f :: f in conds ==> Meets(f, conds[f], r, others)
  }

  /** All conditions of a block hold. */
  predicate BlockTakes(block: Value, r: Request, others: Others) {
    block.Obj? && AllMet(block.fields, r, others)
  }

  /** A rule accepts a request when it lists no match block, or some block takes it. */
  function Accepts(others: Others): (Value, Request) -> bool {
    (v: Value, r: Request) =>
      var blocks := Field(v, "match");
      !blocks.List? || blocks.items == [] || exists b :: b in blocks.items && BlockTakes(b, r, others)
  }

  predicate HasAll(declared: map<string, string>, actual: map<string, string>) {
    forall k :: k in declared ==> k in actual && actual[k] == declared[k]
  }

  /** What the i-th route of an action declares. */
  predicate Declares(a: MeshAction, m: HTTPMatch, r: Request) {
    && (if TrimSpace(m.uriPrefix) != "" then m.uriPrefix <= r.path
        else TrimSpace(m.uriExact) != "" ==> r.path == m.uriExact)
    && HasAll(m.headers, r.headers)
    && (a.direction == OUTBOUND ==> HasAll(a.sourceLabels, r.labels))
  }

  /** Some route of the action declares the request, or the action has none. */
  predicate Wants(a: MeshAction, r: Request) {
    a.routes == [] || exists m :: m in a.routes && Declares(a, m, r)
  }

  lemma BlockMeaning(a: MeshAction, m: HTTPMatch, r: Request, others: Others)
    ensures BlockTakes(MatchBlock(a, m), r, others) <==> Declares(a, m, r)
  {
    UnionMet(UriPart(m), HeaderPart(m), LabelPart(a), r, others);
    UriMeaning(m, r, others);
    HeadersMeaning(m, r, others);
    LabelsMeaning(a, r, others);
  }

  lemma UnionMet(x: map<string, Value>, y: map<string, Value>, z: map<string, Value>, r: Request, others: Others)
    requires x.Keys !! y.Keys && x.Keys !! z.Keys && y.Keys !! z.Keys
    ensures AllMet(x + y + z, r, others) <==> AllMet(x, r, others) && AllMet(y, r, others) && AllMet(z, r, others)
  {
    if AllMet(x + y + z, r, others) {
      forall f | f in x ensures Meets(f, x[f], r, others) { assert (x + y + z)[f] == x[f]; }
      forall f | f in y ensures Meets(f, y[f], r, others) { assert (x + y + z)[f] == y[f]; }
      forall f | f in z ensures Meets(f, z[f], r, others) { assert (x + y + z)[f] == z[f]; }
    }
  }

  lemma UriMeaning(m: HTTPMatch, r: Request, others: Others)
    ensures AllMet(UriPart(m), r, others)
       <==> if TrimSpace(m.uriPrefix) != "" then m.uriPrefix <= r.path else TrimSpace(m.uriExact) != "" ==> r.path == m.uriExact
  {
    var part := UriPart(m);
    if TrimSpace(m.uriPrefix) != "" {
      assert part.Keys == {"uri"} && SaysText(part["uri"], "prefix");
    } else if TrimSpace(m.uriExact) != "" {
      assert part.Keys == {"uri"} && SaysText(part["uri"], "exact") && "exact" in part["uri"].fields && !SaysText(part["uri"], "prefix");
    }
  }

  lemma HeadersMeaning(m: HTTPMatch, r: Request, others: Others)
    ensures AllMet(HeaderPart(m), r, others) <==> HasAll(m.headers, r.headers)
  {
    if m.headers != map[] {
      var cond := HeaderPart(m)["headers"];
      assert HeaderPart(m).Keys == {"headers"} && cond.fields.Keys == m.headers.Keys;
      forall h | h in m.headers ensures SaysText(cond.fields[h], "exact") && cond.fields[h].fields["exact"].text == m.headers[h] {
        assert cond.fields[h] == Obj(map["exact" := Str(m.headers[h])]);
      }
    }
  }

  lemma LabelsMeaning(a: MeshAction, r: Request, others: Others)
    ensures AllMet(LabelPart(a), r, others) <==> (a.direction == OUTBOUND ==> HasAll(a.sourceLabels, r.labels))
  {
    if a.direction == OUTBOUND && a.sourceLabels != map[] {
      var cond := LabelPart(a)["sourceLabels"];
      assert LabelPart(a).Keys == {"sourceLabels"} && cond.fields.Keys == a.sourceLabels.Keys;
      assert forall l :: l in a.sourceLabels ==> cond.fields[l] == Str(a.sourceLabels[l]);
    }
  }

  /** The rule delays or aborts as the action declares, for the declared share of the
      requests, and has the declared timeout and no other. */
  ghost predicate FaultsAs(a: MeshAction, v: Value) {
    var fault := Field(v, "fault");
    && (a.kind == HTTP_LATENCY ==>
          && FieldsOf(fault).Keys == {"delay"} && a.fixedDelaySeconds.Some?
          && Field(Field(fault, "delay"), "fixedDelay") == Str(Integer(a.fixedDelaySeconds.value) + "s")
          && Field(Field(Field(fault, "delay"), "percentage"), "value") == Num(a.percent))
    && (a.kind == HTTP_ABORT ==>
          && FieldsOf(fault).Keys == {"abort"} && a.abortStatus.Some?
          && Field(Field(fault, "abort"), "httpStatus") == Num(a.abortStatus.value)
          && Field(Field(Field(fault, "abort"), "percentage"), "value") == Num(a.percent))
    && Field(v, "timeout") == (if a.timeoutSeconds.Some? && a.timeoutSeconds.value > 0 then Str(Integer(a.timeoutSeconds.value) + "s") else Null)
  }

  /** An injected rule is recognisable, has no route of its own yet, and then the one it is
      given; it faults as its action declares, and accepts exactly the requests the action
      wants: block by block, those whose path, headers and caller a route declares. */
  lemma InjectedRuleSound(id: Identity, a: MeshAction, base: seq<Value>, others: Others, r: Request)
    requires Dereferenceable(a)
    ensures var rule := InjectedRule(id, a);
      var routed := EnsureRoute(rule, base);
      var blocks := Field(routed, "match");
      && Own(PrefixOf(id.name), rule) && Routeless(rule) && Field(routed, "route") == List(base)
      && FaultsAs(a, routed)
      && blocks.List? && |blocks.items| == |a.routes|
      && (forall i :: 0 <= i < |a.routes| ==> (BlockTakes(blocks.items[i], r, others) <==> Declares(a, a.routes[i], r)))
      && (Accepts(others)(routed, r) <==> Wants(a, r))
  {
    InjectedRuleShape(id, a);
    RuleFaults(id, a, base);
    RuleAcceptsDeclared(a, EnsureRoute(InjectedRule(id, a), base), others, r);
  }

  lemma RuleFaults(id: Identity, a: MeshAction, base: seq<Value>)
    requires Dereferenceable(a)
    ensures var v := EnsureRoute(InjectedRule(id, a), base);
      FaultsAs(a, v) && Field(v, "match") == List(MatchBlocks(a)) && (Routeless(InjectedRule(id, a)) ==> Field(v, "route") == List(base))
  {
    var v := EnsureRoute(InjectedRule(id, a), base);
    assert Field(v, "fault") == Fault(a);
  }

  lemma RuleAcceptsDeclared(a: MeshAction, v: Value, others: Others, r: Request)
    requires Field(v, "match") == List(MatchBlocks(a))
    ensures forall i :: 0 <= i < |a.routes| ==> (BlockTakes(MatchBlocks(a)[i], r, others) <==> Declares(a, a.routes[i], r))
    ensures Accepts(others)(v, r) <==> Wants(a, r)
  {
    forall i | 0 <= i < |a.routes| ensures BlockTakes(MatchBlocks(a)[i], r, others) <==> Declares(a, a.routes[i], r) {
      BlockMeaning(a, a.routes[i], r, others);
    }
    SomeBlock(a, MatchBlocks(a), others, r);
  }

  lemma SomeBlock(a: MeshAction, blocks: seq<Value>, others: Others, r: Request)
    requires |blocks| == |a.routes|
    requires forall i :: 0 <= i < |a.routes| ==> (BlockTakes(blocks[i], r, others) <==> Declares(a, a.routes[i], r))
    ensures (blocks == [] || exists b :: b in blocks && BlockTakes(b, r, others)) <==> Wants(a, r)
  {
    if m :| m in a.routes && Declares(a, m, r) {
      var i :| 0 <= i < |a.routes| && a.routes[i] == m;
      assert blocks[i] in blocks;
    }
    if b :| b in blocks && BlockTakes(b, r, others) {
      var i :| 0 <= i < |blocks| && blocks[i] == b;
      assert a.routes[i] in a.routes;
    }
  }

  lemma InjectedRuleShape(id: Identity, a: MeshAction)
    requires Dereferenceable(a)
    ensures Own(PrefixOf(id.name), InjectedRule(id, a)) && Routeless(InjectedRule(id, a))
    ensures RuleName(InjectedRule(id, a)) == InjectedRuleName(id, a)
  {
    var n := InjectedRuleName(id, a);
    assert n == PrefixOf(id.name) + (MapChars(a.direction, ToLower) + "-" + SanitizeName(a.name));
  }

  // ---------------------------------------------------------------- grouping by target

  /** vsDesired. */
  datatype Wanted = Wanted(rules: seq<Value>, hosts: seq<string>, managed: bool)

  const NOTHING := Wanted([], [], false)

  function TargetKey(id: Identity, a: MeshAction): Option<string>
    requires Dereferenceable(a)
  {
    if a.direction == INBOUND then Some(JoinKey(id.ns, a.virtualServiceRef.value))
    else if a.direction == OUTBOUND then Some(JoinKey(id.ns, ManagedName(id, a)))
    else None
  }

  function AddRule(g: map<string, Wanted>, key: string, a: MeshAction, rule: Value): map<string, Wanted> {
    var d := if key in g then g[key] else NOTHING;
    g[key := Wanted(d.rules + [rule],
                    if a.direction == OUTBOUND then UniqueMerge(d.hosts, a.destinationHosts) else d.hosts,
                    d.managed || a.direction == OUTBOUND)]
  }

  function AddAction(id: Identity, g: map<string, Wanted>, a: MeshAction): map<string, Wanted>
    requires Dereferenceable(a)
  {
    var key := TargetKey(id, a);
    if key.None? then g else AddRule(g, key.value, a, InjectedRule(id, a))
  }

  ghost predicate AllDereferenceable(actions: seq<MeshAction>) {
    forall a :: a in actions ==> Dereferenceable(a)
  }

  function Group(id: Identity, actions: seq<MeshAction>): map<string, Wanted>
    requires AllDereferenceable(actions)
  {
    if actions == [] then map[]
    else AddAction(id, Group(id, actions[..|actions| - 1]), actions[|actions| - 1])
  }

  function SortRules(g: map<string, Wanted>): map<string, Wanted> {
    map k | k in g :: g[k].(rules := StableSort(g[k].rules, RuleName))
  }

  function DesiredByTarget(id: Identity, actions: seq<MeshAction>): map<string, Wanted>
    requires AllDereferenceable(actions)
  {
    SortRules(Group(id, actions))
  }

  function ManagedKeys(id: Identity, actions: seq<MeshAction>): set<string> {
    set a | a in actions && a.direction == OUTBOUND :: JoinKey(id.ns, ManagedName(id, a))
  }

  lemma GroupStep(id: Identity, actions: seq<MeshAction>, i: nat)
    requires AllDereferenceable(actions) && i < |actions|
    ensures Dereferenceable(actions[i])
    ensures Group(id, actions[..i + 1]) == AddAction(id, Group(id, actions[..i]), actions[i])
    ensures ManagedKeys(id, actions[..i + 1]) == ManagedKeys(id, actions[..i])
      + if actions[i].direction == OUTBOUND then {JoinKey(id.ns, ManagedName(id, actions[i]))} else {}
  {
    assert actions[i] in actions;
    assert actions[..i + 1][..i] == actions[..i];
    ManagedKeysStep(id, actions[..i + 1]);
  }

  method BuildDesiredByVSTarget(id: Identity, actions: seq<MeshAction>) returns (byTarget: map<string, Wanted>, managed: set<string>)
    requires AllDereferenceable(actions)
    ensures byTarget == DesiredByTarget(id, actions) && managed == ManagedKeys(id, actions)
  {
    byTarget, managed := map[], {};
    for i := 0 to |actions|
      invariant byTarget == Group(id, actions[..i])
      invariant managed == ManagedKeys(id, actions[..i])
    {
      var a := actions[i];
      GroupStep(id, actions, i);
      if a.direction == INBOUND {
        var key := JoinKey(id.ns, a.virtualServiceRef.value);
        var d := if key in byTarget then byTarget[key] else NOTHING;
        byTarget := byTarget[key := d.(rules := d.rules + [InjectedRule(id, a)])];
      } else if a.direction == OUTBOUND {
        var key := JoinKey(id.ns, ManagedName(id, a));
        var d := if key in byTarget then byTarget[key] else NOTHING;
        var hosts := UniqueAppend(d.hosts, a.destinationHosts);
        byTarget := byTarget[key := Wanted(d.rules + [InjectedRule(id, a)], hosts, true)];
        managed := managed + {key};
      }
    }
    assert actions[..|actions|] == actions;
    byTarget := SortEachTarget(byTarget);
  }

  method SortEachTarget(grouped: map<string, Wanted>) returns (byTarget: map<string, Wanted>)
    ensures byTarget == SortRules(grouped)
  {
    byTarget := grouped;
    var todo := byTarget.Keys;
    while todo != {}
      invariant todo <= byTarget.Keys == grouped.Keys
      invariant forall k :: k in grouped ==> byTarget[k] == if k in todo then grouped[k] else SortRules(grouped)[k]
      decreases |todo|
    {
      var k :| k in todo;
      byTarget := byTarget[k := byTarget[k].(rules := StableSort(byTarget[k].rules, RuleName))];
      todo := todo - {k};
    }
    assert byTarget == SortRules(grouped);
  }

  /** The rules of the actions aimed at `key`, in spec order. */
  function RulesFor(id: Identity, actions: seq<MeshAction>, key: string): seq<Value>
    requires AllDereferenceable(actions)
  {
    if actions == [] then []
    else
      var n := |actions| - 1;
      RulesFor(id, actions[..n], key) + if TargetKey(id, actions[n]) == Some(key) then [InjectedRule(id, actions[n])] else []
  }

  lemma {:induction false} GroupKeys(id: Identity, actions: seq<MeshAction>)
    requires AllDereferenceable(actions)
    ensures forall k :: k in Group(id, actions) <==> exists a :: a in actions && TargetKey(id, a) == Some(k)
    ensures ManagedKeys(id, actions) <= Group(id, actions).Keys
  {
    if actions != [] {
      var n := |actions| - 1;
      GroupKeys(id, actions[..n]);
      assert actions == actions[..n] + [actions[n]];
      assert Group(id, actions).Keys == Group(id, actions[..n]).Keys
        + if TargetKey(id, actions[n]).Some? then {TargetKey(id, actions[n]).value} else {};
      forall a | a in actions && TargetKey(id, a).Some? ensures TargetKey(id, a).value in Group(id, actions) {
        assert a in actions[..n] || a == actions[n];
      }
    }
    forall k | k in ManagedKeys(id, actions) ensures k in Group(id, actions) {
      var a :| a in actions && a.direction == OUTBOUND && k == JoinKey(id.ns, ManagedName(id, a));
      assert TargetKey(id, a) == Some(k);
    }
  }

  lemma {:induction false} GroupRules(id: Identity, actions: seq<MeshAction>, k: string)
    requires AllDereferenceable(actions)
    ensures (if k in Group(id, actions) then Group(id, actions)[k].rules else []) == RulesFor(id, actions, k)
  {
    if actions != [] {
      GroupRules(id, actions[..|actions| - 1], k);
    }
  }

  ghost predicate TidyHosts(d: Wanted) {
    DistinctKeys(d.hosts, Self) && SortedBy(d.hosts, Self) && (d.managed || d.hosts == [])
  }

  lemma AddRuleTidy(g: map<string, Wanted>, key: string, a: MeshAction, rule: Value)
    requires forall k :: k in g ==> TidyHosts(g[k])
    ensures forall k :: k in AddRule(g, key, a, rule) ==> TidyHosts(AddRule(g, key, a, rule)[k])
  {
    var d := if key in g then g[key] else NOTHING;
    UniqueMergeSound(d.hosts, a.destinationHosts);
  }

  lemma {:induction false} GroupHosts(id: Identity, actions: seq<MeshAction>)
    requires AllDereferenceable(actions)
    ensures forall k :: k in Group(id, actions) ==> TidyHosts(Group(id, actions)[k])
  {
    if actions != [] {
      var n := |actions| - 1;
      var a := actions[n];
      GroupHosts(id, actions[..n]);
      if TargetKey(id, a).Some? {
        AddRuleTidy(Group(id, actions[..n]), TargetKey(id, a).value, a, InjectedRule(id, a));
      }
    }
  }

  lemma {:induction false} GroupManaged(id: Identity, actions: seq<MeshAction>)
    requires AllDereferenceable(actions)
    ensures forall k :: k in Group(id, actions) ==> (Group(id, actions)[k].managed <==> k in ManagedKeys(id, actions))
  {
    if actions != [] {
      var n := |actions| - 1;
      var a := actions[n];
      GroupManaged(id, actions[..n]);
      GroupKeys(id, actions[..n]);
      ManagedKeysStep(id, actions);
    }
  }

  lemma ManagedKeysStep(id: Identity, actions: seq<MeshAction>)
    requires actions != []
    ensures var n := |actions| - 1;
      ManagedKeys(id, actions) == ManagedKeys(id, actions[..n])
        + if actions[n].direction == OUTBOUND then {JoinKey(id.ns, ManagedName(id, actions[n]))} else {}
  {
    assert actions == actions[..|actions| - 1] + [actions[|actions| - 1]];
  }

  /** What grouping promises of each target: exactly the rules of its actions, ordered by
      name with spec order among equals; managed exactly when an OUTBOUND action made
      it; its hosts sorted and free of duplicates. */
  lemma GroupingSound(id: Identity, actions: seq<MeshAction>)
    requires AllDereferenceable(actions)
    ensures var g := DesiredByTarget(id, actions);
      && (forall k :: k in g <==> exists a :: a in actions && TargetKey(id, a) == Some(k))
      && (forall k :: k in g ==>
            && multiset(g[k].rules) == multiset(RulesFor(id, actions, k))
            && SortedBy(g[k].rules, RuleName)
            && (forall n :: WithKey(g[k].rules, RuleName, n) == WithKey(RulesFor(id, actions, k), RuleName, n))
            && (g[k].managed <==> k in ManagedKeys(id, actions))
            && TidyHosts(g[k]))
  {
    GroupKeys(id, actions);
    GroupHosts(id, actions);
    GroupManaged(id, actions);
    var g := DesiredByTarget(id, actions);
    forall k | k in g
      ensures multiset(g[k].rules) == multiset(RulesFor(id, actions, k)) && SortedBy(g[k].rules, RuleName)
      ensures forall n :: WithKey(g[k].rules, RuleName, n) == WithKey(RulesFor(id, actions, k), RuleName, n)
    {
      GroupRules(id, actions, k);
      StableSortSound(RulesFor(id, actions, k), RuleName);
    }
  }

  /** The hosts the OUTBOUND actions of a target declare. */
  ghost predicate DeclaresHost(id: Identity, actions: seq<MeshAction>, k: string, host: string)
    requires AllDereferenceable(actions)
  {
    exists a :: a in actions && a.direction == OUTBOUND && TargetKey(id, a) == Some(k) && host in a.destinationHosts
  }

  /** No declared host is lost or made up. */
  lemma HostsConserved(id: Identity, actions: seq<MeshAction>, k: string, host: string)
    requires AllDereferenceable(actions)
    ensures k in DesiredByTarget(id, actions) && host in DesiredByTarget(id, actions)[k].hosts <==> DeclaresHost(id, actions, k, host)
  {
    HostsGrouped(id, actions, k, host);
  }

  predicate HostAt(g: map<string, Wanted>, k: string, host: string) { k in g && host in g[k].hosts }

  lemma {:induction false} HostsGrouped(id: Identity, actions: seq<MeshAction>, k: string, host: string)
    requires AllDereferenceable(actions)
    ensures HostAt(Group(id, actions), k, host) <==> DeclaresHost(id, actions, k, host)
  {
    if actions != [] {
      var n := |actions| - 1;
      var a, front := actions[n], actions[..n];
      HostsGrouped(id, front, k, host);
      assert actions == front + [a];
      HostsStep(id, front, a, k, host);
      if TargetKey(id, a).Some? { AddedHosts(Group(id, front), TargetKey(id, a).value, a, InjectedRule(id, a), k, host); }
    }
  }

  lemma AddedHosts(g: map<string, Wanted>, key: string, a: MeshAction, rule: Value, k: string, host: string)
    ensures HostAt(AddRule(g, key, a, rule), k, host) <==> HostAt(g, k, host) || (k == key && a.direction == OUTBOUND && host in a.destinationHosts)
  {
    var hosts := if key in g then g[key].hosts else [];
    UniqueMergeSound(hosts, a.destinationHosts);
    assert host in UniqueMerge(hosts, a.destinationHosts) <==> host in SetOf(hosts) + SetOf(a.destinationHosts);
  }

  lemma HostsStep(id: Identity, front: seq<MeshAction>, a: MeshAction, k: string, host: string)
    requires AllDereferenceable(front + [a]) && AllDereferenceable(front) && Dereferenceable(a)
    ensures DeclaresHost(id, front + [a], k, host)
       <==> DeclaresHost(id, front, k, host) || (a.direction == OUTBOUND && TargetKey(id, a) == Some(k) && host in a.destinationHosts)
  {
    if DeclaresHost(id, front, k, host) {
      var b :| b in front && b.direction == OUTBOUND && TargetKey(id, b) == Some(k) && host in b.destinationHosts;
      assert b in front + [a];
    }
    assert a in front + [a];
  }

  /** One rule per action with a known direction. */
  function AllRules(id: Identity, actions: seq<MeshAction>): seq<Value>
    requires AllDereferenceable(actions)
  {
    if actions == [] then []
    else
      var n := |actions| - 1;
      AllRules(id, actions[..n]) + if TargetKey(id, actions[n]).Some? then [InjectedRule(id, actions[n])] else []
  }

  function Gather(g: map<string, Wanted>, keys: seq<string>): seq<Value>
    requires forall k :: k in keys ==> k in g
  {
    if keys == [] then [] else g[keys[0]].rules + Gather(g, keys[1..])
  }

  function GatherFor(id: Identity, actions: seq<MeshAction>, keys: seq<string>): seq<Value>
    requires AllDereferenceable(actions)
    decreases keys
  {
    if keys == [] then [] else RulesFor(id, actions, keys[0]) + GatherFor(id, actions, keys[1..])
  }

  ghost predicate Enumerates(order: seq<string>, keys: set<string>) {
    && (forall k :: k in order <==> k in keys)
    && (forall i, j :: 0 <= i < j < |order| ==> order[i] != order[j])
  }

  /** Conservation: the lists of all targets together are a permutation of one rule per
      action; nothing is lost, repeated or made up. */
  lemma GroupingConserves(id: Identity, actions: seq<MeshAction>, order: seq<string>)
    requires AllDereferenceable(actions) && Enumerates(order, DesiredByTarget(id, actions).Keys)
    ensures multiset(Gather(DesiredByTarget(id, actions), order)) == multiset(AllRules(id, actions))
  {
    GroupingSound(id, actions);
    GatherIsGatherFor(id, actions, order);
    GatherForConserves(id, actions, order);
  }

  lemma {:induction false} GatherIsGatherFor(id: Identity, actions: seq<MeshAction>, keys: seq<string>)
    requires AllDereferenceable(actions)
    requires forall k :: k in keys ==> k in DesiredByTarget(id, actions)
    ensures multiset(Gather(DesiredByTarget(id, actions), keys)) == multiset(GatherFor(id, actions, keys))
  {
    if keys != [] {
      GroupingSound(id, actions);
      GatherIsGatherFor(id, actions, keys[1..]);
      assert keys[0] in keys;
    }
  }

  lemma {:induction false} GatherForConserves(id: Identity, actions: seq<MeshAction>, keys: seq<string>)
    requires AllDereferenceable(actions)
    requires forall i, j :: 0 <= i < j < |keys| ==> keys[i] != keys[j]
    requires forall a :: a in actions && TargetKey(id, a).Some? ==> TargetKey(id, a).value in keys
    ensures multiset(GatherFor(id, actions, keys)) == multiset(AllRules(id, actions))
  {
    if actions == [] {
      GatherForNone(id, keys);
    } else {
      var n := |actions| - 1;
      assert actions[n] in actions;
      GatherForConserves(id, actions[..n], keys);
      GatherForStep(id, actions, keys);
    }
  }

  lemma {:induction false} GatherForNone(id: Identity, keys: seq<string>)
    ensures GatherFor(id, [], keys) == []
  {
    if keys != [] { GatherForNone(id, keys[1..]); }
  }

  lemma GatherForCons(id: Identity, actions: seq<MeshAction>, k: string, rest: seq<string>, all: seq<Value>)
    requires AllDereferenceable(actions) && all == GatherFor(id, actions, [k] + rest)
    ensures multiset(all) == multiset(RulesFor(id, actions, k)) + multiset(GatherFor(id, actions, rest))
  {
    assert ([k] + rest)[1..] == rest;
  }

  function OneIf(rule: Value, yes: bool): multiset<Value> {
    if yes then multiset{rule} else multiset{}
  }

  predicate AimedAt(id: Identity, a: MeshAction, keys: seq<string>)
    requires Dereferenceable(a)
  {
    TargetKey(id, a).Some? && TargetKey(id, a).value in keys
  }

  lemma RulesForStep(id: Identity, actions: seq<MeshAction>, k: string)
    requires AllDereferenceable(actions) && actions != []
    ensures var n := |actions| - 1;
      multiset(RulesFor(id, actions, k))
      == multiset(RulesFor(id, actions[..n], k)) + OneIf(InjectedRule(id, actions[n]), AimedAt(id, actions[n], [k]))
  {
  }

  lemma Regroup(a: multiset<Value>, x: multiset<Value>, b: multiset<Value>, y: multiset<Value>)
    ensures (a + x) + (b + y) == (a + b) + (x + y)
  {
  }

  lemma AimedOnce(id: Identity, a: MeshAction, rule: Value, k: string, rest: seq<string>)
    requires Dereferenceable(a) && k !in rest
    ensures OneIf(rule, AimedAt(id, a, [k])) + OneIf(rule, AimedAt(id, a, rest)) == OneIf(rule, AimedAt(id, a, [k] + rest))
  {
  }

  lemma {:induction false} GatherForStep(id: Identity, actions: seq<MeshAction>, keys: seq<string>)
    requires AllDereferenceable(actions) && actions != []
    requires forall i, j :: 0 <= i < j < |keys| ==> keys[i] != keys[j]
    ensures var n := |actions| - 1;
      multiset(GatherFor(id, actions, keys))
      == multiset(GatherFor(id, actions[..n], keys)) + OneIf(InjectedRule(id, actions[n]), AimedAt(id, actions[n], keys))
  {
    if keys != [] {
      var n, k, rest := |actions| - 1, keys[0], keys[1..];
      var a, front := actions[n], actions[..n];
      var rule := InjectedRule(id, a);
      assert keys == [k] + rest && k !in rest;
      calc {
        multiset(GatherFor(id, actions, keys));
        { GatherForCons(id, actions, k, rest, GatherFor(id, actions, keys)); }
        multiset(RulesFor(id, actions, k)) + multiset(GatherFor(id, actions, rest));
        { RulesForStep(id, actions, k); GatherForStep(id, actions, rest); }
        (multiset(RulesFor(id, front, k)) + OneIf(rule, AimedAt(id, a, [k]))) + (multiset(GatherFor(id, front, rest)) + OneIf(rule, AimedAt(id, a, rest)));
        { Regroup(multiset(RulesFor(id, front, k)), OneIf(rule, AimedAt(id, a, [k])), multiset(GatherFor(id, front, rest)), OneIf(rule, AimedAt(id, a, rest))); }
        (multiset(RulesFor(id, front, k)) + multiset(GatherFor(id, front, rest))) + (OneIf(rule, AimedAt(id, a, [k])) + OneIf(rule, AimedAt(id, a, rest)));
        { GatherForCons(id, front, k, rest, GatherFor(id, front, keys)); AimedOnce(id, a, rule, k, rest); }
        multiset(GatherFor(id, front, keys)) + OneIf(rule, AimedAt(id, a, keys));
      }
    }
  }
}
