/** What reconciles make, keep and take away among VirtualServices, told by what is
    written on the objects. */
module Footprint {
  import opened Wrappers
  import opened Helpers
  import opened Names
  import opened Api
  import opened VirtualServices
  import opened Cluster
  import opened Mesh
  import opened Validation
  import opened Targets
  import opened Cleanup
  import opened Reconciler
  import opened Guardrails
  import Experiment

  /** The labels the operator puts on what it makes for an experiment. */
  predicate OperatorMade(id: Identity, vs: VirtualService) {
    && "managed-by" in vs.labels && vs.labels["managed-by"] == "fi-operator"
    && "chaos.sghaida.io/fi" in vs.labels && vs.labels["chaos.sghaida.io/fi"] == id.name
  }

  // ---------------------------------------------------------------- nothing else is deleted

  /** Still there, and labelled as it was. */
  ghost predicate StaysAt(vss: Store, vss1: Store, p: Key) {
    p in vss ==> p in vss1 && vss1[p].labels == vss[p].labels
  }

  lemma {:induction false} VisitsKeep(id: Identity, store: Store, desired: map<string, Wanted>, order: seq<string>, render: Render, p: Key)
    ensures StaysAt(store, ApplyAll(id, store, desired, order, render).0, p)
    decreases order
  {
    if order != [] {
      var r := Visit(store, order[0], EffectOf(id, desired, render));
      assert StaysAt(store, r.0, p);
      if r.1 == NoFailure { VisitsKeep(id, r.0, desired, order[1..], render, p); }
    }
  }

  /** A reconcile deletes no VirtualService but those the operator made for this very
      experiment, and changes no object's labels. */
  lemma OnlyOwnDeleted(w: World, c: Controller, r: Round, p: Key)
    requires p in w.vss && !OperatorMade(w.fi.id, w.vss[p])
    ensures StaysAt(w.vss, Reconciled(w, c, r).0.vss, p)
  {
    var l := WithLifecycle(w, r.lifecycleClock);
    if Ongoing(w, r) && Acceptable(l, r) {
      ValidDereferenceable(w.fi.spec, r.meshCounts);
      Experiment.ActiveMesh(l, c, r);
      InjectingKeeps(l, c, r.order, p);
    }
  }

  lemma InjectingKeeps(w: World, c: Controller, order: seq<string>, p: Key)
    requires AllDereferenceable(w.fi.spec.meshFaults) && p in w.vss && !OperatorMade(w.fi.id, w.vss[p])
    ensures StaysAt(w.vss, Injecting(w, c, order).0.vss, p)
  {
    VisitsKeep(w.fi.id, w.vss, DesiredByTarget(w.fi.id, w.fi.spec.meshFaults), order, c.render, p);
  }

  /** Nor does any run of them, while nobody else writes the object. */
  lemma {:induction false} OnlyOwnDeletedForLife(w: World, c: Controller, events: seq<Experiment.Event>, p: Key)
    requires p in w.vss && !OperatorMade(w.fi.id, w.vss[p])
    requires forall i :: 0 <= i < |events| ==> !(events[i].Writing? && events[i].key == p)
    ensures StaysAt(w.vss, Experiment.RunOf(w, c, events).vss, p)
    decreases events
  {
    if events != [] {
      var w1 := Experiment.Next(w, c, events[0]);
      if events[0].Reconciling? {
        OnlyOwnDeleted(w, c, events[0].round, p);
        Experiment.ReconcilePhases(w, c, events[0].round);
      }
      assert StaysAt(w.vss, w1.vss, p);
      assert forall i :: 0 <= i < |events[1..]| ==> events[1..][i] == events[i + 1];
      OnlyOwnDeletedForLife(w1, c, events[1..], p);
    }
  }

  /** And cleanup leaves an object that carries no rule of the experiment, and was not made
      for it, the very same. */
  lemma CleanupLeavesOthers(w: World, render: Render, p: Key)
    requires p in w.vss && !HasOwn(w.fi.id, w.vss[p]) && !OperatorMade(w.fi.id, w.vss[p])
    ensures p in Cleaned(w, render).vss && Cleaned(w, render).vss[p] == w.vss[p]
  {
    WithoutNone(PrefixOf(w.fi.id.name), HttpOf(w.vss[p].spec));
    assert Patched(PrefixOf(w.fi.id.name), HttpOf(w.vss[p].spec), []) == HttpOf(w.vss[p].spec);
  }

  // ---------------------------------------------------------------- what is wanted is there, and no more

  /** The object of an OUTBOUND action. */
  predicate MadeFor(id: Identity, actions: seq<MeshAction>, p: Key) {
    exists a :: a in actions && a.direction == OUTBOUND && p == (id.ns, "fi-" + id.name + "-" + SanitizeName(a.name))
  }

  /** Works for calls inside the mesh. */
  predicate InMesh(vs: VirtualService) {
    Field(vs.spec, "gateways").List? && Str("mesh") in Field(vs.spec, "gateways").items
  }

  lemma ManagedInMesh(id: Identity, current: Option<VirtualService>, d: Wanted, render: Render)
    requires d.managed && ApplyOne(id, current, d, render).Applied?
    ensures InMesh(ApplyOne(id, current, d, render).vs)
  {
    var start := if current.Some? then current.value else NewManagedVS(id, d);
    HttpOfGateways(start.spec, true);
    GatewaysKept(EnsureGateways(start.spec, true), [DefaultRule("default", d.hosts)]);
    GatewaysKept(Prepared(start.spec, d), Injected(id, start.spec, d));
  }

  /** When the rules are in place, the objects in the namespace that the operator made for
      the experiment are those of its OUTBOUND actions: each is there and in the mesh, with
      the labels unless it was found without them, and no other is left. */
  lemma MadeExactly(w: World, c: Controller, order: seq<string>, p: Key)
    requires AllDereferenceable(w.fi.spec.meshFaults) && '/' !in w.fi.id.ns && p.0 == w.fi.id.ns
    requires Enumerates(order, DesiredByTarget(w.fi.id, w.fi.spec.meshFaults).Keys) && Injecting(w, c, order).1 == NoFailure
    ensures var vss1 := Injecting(w, c, order).0.vss;
      && (MadeFor(w.fi.id, w.fi.spec.meshFaults, p) ==> p in vss1 && InMesh(vss1[p]) && (p !in w.vss ==> OperatorMade(w.fi.id, vss1[p])))
      && (p in vss1 && OperatorMade(w.fi.id, vss1[p]) ==> MadeFor(w.fi.id, w.fi.spec.meshFaults, p))
  {
    var id, actions := w.fi.id, w.fi.spec.meshFaults;
    var vss := ApplyAll(id, w.vss, DesiredByTarget(id, actions), order, c.render).0;
    if MadeFor(id, actions, p) {
      var a :| a in actions && a.direction == OUTBOUND && p == (id.ns, "fi-" + id.name + "-" + SanitizeName(a.name));
      var k := JoinKey(id.ns, ManagedName(id, a));
      SplitJoin(id.ns, ManagedName(id, a));
      WantedIsThere(id, actions, w.vss, order, c.render, a);
      assert p !in Orphans(id, vss, ManagedKeys(id, actions));
    }
    if p in vss && OperatorMade(id, vss[p]) && p !in Orphans(id, vss, ManagedKeys(id, actions)) {
      var a :| a in actions && a.direction == OUTBOUND && JoinKey(p.0, p.1) == JoinKey(id.ns, ManagedName(id, a));
      SplitJoin(p.0, p.1);
      SplitJoin(id.ns, ManagedName(id, a));
    }
  }

  lemma WantedIsThere(id: Identity, actions: seq<MeshAction>, vss: Store, order: seq<string>, render: Render, a: MeshAction)
    requires AllDereferenceable(actions) && '/' !in id.ns && Enumerates(order, DesiredByTarget(id, actions).Keys)
    requires a in actions && a.direction == OUTBOUND && ApplyAll(id, vss, DesiredByTarget(id, actions), order, render).1 == NoFailure
    ensures var k := JoinKey(id.ns, ManagedName(id, a));
      var vss1 := ApplyAll(id, vss, DesiredByTarget(id, actions), order, render).0;
      && k in ManagedKeys(id, actions) && SplitKey(k) in vss1 && InMesh(vss1[SplitKey(k)])
      && (SplitKey(k) !in vss ==> OperatorMade(id, vss1[SplitKey(k)]))
  {
    var k := JoinKey(id.ns, ManagedName(id, a));
    KeyWanted(id, actions, a);
    assert k in order;
    WantedAt(id, actions, vss, order, render, k);
  }

  lemma KeyWanted(id: Identity, actions: seq<MeshAction>, a: MeshAction)
    requires AllDereferenceable(actions) && a in actions && a.direction == OUTBOUND
    ensures var k := JoinKey(id.ns, ManagedName(id, a));
      k in ManagedKeys(id, actions) && k in DesiredByTarget(id, actions) && DesiredByTarget(id, actions)[k].managed
  {
    assert TargetKey(id, a) == Some(JoinKey(id.ns, ManagedName(id, a)));
    GroupingSound(id, actions);
  }

  lemma WantedAt(id: Identity, actions: seq<MeshAction>, vss: Store, order: seq<string>, render: Render, k: string)
    requires AllDereferenceable(actions) && '/' !in id.ns && Enumerates(order, DesiredByTarget(id, actions).Keys) && k in order
    requires DesiredByTarget(id, actions)[k].managed && ApplyAll(id, vss, DesiredByTarget(id, actions), order, render).1 == NoFailure
    ensures var vss1 := ApplyAll(id, vss, DesiredByTarget(id, actions), order, render).0;
      SplitKey(k) in vss1 && InMesh(vss1[SplitKey(k)]) && (SplitKey(k) !in vss ==> OperatorMade(id, vss1[SplitKey(k)]))
  {
    TargetsDistinct(id, actions, order);
    VisitPointwise(vss, order, EffectOf(id, DesiredByTarget(id, actions), render));
    ManagedInMesh(id, Lookup(vss, SplitKey(k)), DesiredByTarget(id, actions)[k], render);
  }

  // ---------------------------------------------------------------- what a new object says

  function HostRoute(host: string): seq<Value> {
    [Obj(map["destination" := Obj(map["host" := Str(host)])])]
  }

  /** Before any rule, a new object has one that sends everything to the first host. */
  lemma NewObjectStart(id: Identity, d: Wanted)
    requires d.managed && d.hosts != []
    ensures var spec := NewManagedVS(id, d).spec;
      && OperatorMade(id, NewManagedVS(id, d))
      && Prepared(spec, d) == spec && BaseRoute(spec, d) == Some(HostRoute(d.hosts[0]))
      && HttpOf(spec) == [DefaultRule("default-" + id.name, d.hosts)]
      && Field(spec, "hosts") == List(HostValues(d.hosts)) && Field(spec, "gateways") == List([Str("mesh")])
  {
    var spec := NewManagedVS(id, d).spec;
    var rule := DefaultRule("default-" + id.name, d.hosts);
    assert HasMeshGateway(spec) by { assert Str("mesh") in [Str("mesh")]; }
    assert HttpOf(spec) == [rule] && RouteOf(rule) == Some(HostRoute(d.hosts[0]));
    assert FirstRoute([rule]) == RouteOf(rule);
  }

  /** A newly made object names the actions' hosts, and works inside the mesh. */
  lemma NewObject(id: Identity, d: Wanted, render: Render)
    requires d.managed && d.hosts != []
    ensures var o := ApplyOne(id, None, d, render);
      && o.Applied? && o.written && OperatorMade(id, o.vs)
      && Field(o.vs.spec, "hosts") == List(HostValues(d.hosts)) && Field(o.vs.spec, "gateways") == List([Str("mesh")])
  {
    NewObjectStart(id, d);
  }

  /** It keeps all requests going to the first host, and unharmed those no action wants. */
  lemma NewObjectTraffic(fi: FaultInjection, k: string, counts: PodCounts, render: Render, others: Others, r: Request)
    requires var actions := fi.spec.meshFaults;
      && MeshValid(fi.spec, counts) && AllDereferenceable(actions) && k in DesiredByTarget(fi.id, actions)
    requires var d := DesiredByTarget(fi.id, fi.spec.meshFaults)[k]; d.managed && d.hosts != []
    requires "/" <= r.path
    ensures var d := DesiredByTarget(fi.id, fi.spec.meshFaults)[k];
      var hit := Resolve(HttpOf(ApplyOne(fi.id, None, d, render).vs.spec), Accepts(others), r);
      && hit.Some? && RouteOf(hit.value) == Some(HostRoute(d.hosts[0]))
      && (if Declared(fi, k, r) then HitExplained(fi, k, hit.value, r) else Field(hit.value, "fault") == Null)
  {
    var d := DesiredByTarget(fi.id, fi.spec.meshFaults)[k];
    NewObjectStart(fi.id, d);
    NewObject(fi.id, d, render);
    TrafficContained(fi, None, k, counts, render, others, r);
    ForeignDefault(fi.id, "default-" + fi.id.name, d.hosts);
    DefaultTakesAll("default-" + fi.id.name, d.hosts, others, r);
  }

  /** So does an object whose rules someone has removed. */
  lemma EmptiedObjectTraffic(fi: FaultInjection, k: string, counts: PodCounts, render: Render, others: Others, r: Request, vs: VirtualService)
    requires var actions := fi.spec.meshFaults;
      && MeshValid(fi.spec, counts) && AllDereferenceable(actions) && k in DesiredByTarget(fi.id, actions)
    requires var d := DesiredByTarget(fi.id, fi.spec.meshFaults)[k];
      && d.managed && d.hosts != [] && HttpOf(vs.spec) == [] && ApplyOne(fi.id, Some(vs), d, render).written
    requires "/" <= r.path
    ensures var d := DesiredByTarget(fi.id, fi.spec.meshFaults)[k];
      var hit := Resolve(HttpOf(ApplyOne(fi.id, Some(vs), d, render).vs.spec), Accepts(others), r);
      && hit.Some? && RouteOf(hit.value) == Some(HostRoute(d.hosts[0]))
      && (if Declared(fi, k, r) then HitExplained(fi, k, hit.value, r) else Field(hit.value, "fault") == Null)
  {
    var d := DesiredByTarget(fi.id, fi.spec.meshFaults)[k];
    HttpOfGateways(vs.spec, true);
    assert BaseRoute(vs.spec, d) == Some(HostRoute(d.hosts[0]));
    assert HttpOf(Prepared(vs.spec, d)) == [DefaultRule("default", d.hosts)];
    TrafficContained(fi, Some(vs), k, counts, render, others, r);
    ForeignDefault(fi.id, "default", d.hosts);
    DefaultTakesAll("default", d.hosts, others, r);
  }

  lemma ForeignDefault(id: Identity, name: string, hosts: seq<string>)
    requires name != "" && name[0] == 'd'
    ensures var rule := DefaultRule(name, hosts);
      !Own(PrefixOf(id.name), rule) && Without(PrefixOf(id.name), [rule]) == [rule]
  {
    var rule := DefaultRule(name, hosts);
    assert RuleName(rule)[0] == 'd' && PrefixOf(id.name)[0] == 'f';
    WithoutNone(PrefixOf(id.name), [rule]);
  }

  lemma DefaultTakesAll(name: string, hosts: seq<string>, others: Others, r: Request)
    requires "/" <= r.path && hosts != []
    ensures var rule := DefaultRule(name, hosts);
      && Resolve([rule], Accepts(others), r) == Some(rule) && RouteOf(rule) == Some(HostRoute(hosts[0])) && Field(rule, "fault") == Null
  {
    var rule := DefaultRule(name, hosts);
    var cond := Obj(map["prefix" := Str("/")]);
    var block := Obj(map["uri" := cond]);
    assert SaysText(cond, "prefix") && Meets("uri", cond, r, others);
    assert BlockTakes(block, r, others);
    assert Field(rule, "match") == List([block]) && block in [block];
    assert Accepts(others)(rule, r);
  }

  // ---------------------------------------------------------------- names tell actions apart

  /** Rules of two actions have one name exactly when they agree on direction and on the
      action's sanitized name; objects made for them, on the latter alone. */
  lemma MeshNamesTell(id: Identity, a: MeshAction, b: MeshAction)
    requires a.direction in {INBOUND, OUTBOUND} && b.direction in {INBOUND, OUTBOUND}
    ensures InjectedRuleName(id, a) == InjectedRuleName(id, b) <==> a.direction == b.direction && SanitizeName(a.name) == SanitizeName(b.name)
    ensures ManagedName(id, a) == ManagedName(id, b) <==> SanitizeName(a.name) == SanitizeName(b.name)
  {
    SameTail(PrefixOf(id.name), MapChars(a.direction, ToLower) + "-" + SanitizeName(a.name), MapChars(b.direction, ToLower) + "-" + SanitizeName(b.name));
    SameTail("fi-" + id.name + "-", SanitizeName(a.name), SanitizeName(b.name));
    LowerDirections();
    if a.direction == b.direction {
      SameTail(MapChars(a.direction, ToLower) + "-", SanitizeName(a.name), SanitizeName(b.name));
    } else {
      assert (MapChars(a.direction, ToLower) + "-" + SanitizeName(a.name))[0] != (MapChars(b.direction, ToLower) + "-" + SanitizeName(b.name))[0];
    }
    assert InjectedRuleName(id, a) == PrefixOf(id.name) + (MapChars(a.direction, ToLower) + "-" + SanitizeName(a.name));
    assert InjectedRuleName(id, b) == PrefixOf(id.name) + (MapChars(b.direction, ToLower) + "-" + SanitizeName(b.name));
  }

  lemma LowerDirections()
    ensures MapChars(INBOUND, ToLower)[0] == 'i' && MapChars(OUTBOUND, ToLower)[0] == 'o'
  {
  }

  lemma SameTail(head: string, s: string, t: string)
    ensures head + s == head + t <==> s == t
  {
    assert (head + s)[|head|..] == s && (head + t)[|head|..] == t;
  }
}
