/** cleanupAll with its artifacts, and cleanupOrphanedManagedVS: taking an experiment's
    traces out of the namespace. */
module Cleanup {
  import opened Helpers
  import opened Names
  import opened Api
  import LeaseProtocol
  import opened VirtualServices
  import opened Cluster
  import Mesh
  import opened Targets

  type Store = map<Key, VirtualService>

  // ---------------------------------------------------------------- which objects

  /** Targets the current spec names. */
  function SpecTargets(id: Identity, actions: seq<MeshAction>): set<string> {
    (set a | a in actions && a.direction == INBOUND && a.virtualServiceRef.Some? :: JoinKey(id.ns, a.virtualServiceRef.value))
    + Mesh.ManagedKeys(id, actions)
  }

  function LabelledTargets(id: Identity, vss: Store): set<string> {
    set p | p in vss && p.0 == id.ns && Labelled(id, vss[p]) :: JoinKey(p.0, p.1)
  }

  function CleanupTargets(id: Identity, actions: seq<MeshAction>, vss: Store): set<string> {
    SpecTargets(id, actions) + LabelledTargets(id, vss)
  }

  predicate Hit(p: Key, targets: set<string>) {
    exists k :: k in targets && SplitKey(k) == p
  }

  /** Job and Lease labels as cleanup selects on them: the uid counts once it is known. */
  predicate Mine(id: Identity, o: LeaseProtocol.Owner) {
    o.fi == id.name && (id.uid != "" ==> o.uid == id.uid)
  }

  function OwnJobs(id: Identity, jobs: map<string, Job>): set<string> {
    set n | n in jobs && Mine(id, jobs[n].owner)
  }

  function OwnLeases(id: Identity, leases: map<string, LeaseProtocol.Lease>): set<string> {
    set n | n in leases && Mine(id, leases[n].owner)
  }

  function Orphans(id: Identity, vss: Store, stillWanted: set<string>): set<Key> {
    set p | p in vss && p.0 == id.ns && ManagedVS(id, vss[p]) && JoinKey(p.0, p.1) !in stillWanted
  }

  // ---------------------------------------------------------------- what is left of them

  /** The object with the experiment's rules taken out, stored only if `%v` shows it. */
  function Scrubbed(id: Identity, vs: VirtualService, render: Render): VirtualService {
    var list := Patched(PrefixOf(id.name), HttpOf(vs.spec), []);
    if render(HttpOf(vs.spec)) != render(list) then vs.(spec := WithHttp(vs.spec, list)) else vs
  }

  function CleanedVSs(id: Identity, vss: Store, targets: set<string>, render: Render): Store {
    map p | p in vss && !(Hit(p, targets) && ManagedVS(id, vss[p])) ::
      if Hit(p, targets) then Scrubbed(id, vss[p], render) else vss[p]
  }

  function Cleaned(w: World, render: Render): World {
    var id := w.fi.id;
    w.(vss := CleanedVSs(id, w.vss, CleanupTargets(id, w.fi.spec.meshFaults, w.vss), render),
       jobs := w.jobs - OwnJobs(id, w.jobs),
       leases := w.leases - OwnLeases(id, w.leases))
  }

  // ---------------------------------------------------------------- the code on the store

  method CleanupTarget(s: Server, k: string, render: Render)
    modifies s`vss
    ensures s.vss == CleanedVSs(s.fi.id, old(s.vss), {k}, render)
  {
    var key := SplitKey(k);
    assert forall p :: Hit(p, {k}) <==> p == key by { assert k in {k}; }
    if key !in s.vss { return; }
    var vs := new Draft(s.vss[key]);
    var changed := vs.PatchHTTP(PrefixOf(s.fi.id.name), [], render);
    if MANAGED_BY in vs.labels && vs.labels[MANAGED_BY] == OPERATOR && FI_LABEL in vs.labels && vs.labels[FI_LABEL] == s.fi.id.name {
      s.vss := s.vss - {key};
    } else if changed {
      s.vss := s.vss[key := VirtualService(vs.labels, vs.spec)];
    }
  }

  method CleanupAll(s: Server, render: Render)
    modifies s`vss, s`jobs, s`leases
    ensures s.Snapshot() == Cleaned(old(s.Snapshot()), render)
  {
    var id := s.fi.id;
    var targets := CollectTargets(id, s.fi.spec.meshFaults);
    targets := targets + set p | p in s.vss && p.0 == id.ns && Labelled(id, s.vss[p]) :: JoinKey(p.0, p.1);
    assert targets == CleanupTargets(id, s.fi.spec.meshFaults, s.vss);
    CleanupEach(s, targets, render);
    CleanupPodFaultJobs(s);
    CleanupPodFaultLeases(s);
  }

  method CleanupEach(s: Server, targets: set<string>, render: Render)
    modifies s`vss
    ensures s.vss == CleanedVSs(s.fi.id, old(s.vss), targets, render)
  {
    var todo := targets;
    ghost var done: set<string> := {};
    CleanedByNone(s.fi.id, s.vss, render);
    while todo != {}
      invariant done + todo == targets
      invariant s.vss == CleanedVSs(s.fi.id, old(s.vss), done, render)
      decreases |todo|
    {
      var k :| k in todo;
      todo := todo - {k};
      CleanedByMore(s.fi.id, old(s.vss), done, k, render);
      CleanupTarget(s, k, render);
      done := done + {k};
    }
    assert done == targets;
  }

  method CollectTargets(id: Identity, actions: seq<MeshAction>) returns (targets: set<string>)
    ensures targets == SpecTargets(id, actions)
  {
    targets := {};
    for i := 0 to |actions|
      invariant targets == SpecTargets(id, actions[..i])
    {
      var a := actions[i];
      assert actions[..i + 1] == actions[..i] + [a];
      if a.direction == INBOUND && a.virtualServiceRef.Some? {
        targets := targets + {JoinKey(id.ns, a.virtualServiceRef.value)};
      }
      if a.direction == OUTBOUND {
        targets := targets + {JoinKey(id.ns, Mesh.ManagedName(id, a))};
      }
    }
    assert actions[..|actions|] == actions;
  }

  method CleanupPodFaultJobs(s: Server)
    modifies s`jobs
    ensures s.jobs == old(s.jobs) - OwnJobs(s.fi.id, old(s.jobs))
  {
    var todo := set n | n in s.jobs && Mine(s.fi.id, s.jobs[n].owner);
    ghost var listed, done: set<string> := todo, {};
    while todo != {}
      invariant done + todo == listed && s.jobs == old(s.jobs) - done
      decreases |todo|
    {
      var n :| n in todo;
      s.jobs := s.jobs - {n};
      todo, done := todo - {n}, done + {n};
    }
    assert done == OwnJobs(s.fi.id, old(s.jobs));
  }

  method CleanupPodFaultLeases(s: Server)
    modifies s`leases
    ensures s.leases == old(s.leases) - OwnLeases(s.fi.id, old(s.leases))
  {
    var todo := set n | n in s.leases && Mine(s.fi.id, s.leases[n].owner);
    ghost var listed, done: set<string> := todo, {};
    while todo != {}
      invariant done + todo == listed && s.leases == old(s.leases) - done
      decreases |todo|
    {
      var n :| n in todo;
      s.leases := s.leases - {n};
      todo, done := todo - {n}, done + {n};
    }
    assert done == OwnLeases(s.fi.id, old(s.leases));
  }

  method CleanupOrphanedManagedVS(s: Server, stillWanted: set<string>)
    modifies s`vss
    ensures s.vss == old(s.vss) - Orphans(s.fi.id, old(s.vss), stillWanted)
  {
    var listed := set p | p in s.vss && p.0 == s.fi.id.ns && ManagedVS(s.fi.id, s.vss[p]);
    var todo := listed;
    while todo != {}
      invariant todo <= listed
      invariant s.vss == old(s.vss) - (Orphans(s.fi.id, old(s.vss), stillWanted) - todo)
      decreases |todo|
    {
      var p :| p in todo;
      if JoinKey(p.0, p.1) !in stillWanted {
        s.vss := s.vss - {p};
      }
      todo := todo - {p};
    }
  }

  lemma CleanedByNone(id: Identity, vss: Store, render: Render)
    ensures CleanedVSs(id, vss, {}, render) == vss
  {
  }

  lemma ScrubbedTwice(id: Identity, vs: VirtualService, render: Render)
    ensures Scrubbed(id, Scrubbed(id, vs, render), render) == Scrubbed(id, vs, render)
  {
    var prefix := PrefixOf(id.name);
    var list := Without(prefix, HttpOf(vs.spec));
    WithoutMembers(prefix, HttpOf(vs.spec));
    WithoutNone(prefix, list);
    assert Patched(prefix, HttpOf(vs.spec), []) == list && Patched(prefix, list, []) == list;
  }

  lemma CleanedByMore(id: Identity, vss: Store, done: set<string>, k: string, render: Render)
    ensures CleanedVSs(id, CleanedVSs(id, vss, done, render), {k}, render) == CleanedVSs(id, vss, done + {k}, render)
  {
    var once := CleanedVSs(id, vss, done, render);
    assert k in {k} && k in done + {k};
    forall p ensures Hit(p, done + {k}) <==> Hit(p, done) || Hit(p, {k}) {
      if Hit(p, done) { var j :| j in done && SplitKey(j) == p; assert j in done + {k}; }
    }
    forall p | p in once ensures ManagedVS(id, once[p]) <==> ManagedVS(id, vss[p]) {}
    forall p | p in vss ensures Scrubbed(id, Scrubbed(id, vss[p], render), render) == Scrubbed(id, vss[p], render) {
      ScrubbedTwice(id, vss[p], render);
    }
  }

  // ---------------------------------------------------------------- how clean that is

  /** Some rule of the experiment is on the object. */
  ghost predicate HasOwn(id: Identity, vs: VirtualService) {
    exists v :: v in HttpOf(vs.spec) && Own(PrefixOf(id.name), v)
  }

  ghost predicate RuleFree(id: Identity, vss: Store) {
    forall p :: p in vss && p.0 == id.ns ==> !HasOwn(id, vss[p])
  }

  /** Every object that carries rules of the experiment is named by the spec, or labelled
      as the experiment's. */
  ghost predicate Reachable(id: Identity, actions: seq<MeshAction>, vss: Store) {
    forall p :: p in vss && p.0 == id.ns && HasOwn(id, vss[p]) ==> Hit(p, SpecTargets(id, actions)) || Labelled(id, vss[p])
  }

  ghost predicate NothingManaged(id: Identity, vss: Store) {
    forall p :: p in vss && p.0 == id.ns ==> !ManagedVS(id, vss[p])
  }

  /** No rule, managed VirtualService, podfault Job or Lease of the experiment is left. */
  ghost predicate Clean(w: World) {
    && RuleFree(w.fi.id, w.vss) && NothingManaged(w.fi.id, w.vss)
    && OwnJobs(w.fi.id, w.jobs) == {} && OwnLeases(w.fi.id, w.leases) == {}
  }

  /** Taking rules out of a list shows in its rendering. So it does in `%v`, where a list
      with an item less is a shorter text. */
  ghost predicate SeesRemovals(render: Render) {
    forall prefix, list :: render(list) == render(Without(prefix, list)) ==> list == Without(prefix, list)
  }

  lemma HitTargets(id: Identity, actions: seq<MeshAction>, vss: Store, p: Key)
    requires '/' !in id.ns && p in vss
    ensures Hit(p, CleanupTargets(id, actions, vss))
       <==> Hit(p, SpecTargets(id, actions)) || (p.0 == id.ns && Labelled(id, vss[p]))
  {
    var all := CleanupTargets(id, actions, vss);
    if k :| k in SpecTargets(id, actions) && SplitKey(k) == p { assert k in all; }
    if p.0 == id.ns && Labelled(id, vss[p]) {
      SplitJoin(p.0, p.1);
      assert JoinKey(p.0, p.1) in all;
    }
    if k :| k in LabelledTargets(id, vss) && SplitKey(k) == p {
      var q :| q in vss && q.0 == id.ns && Labelled(id, vss[q]) && k == JoinKey(q.0, q.1);
      SplitJoin(q.0, q.1);
    }
  }

  lemma ScrubbedFree(id: Identity, vs: VirtualService, render: Render)
    requires SeesRemovals(render)
    ensures HttpOf(Scrubbed(id, vs, render).spec) == Without(PrefixOf(id.name), HttpOf(vs.spec))
    ensures !HasOwn(id, Scrubbed(id, vs, render))
  {
    var prefix := PrefixOf(id.name);
    assert Patched(prefix, HttpOf(vs.spec), []) == Without(prefix, HttpOf(vs.spec));
    WithoutMembers(prefix, HttpOf(vs.spec));
  }

  /** cleanupAll goes by the current spec and the labels. It removes everything managed
      and every Job and Lease in any case, and every rule exactly when each object that
      carries one is still named or labelled; after an edit of virtualServiceRef the old
      target is not, and keeps its rules. */
  lemma CleanupExact(w: World, render: Render)
    requires '/' !in w.fi.id.ns && SeesRemovals(render)
    ensures var id := w.fi.id;
      var w1 := Cleaned(w, render);
      && NothingManaged(id, w1.vss) && OwnJobs(id, w1.jobs) == {} && OwnLeases(id, w1.leases) == {}
      && (RuleFree(id, w1.vss) <==> Reachable(id, w.fi.spec.meshFaults, w.vss))
  {
    var id, actions, vss := w.fi.id, w.fi.spec.meshFaults, w.vss;
    var targets := CleanupTargets(id, actions, vss);
    var vss1 := CleanedVSs(id, vss, targets, render);
    forall p | p in vss && p.0 == id.ns
      ensures p in vss1 ==> !ManagedVS(id, vss1[p])
      ensures p in vss1 && HasOwn(id, vss1[p]) <==> HasOwn(id, vss[p]) && !Hit(p, SpecTargets(id, actions)) && !Labelled(id, vss[p])
    {
      CleanedAt(id, actions, vss, p, render);
    }
  }

  /** What cleanup does at one object of the namespace. */
  lemma CleanedAt(id: Identity, actions: seq<MeshAction>, vss: Store, p: Key, render: Render)
    requires '/' !in id.ns && SeesRemovals(render) && p in vss && p.0 == id.ns
    ensures var vss1 := CleanedVSs(id, vss, CleanupTargets(id, actions, vss), render);
      && (p in vss1 ==> !ManagedVS(id, vss1[p]))
      && (p in vss1 && HasOwn(id, vss1[p]) <==> HasOwn(id, vss[p]) && !Hit(p, SpecTargets(id, actions)) && !Labelled(id, vss[p]))
  {
    HitTargets(id, actions, vss, p);
    ScrubbedFree(id, vss[p], render);
  }
}
