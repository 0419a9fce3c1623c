/** What a rejected spec costs: exactly when a tick was pending, at-most-once is lost. */
module Rejection {
  import opened Machine
  import opened Api
  import LeaseProtocol
  import PodSelection
  import opened Cluster
  import opened Validation
  import Targets
  import opened Ticks
  import opened Protocol
  import opened Execution
  import opened Apart
  import opened Lifecycle
  import opened Cleanup
  import opened Reconciler
  import Experiment
  import opened Lifetime
  import opened Rehearsal
  import opened Stage
  import opened Exact

  /** Whatever follows, at most once. */
  ghost predicate OnceFrom(w: World, c: Controller, t: int, size: nat) {
    forall events: seq<Experiment.Event> ::
      OrderlyRun(w, c, events, t) && (forall i :: 0 <= i < |events| ==> RealEvent(events[i], size)) ==> CreatedOnce(RunLog(w, c, events))
  }

  /** The experiment runs, its status is as the controller keeps it, and the protocol's
      invariant holds. */
  ghost predicate UnderWay(w: World, c: Controller, now: int) {
    && Timed(w.fi.status) && w.fi.status.startedAt.value >= LeaseProtocol.UNIX_EPOCH && w.fi.status.startedAt.value % SECOND == 0
    && w.fi.status.expiresAt.value == w.fi.status.startedAt.value + w.fi.spec.durationSeconds * SECOND
    && w.fi.status.startedAt.value <= now <= w.fi.status.expiresAt.value
    && Growing(w, c, now)
    && forall k :: IsDone(w, k) || Open(w.fi.status.ticks, k)
  }

  /** A rejection at `now` of a spec that is sound but for what was counted then. The
      experiment goes on to run no tick twice, whatever happens, exactly when no tick was
      pending at the rejection. */
  lemma RejectionExact(c: Controller, w: World, r: Round, meshCounts: PodCounts, podCounts: PodCounts, size: nat)
    requires Sound(c, w.fi.id, w.fi.spec, meshCounts, podCounts) && Admitted(w.fi.spec) && Admits(w.fi.spec, size)
    requires JobsApart(c.hash, w.fi.id, w.fi.spec) && UnderWay(w, c, r.now) && !Acceptable(w, r)
    ensures OnceFrom(Reconciled(w, c, r).0, c, r.now, size)
       <==> NonePending(w, Over(w.fi.spec, w.fi.status.startedAt.value, r.now))
  {
    RejectedWorld(w, c, r);
    CleanedExact(c, w, r.now, meshCounts, podCounts, size);
  }

  lemma CleanedExact(c: Controller, w: World, now: int, meshCounts: PodCounts, podCounts: PodCounts, size: nat)
    requires Sound(c, w.fi.id, w.fi.spec, meshCounts, podCounts) && Admitted(w.fi.spec) && Admits(w.fi.spec, size)
    requires JobsApart(c.hash, w.fi.id, w.fi.spec) && UnderWay(w, c, now)
    ensures OnceFrom(Cleaned(w, c.render).WithPhase(Error), c, now, size)
       <==> NonePending(w, Over(w.fi.spec, w.fi.status.startedAt.value, now))
  {
    var w1 := Cleaned(w, c.render).WithPhase(Error);
    var over := Over(w.fi.spec, w.fi.status.startedAt.value, now);
    if NonePending(w, over) {
      CleanedGrows(w, c, now);
      forall events: seq<Experiment.Event> | OrderlyRun(w1, c, events, now) ensures CreatedOnce(RunLog(w1, c, events)) {
        AtMostOnceForLife(w1, c, events, now);
      }
    } else {
      var i :| 0 <= i < |w.log| && CreationKey(w.log[i]) !in over && !IsDone(w, CreationKey(w.log[i]));
      var events := PendingRepeats(c, w, w1, now, meshCounts, podCounts, size, i);
      assert !CreatedOnce(RunLog(w1, c, events));
    }
  }

  lemma CleanedGrows(w: World, c: Controller, now: int)
    requires !w.fi.spec.cancel && 0 < w.fi.spec.durationSeconds <= MAX_SECONDS && JobsApart(c.hash, w.fi.id, w.fi.spec) && UnderWay(w, c, now)
    requires NonePending(w, Over(w.fi.spec, w.fi.status.startedAt.value, now))
    ensures Living(Cleaned(w, c.render).WithPhase(Error), c, now)
  {
    RejectedGrows(w, c, now);
    assert (w.fi.spec.durationSeconds * SECOND) % SECOND == 0;
  }

  lemma RejectedWorld(w: World, c: Controller, r: Round)
    requires !w.fi.spec.cancel && 0 < w.fi.spec.durationSeconds <= MAX_SECONDS && UnderWay(w, c, r.now) && !Acceptable(w, r)
    ensures Reconciled(w, c, r).0 == Cleaned(w, c.render).WithPhase(Error)
  {
    assert Seconds(w.fi.spec.durationSeconds) == w.fi.spec.durationSeconds * SECOND;
    assert WithLifecycle(w, r.lifecycleClock) == w;
  }

  // ---------------------------------------------------------------- the pending tick again

  /** Others can bring the VirtualServices to any state. */
  lemma Rewritten(w: World, c: Controller, target: Store, todo: set<Key>) returns (events: seq<Experiment.Event>)
    requires forall p :: p !in todo ==> Lookup(w.vss, p) == Lookup(target, p)
    ensures Experiment.RunOf(w, c, events) == w.(vss := target)
    ensures forall i :: 0 <= i < |events| ==> events[i].Writing?
    decreases |todo|
  {
    if todo == {} {
      Targets.SameLookups(w.vss, target);
      events := [];
    } else {
      var p :| p in todo;
      var ev := Experiment.Writing(p, Lookup(target, p));
      var rest := Rewritten(Experiment.Next(w, c, ev), c, target, todo - {p});
      events := [ev] + rest;
      assert events[1..] == rest;
    }
  }

  lemma {:induction false} WritingsAreOrderly(w: World, c: Controller, events: seq<Experiment.Event>, t: int)
    requires forall i :: 0 <= i < |events| ==> events[i].Writing?
    ensures OrderlyRun(w, c, events, t)
    decreases events
  {
    if events != [] {
      assert forall i :: 0 <= i < |events[1..]| ==> events[1..][i] == events[i + 1];
      WritingsAreOrderly(Experiment.Next(w, c, events[0]), c, events[1..], t);
    }
  }

  /** After cleanup: the store rewritten so that the rules are in place, and Jobs of other
      parties gone. */
  lemma Rearranged(w: World, c: Controller, target: Store, now: int, pods: seq<PodSelection.Pod>) returns (events: seq<Experiment.Event>)
    requires forall n :: !Held(w, n)
    ensures OrderlyRun(w, c, events, now) && EventsAt(events, now, pods)
    ensures Experiment.RunOf(w, c, events) == w.(vss := target, jobs := map[])
  {
    var writings := Rewritten(w, c, target, w.vss.Keys + target.Keys);
    WritingsAreOrderly(w, c, writings, now);
    var w0 := w.(vss := target);
    var clear := Experiment.OtherJobs(map[]);
    assert OwnJobsStay(w0, map[]) by { assert forall n :: Held(w0, n) <==> Held(w, n); }
    OneEvent(w0, c, clear, now);
    events := writings + [clear];
    TurnsJoin(w, c, writings, [clear], now, now, pods);
  }

  /** The setting in which the experiment goes on. */
  lemma GoesOn(c: Controller, w: World, meshCounts: PodCounts, podCounts: PodCounts, size: nat, now: int) returns (s: Setting, vss: Store)
    requires Sound(c, w.fi.id, w.fi.spec, meshCounts, podCounts) && Admits(w.fi.spec, size) && UnderWay(w, c, now)
    ensures s.c == c && s.id == w.fi.id && s.spec == w.fi.spec && s.start == w.fi.status.startedAt.value && s.pods == Crowd(size)
    ensures Viable(s) && InTime(s, now)
    ensures forall phase, jobs, leases :: Onstage(s, World(w.WithPhase(phase).fi, vss, jobs, leases, w.log))
  {
    ValidDereferenceable(w.fi.spec, meshCounts);
    var order;
    vss, order := RulesInPlace(w.fi.id, w.fi.spec.meshFaults, c.render);
    s := Setting(c, w.fi.id, w.fi.spec, w.fi.status.startedAt.value, meshCounts, podCounts, order, Crowd(size));
    assert AllLetIn(w.fi.spec, s.pods) by { CrowdLetIn(w.fi.spec, size); }
    SoundIsViable(s);
    forall phase, jobs, leases ensures Onstage(s, World(w.WithPhase(phase).fi, vss, jobs, leases, w.log)) {
      InPlaceOnstage(s, World(w.WithPhase(phase).fi, vss, jobs, leases, w.log));
    }
  }

  lemma PendingPlan(s: Setting, now: int, k: TickKey) returns (x: nat)
    requires Viable(s) && InTime(s, now) && JobsApart(s.c.hash, s.id, s.spec)
    requires k in Born(s.spec, s.start, now) && k !in Over(s.spec, s.start, now)
    ensures x < |PlansAt(s, now)| && PlanKey(PlansAt(s, now)[x]) == k
    ensures forall i :: 0 <= i < x ==> PlansAt(s, now)[i].jobName != PlansAt(s, now)[x].jobName
  {
    PlansBuilt(s, now);
    StillDue(s.spec, s.start, k, now);
    var p := DueHasPlan(s.c.hash, s.id, s.spec, now, s.start, k);
    BuiltApart(s.c.hash, s.id, s.spec, now, s.start);
    x :| 0 <= x < |PlansAt(s, now)| && PlansAt(s, now)[x] == p;
  }

  lemma PendingRepeats(c: Controller, w: World, w1: World, now: int, meshCounts: PodCounts, podCounts: PodCounts, size: nat, i: nat) returns (events: seq<Experiment.Event>)
    requires Sound(c, w.fi.id, w.fi.spec, meshCounts, podCounts) && Admitted(w.fi.spec) && Admits(w.fi.spec, size)
    requires JobsApart(c.hash, w.fi.id, w.fi.spec) && UnderWay(w, c, now) && w1 == Cleaned(w, c.render).WithPhase(Error)
    requires i < |w.log| && CreationKey(w.log[i]) !in Over(w.fi.spec, w.fi.status.startedAt.value, now) && !IsDone(w, CreationKey(w.log[i]))
    ensures OrderlyRun(w1, c, events, now) && (forall i :: 0 <= i < |events| ==> RealEvent(events[i], size))
    ensures !CreatedOnce(RunLog(w1, c, events))
  {
    var k := CreationKey(w.log[i]);
    var s, vss := GoesOn(c, w, meshCounts, podCounts, size, now);
    CleanedPods(w, c.render);
    assert forall n :: Held(w1, n) <==> Held(Cleaned(w, c.render), n);
    var first := Rearranged(w1, c, vss, now, s.pods);
    var w2 := w1.(vss := vss, jobs := map[]);
    var closed := iset l: TickKey | !Open(w.fi.status.ticks, l);
    assert Onstage(s, w2) by { assert w2 == World(w.WithPhase(Error).fi, vss, map[], w2.leases, w.log); }
    assert Scene(s, w2, map[], w.log, closed);
    var later := LaunchesAgain(s, w2, w.log, closed, now, size, i);
    events := first + later;
    TurnsJoin(w1, c, first, later, now, now, s.pods);
    RealAt(events, now, size);
  }

  lemma LaunchesAgain(s: Setting, w: World, log: seq<Creation>, closed: iset<TickKey>, now: int, size: nat, i: nat) returns (events: seq<Experiment.Event>)
    requires Viable(s) && Admitted(s.spec) && JobsApart(s.c.hash, s.id, s.spec) && s.pods == Crowd(size) && size >= 1
    requires Scene(s, w, map[], log, closed) && InTime(s, now) && i < |log|
    requires var k := CreationKey(log[i]); k in Born(s.spec, s.start, now) && k !in Over(s.spec, s.start, now) && k !in closed
    ensures OrderlyRun(w, s.c, events, now) && EventsAt(events, now, s.pods) && !CreatedOnce(RunLog(w, s.c, events))
  {
    var x := PendingPlan(s, now, CreationKey(log[i]));
    var p := PlansAt(s, now)[x];
    SomePicked(s, now, size, p);
    var jobs;
    events, jobs := LaunchTurn(s, w, log, closed, now, now, x, map[]);
    RepeatsKey(log, i, Creation(p.action, p.tick, PickOf(s, p)));
  }

  lemma RepeatsKey(log: seq<Creation>, i: nat, c: Creation)
    requires i < |log| && CreationKey(c) == CreationKey(log[i])
    ensures !CreatedOnce(log + [c])
  {
    assert (log + [c])[i] == log[i] && (log + [c])[|log|] == c;
  }
}
