/** What one pass of the tick protocol keeps: at most one Job per tick, terminal entries,
    the status as a true record, and the bound on the pods named. Whichever calls fail or
    lose their reply, and whatever else lives in the namespace. */
module Execution {
  import opened Wrappers
  import opened Machine
  import opened Names
  import Helpers
  import opened Api
  import opened Cluster
  import opened PodSelection
  import opened Ticks
  import opened Protocol
  import Cleanup
  import Ordering
  import LeaseProtocol

  function CreationKey(c: Creation): TickKey { (c.action, c.tick) }

  /** No key was created twice. */
  ghost predicate CreatedOnce(log: seq<Creation>) {
    forall i, j :: 0 <= i < j < |log| ==> CreationKey(log[i]) != CreationKey(log[j])
  }

  predicate IsDone(w: World, k: TickKey) {
    TickOf(w.fi.status.ticks, k).Some? && Terminal(TickOf(w.fi.status.ticks, k).value.state)
  }

  /** The experiment itself has a Job of that name. */
  predicate Held(w: World, n: string) {
    n in w.jobs && Cleanup.Mine(w.fi.id, w.jobs[n].owner)
  }

  /** The name the controller gives the Job of a key. */
  function NameOf(h: Helpers.Hash, id: Identity): TickKey -> string {
    (k: TickKey) => if PodFaultName(h, id, k.0, k.1).Some? then PodFaultName(h, id, k.0, k.1).value else ""
  }

  ghost predicate NamedBy(plans: seq<Plan>, name: TickKey -> string) {
    forall p :: p in plans ==> p.jobName == name(PlanKey(p))
  }

  /** No two plans of a pass share a Job. */
  ghost predicate PlansApart(plans: seq<Plan>) {
    forall i, j :: 0 <= i < j < |plans| ==> plans[i].jobName != plans[j].jobName
  }

  /** No two plans of a pass share a tick. */
  ghost predicate TicksApart(plans: seq<Plan>) {
    forall i, j :: 0 <= i < j < |plans| ==> PlanKey(plans[i]) != PlanKey(plans[j])
  }

  lemma ApartRest(plans: seq<Plan>)
    requires plans != []
    ensures PlansApart(plans) ==> PlansApart(plans[1..]) && forall q :: q in plans[1..] ==> q.jobName != plans[0].jobName
    ensures TicksApart(plans) ==> TicksApart(plans[1..]) && forall q :: q in plans[1..] ==> PlanKey(q) != PlanKey(plans[0])
    ensures forall q :: q in plans[1..] ==> q in plans
  {
    assert forall i :: 0 <= i < |plans[1..]| ==> plans[1..][i] == plans[i + 1];
  }

  lemma ApartTicks(plans: seq<Plan>, name: TickKey -> string)
    requires PlansApart(plans) && NamedBy(plans, name)
    ensures TicksApart(plans)
  {
    forall i, j | 0 <= i < j < |plans| ensures PlanKey(plans[i]) != PlanKey(plans[j]) {
      assert plans[i] in plans && plans[j] in plans;
    }
  }

  // ---------------------------------------------------------------- one step

  /** Present in both or in neither, and the same but for its progress. */
  ghost predicate SameJob(jobs: map<string, Job>, jobs1: map<string, Job>, n: string) {
    && (n in jobs1 <==> n in jobs)
    && (n in jobs ==> jobs1[n] == jobs[n].(complete := jobs1[n].complete, failed := jobs1[n].failed))
  }

  ghost predicate Logs(w: World, w1: World, p: Plan) {
    && |w1.log| == |w.log| + 1 && w1.log[..|w.log|] == w.log && CreationKey(w1.log[|w.log|]) == PlanKey(p)
    && p.jobName !in w.jobs && Held(w1, p.jobName)
  }

  /** Everything one plan's step can do to the world, whatever fails in it. */
  ghost predicate StepEffect(w: World, w1: World, p: Plan) {
    && w1.fi.spec == w.fi.spec && w1.fi.id == w.fi.id && w1.vss == w.vss
    && OnlyTick(w.fi.status.ticks, w1.fi.status.ticks, PlanKey(p))
    && (forall n :: n != p.jobName ==> SameJob(w.jobs, w1.jobs, n))
    && (p.jobName in w.jobs ==> SameJob(w.jobs, w1.jobs, p.jobName) || (p.jobName !in w1.jobs && IsDone(w1, PlanKey(p))))
    && (w1.log == w.log || Logs(w, w1, p))
  }

  lemma FinishJobsKeys(jobs: map<string, Job>, fs: seq<Finish>)
    ensures FinishJobs(jobs, fs).Keys == jobs.Keys
    ensures forall n :: SameJob(jobs, FinishJobs(jobs, fs), n)
    decreases fs
  {
    if fs != [] {
      var next := FinishJob(jobs, fs[0]);
      FinishJobsKeys(next, fs[1..]);
      forall n ensures SameJob(jobs, FinishJobs(jobs, fs), n) {
        assert SameJob(jobs, next, n) && SameJob(next, FinishJobs(next, fs[1..]), n);
      }
    }
  }

  lemma RecordPlannedSound(ticks: seq<Tick>, k: TickKey, jobName: string, pods: seq<string>, now: int)
    ensures var r := RecordPlanned(ticks, k, jobName, pods, now);
      && (forall l :: l != k ==> TickOf(r, l) == TickOf(ticks, l))
      && (UniqueKeys(ticks) ==> UniqueKeys(r))
      && (if Finished(EntryFor(ticks, k)) then r == ticks
          else TickOf(r, k).Some? && TickOf(r, k).value.plannedPods == pods && TickOf(r, k).value.state == Planned
               && TickOf(r, k).value.executedAt.None?)
  {
    var e := EntryFor(ticks, k);
    PutTickSound(ticks, e.(plannedAt := Some(StoredTime(now)), plannedPods := pods, jobName := jobName, state := Planned));
  }

  lemma RecordExecutedSound(ticks: seq<Tick>, k: TickKey, jobName: string, now: int, ok: bool)
    ensures var r := RecordExecuted(ticks, k, jobName, [], now, ok);
      && (forall l :: l != k ==> TickOf(r, l) == TickOf(ticks, l))
      && (UniqueKeys(ticks) ==> UniqueKeys(r))
      && TickOf(r, k).Some? && Terminal(TickOf(r, k).value.state)
      && TickOf(r, k).value.plannedPods == EntryFor(ticks, k).plannedPods
  {
    var e := EntryFor(ticks, k);
    PutTickSound(ticks, e.(jobName := jobName, executedAt := Some(StoredTime(now)), state := if ok then Succeeded else Failed));
  }

  /** Only the status entry of the plan's tick changes. */
  ghost predicate OnlyTick(t: seq<Tick>, t1: seq<Tick>, k: TickKey) {
    forall l :: l != k ==> TickOf(t1, l) == TickOf(t, l)
  }

  lemma FinishingEffect(w: World, p: Plan, now: int, ok: bool, e: Surroundings)
    requires p.jobName in w.jobs
    ensures StepEffect(w, Finishing(w, p, now, ok, e).0, p)
  {
    var t1 := RecordExecuted(w.fi.status.ticks, PlanKey(p), p.jobName, [], now, ok);
    assert OnlyTick(w.fi.status.ticks, t1, PlanKey(p)) && Terminal(EntryFor(t1, PlanKey(p)).state) && TickOf(t1, PlanKey(p)).Some? by {
      RecordExecutedSound(w.fi.status.ticks, PlanKey(p), p.jobName, now, ok);
    }
    var w1 := w.WithTicks(t1);
    assert w1.fi.status.ticks == t1 && IsDone(w1, PlanKey(p));
    var w2 := Finishing(w, p, now, ok, e).0;
    assert w2 == w || (w2.fi == w1.fi && w2.vss == w.vss && w2.log == w.log && (w2.jobs == w.jobs || w2.jobs == w.jobs - {p.jobName}));
  }

  lemma PhaseEffect(w: World, w1: World, p: Plan, call: Call)
    requires StepEffect(w, w1, p)
    ensures StepEffect(w, EnterError(w1, call).0, p)
  {
    assert w1.WithPhase(Error).fi.status.ticks == w1.fi.status.ticks;
  }

  lemma ObserveEffect(w: World, p: Plan, now: int, e: Surroundings)
    requires p.jobName in w.jobs
    ensures StepEffect(w, Observe(w, p, now, e).0, p)
  {
    var job := w.jobs[p.jobName];
    if job.complete {
      FinishingEffect(w, p, now, true, e);
    } else if job.failed {
      FinishingEffect(w, p, now, false, e);
      PhaseEffect(w, Finishing(w, p, now, false, e).0, p, e.phase);
    }
  }

  lemma LaunchEffect(w: World, p: Plan, now: int, holder: string, e: Surroundings)
    requires p.jobName !in w.jobs
    ensures StepEffect(w, Launch(w, p, now, holder, e).0, p)
  {
    if e.pods.Some? {
      if Wrap32(|Candidates(e.pods.value)|) < p.refuseIfPodsLessThan {
        PhaseEffect(w, w, p, e.phase);
      } else {
        LaunchSelectedEffect(w, p, Select(Candidates(e.pods.value), p.count, p.percent, p.cap), now, holder, e);
      }
    }
  }

  lemma LaunchSelectedEffect(w: World, p: Plan, selected: seq<string>, now: int, holder: string, e: Surroundings)
    requires p.jobName !in w.jobs
    ensures var w1 := if e.planned == Refused then w
                else w.WithTicks(RecordPlanned(w.fi.status.ticks, PlanKey(p), p.jobName, selected, now));
      StepEffect(w, LaunchSelected(w1, p, selected, now, holder, e).0, p)
  {
    var t1 := if e.planned == Refused then w.fi.status.ticks
              else RecordPlanned(w.fi.status.ticks, PlanKey(p), p.jobName, selected, now);
    assert OnlyTick(w.fi.status.ticks, t1, PlanKey(p)) by {
      RecordPlannedSound(w.fi.status.ticks, PlanKey(p), p.jobName, selected, now);
    }
    var w1 := if e.planned == Refused then w else w.WithTicks(t1);
    assert w1.fi.status.ticks == t1 && w1.log == w.log && w1.jobs == w.jobs;
    LeaseAndJobEffect(w1, p, selected, now, holder, e);
  }

  /** From the Lease on, the status is left alone. */
  lemma LeaseAndJobEffect(w: World, p: Plan, selected: seq<string>, now: int, holder: string, e: Surroundings)
    requires p.jobName !in w.jobs
    ensures var w1 := LaunchSelected(w, p, selected, now, holder, e).0;
      && w1.fi == w.fi && w1.vss == w.vss
      && ((w1.jobs == w.jobs && w1.log == w.log)
          || (w1.jobs == w.jobs[p.jobName := Job(OwnerOf(w.fi), p.action, p.tick, selected, false, false)]
              && w1.log == w.log + [Creation(p.action, p.tick, selected)]))
  {
  }

  /** A step of Jobs only, before the plan is looked at. */
  lemma AfterFinishing(w: World, w1: World, p: Plan, fs: seq<Finish>)
    requires StepEffect(w.(jobs := FinishJobs(w.jobs, fs)), w1, p)
    ensures StepEffect(w, w1, p)
  {
    FinishJobsKeys(w.jobs, fs);
    var w0 := w.(jobs := FinishJobs(w.jobs, fs));
    assert SameJob(w.jobs, w0.jobs, p.jobName);
    forall n | n != p.jobName ensures SameJob(w.jobs, w1.jobs, n) {
      assert SameJob(w.jobs, w0.jobs, n) && SameJob(w0.jobs, w1.jobs, n);
    }
  }

  lemma StepHasEffect(w: World, snapshot: seq<Tick>, p: Plan, now: int, holder: string, e: Surroundings)
    ensures StepEffect(w, PlanStep(w, snapshot, p, now, holder, e).0, p)
    ensures Skipped(snapshot, p) ==> PlanStep(w, snapshot, p, now, holder, e).0.fi == w.fi && PlanStep(w, snapshot, p, now, holder, e).0.log == w.log
  {
    var w0 := w.(jobs := FinishJobs(w.jobs, e.finished));
    if !Skipped(snapshot, p) && e.getJobOk {
      if p.jobName in w0.jobs { ObserveEffect(w0, p, now, e); } else { LaunchEffect(w0, p, now, holder, e); }
    }
    AfterFinishing(w, PlanStep(w, snapshot, p, now, holder, e).0, p, e.finished);
  }

  // ---------------------------------------------------------------- at most once

  /** A key a Job was created for: its turn is over, or its Job is still there, or its
      outcome is on record. */
  ghost predicate Kept(w: World, k: TickKey, name: TickKey -> string, over: iset<TickKey>) {
    k in over || Held(w, name(k)) || IsDone(w, k)
  }

  ghost predicate Once(w: World, name: TickKey -> string, over: iset<TickKey>) {
    CreatedOnce(w.log) && forall i :: 0 <= i < |w.log| ==> Kept(w, CreationKey(w.log[i]), name, over)
  }

  /** Nobody but its own plan uses the Job of a key whose turn is not over. */
  ghost predicate Undisputed(w: World, plans: seq<Plan>, name: TickKey -> string, over: iset<TickKey>) {
    forall i, p :: 0 <= i < |w.log| && p in plans ==> Untouched(p, CreationKey(w.log[i]), name, over)
  }

  ghost predicate Untouched(p: Plan, k: TickKey, name: TickKey -> string, over: iset<TickKey>) {
    k in over || PlanKey(p) == k || p.jobName != name(k)
  }

  /** What the pass remembers of the remaining plans' ticks is still so. */
  ghost predicate UpToDate(w: World, snapshot: seq<Tick>, plans: seq<Plan>) {
    forall p :: p in plans ==> TickOf(w.fi.status.ticks, PlanKey(p)) == TickOf(snapshot, PlanKey(p))
  }

  lemma StepKeepsKept(w: World, w1: World, p: Plan, k: TickKey, name: TickKey -> string, over: iset<TickKey>)
    requires StepEffect(w, w1, p) && Kept(w, k, name, over) && Untouched(p, k, name, over) && p.jobName == name(PlanKey(p))
    requires IsDone(w, PlanKey(p)) ==> w1.fi == w.fi
    ensures Kept(w1, k, name, over)
  {
    assert SameJob(w.jobs, w1.jobs, name(k)) || name(k) == p.jobName;
  }

  ghost predicate Logged(log: seq<Creation>, k: TickKey) {
    exists i :: 0 <= i < |log| && CreationKey(log[i]) == k
  }

  lemma StepKeepsOnce(w: World, w1: World, snapshot: seq<Tick>, p: Plan, name: TickKey -> string, over: iset<TickKey>)
    requires Once(w, name, over) && StepEffect(w, w1, p) && UpToDate(w, snapshot, [p])
    requires p.jobName == name(PlanKey(p)) && Undisputed(w, [p], name, over)
    requires PlanKey(p) in over && Logged(w.log, PlanKey(p)) ==> w1.log == w.log
    requires Skipped(snapshot, p) ==> w1.fi == w.fi && w1.log == w.log
    requires IsDone(w, PlanKey(p)) ==> Skipped(snapshot, p)
    ensures Once(w1, name, over)
  {
    var n := |w.log|;
    assert p in [p];
    forall i | 0 <= i < n
      ensures Kept(w1, CreationKey(w.log[i]), name, over)
      ensures w1.log != w.log ==> CreationKey(w.log[i]) != PlanKey(p)
    {
      assert Untouched(p, CreationKey(w.log[i]), name, over) && Kept(w, CreationKey(w.log[i]), name, over);
      StepKeepsKept(w, w1, p, CreationKey(w.log[i]), name, over);
    }
    if w1.log != w.log {
      assert forall i :: 0 <= i < n ==> w1.log[..n][i] == w1.log[i];
    }
  }

  /** Plans of one Job are for one tick, or for ticks whose turn is over. */
  ghost predicate ClashesOver(plans: seq<Plan>, over: iset<TickKey>) {
    forall p, q :: p in plans && q in plans && p.jobName == q.jobName ==> PlanKey(p) == PlanKey(q) || PlanKey(p) in over
  }

  lemma StepKeepsUndisputed(w: World, w1: World, plans: seq<Plan>, name: TickKey -> string, over: iset<TickKey>)
    requires plans != [] && ClashesOver(plans, over) && NamedBy(plans, name) && Undisputed(w, plans, name, over)
    requires StepEffect(w, w1, plans[0])
    ensures Undisputed(w1, plans[1..], name, over)
  {
    var n := |w.log|;
    forall i, q | 0 <= i < |w1.log| && q in plans[1..] ensures Untouched(q, CreationKey(w1.log[i]), name, over) {
      assert q in plans && plans[0] in plans;
      if i < n {
        assert w1.log[i] == w.log[i] by { if w1.log != w.log { assert w1.log[..n][i] == w1.log[i]; } }
        assert Untouched(q, CreationKey(w.log[i]), name, over);
      } else {
        assert CreationKey(w1.log[i]) == PlanKey(plans[0]);
      }
    }
  }

  // ---------------------------------------------------------------- Leases along the way

  /** The plan's Lease is taken at `now`. */
  ghost predicate Barred(w: World, p: Plan, now: int) {
    p.leaseName in w.leases && !LeaseProtocol.Stale(w.leases[p.leaseName], now)
  }

  /** The experiment's own Lease, taken at `now`. */
  ghost predicate Claimed(l: LeaseProtocol.Lease, id: Identity, now: int) {
    Cleanup.Mine(id, l.owner) && LeaseProtocol.LastTime(l) == StoredMicroTime(now)
  }

  /** A Lease stays as it is, or is claimed where there was none or a stale one. */
  ghost predicate LeaseMove(id: Identity, l: Option<LeaseProtocol.Lease>, l1: Option<LeaseProtocol.Lease>, now: int) {
    || l1 == l
    || (&& l1.Some? && Claimed(l1.value, id, now)
        && (if l.None? then LeaseProtocol.EffectiveSeconds(l1.value) == LeaseProtocol.DEFAULT_SECONDS
            else LeaseProtocol.Stale(l.value, now) && LeaseProtocol.EffectiveSeconds(l1.value) == LeaseProtocol.EffectiveSeconds(l.value)))
  }

  /** What a step does to Leases; and a Job is created only with its Lease just claimed. */
  ghost predicate LeaseEffect(w: World, w1: World, p: Plan, now: int) {
    && (forall n :: n != p.leaseName ==> Lookup(w1.leases, n) == Lookup(w.leases, n))
    && LeaseMove(w.fi.id, Lookup(w.leases, p.leaseName), Lookup(w1.leases, p.leaseName), now)
    && (w1.log != w.log ==> !Barred(w, p, now) && p.leaseName in w1.leases && Claimed(w1.leases[p.leaseName], w.fi.id, now))
  }

  lemma NoLeaseEffect(w: World, w1: World, p: Plan, now: int)
    requires w1.leases == w.leases && w1.log == w.log
    ensures LeaseEffect(w, w1, p, now)
  {
  }

  lemma StepLeases(w: World, snapshot: seq<Tick>, p: Plan, now: int, holder: string, e: Surroundings)
    ensures LeaseEffect(w, PlanStep(w, snapshot, p, now, holder, e).0, p, now)
  {
    var w0 := w.(jobs := FinishJobs(w.jobs, e.finished));
    var w1 := PlanStep(w, snapshot, p, now, holder, e).0;
    if Skipped(snapshot, p) || !e.getJobOk {
      NoLeaseEffect(w, w1, p, now);
    } else if p.jobName in w0.jobs {
      ObserveLeases(w0, p, now, e);
      NoLeaseEffect(w, w1, p, now);
    } else {
      LaunchLeases(w0, p, now, holder, e);
      SameLeaseEffect(w, w0, w1, p, now);
    }
  }

  lemma SameLeaseEffect(w: World, w0: World, w1: World, p: Plan, now: int)
    requires w0.leases == w.leases && w0.log == w.log && w0.fi.id == w.fi.id && LeaseEffect(w0, w1, p, now)
    ensures LeaseEffect(w, w1, p, now)
  {
  }

  lemma ObserveLeases(w: World, p: Plan, now: int, e: Surroundings)
    requires p.jobName in w.jobs
    ensures var w1 := Observe(w, p, now, e).0; w1.leases == w.leases && w1.log == w.log
  {
    FinishingLeases(w, p, now, true, e);
    FinishingLeases(w, p, now, false, e);
  }

  lemma FinishingLeases(w: World, p: Plan, now: int, ok: bool, e: Surroundings)
    requires p.jobName in w.jobs
    ensures var w1 := Finishing(w, p, now, ok, e).0; w1.leases == w.leases && w1.log == w.log
  {
  }

  lemma LaunchLeases(w: World, p: Plan, now: int, holder: string, e: Surroundings)
    requires p.jobName !in w.jobs
    ensures LeaseEffect(w, Launch(w, p, now, holder, e).0, p, now)
  {
    var w2 := Launch(w, p, now, holder, e).0;
    if e.pods.None? || Wrap32(|Candidates(e.pods.value)|) < p.refuseIfPodsLessThan
       || Select(Candidates(e.pods.value), p.count, p.percent, p.cap) == [] {
      NoLeaseEffect(w, w2, p, now);
    } else {
      var selected := Select(Candidates(e.pods.value), p.count, p.percent, p.cap);
      var w1 := if e.planned == Refused then w
                else w.WithTicks(RecordPlanned(w.fi.status.ticks, PlanKey(p), p.jobName, selected, now));
      LaunchSelectedLeases(w1, p, selected, now, holder, e);
      SameLeaseEffect(w, w1, w2, p, now);
    }
  }

  lemma LaunchSelectedLeases(w: World, p: Plan, selected: seq<string>, now: int, holder: string, e: Surroundings)
    requires p.jobName !in w.jobs
    ensures LeaseEffect(w, LaunchSelected(w, p, selected, now, holder, e).0, p, now)
  {
    if e.lease == Refused { NoLeaseEffect(w, LaunchSelected(w, p, selected, now, holder, e).0, p, now); }
  }

  /** A plan whose turn counts as over is not launched again: its tick has no Job yet, or
      its Lease is taken, or its outcome is on record. */
  ghost predicate NotAgain(w: World, p: Plan, now: int, over: iset<TickKey>) {
    PlanKey(p) in over && Logged(w.log, PlanKey(p)) ==> Barred(w, p, now) || IsDone(w, PlanKey(p))
  }

  lemma StepKeepsNotAgain(w: World, w1: World, p: Plan, q: Plan, now: int, over: iset<TickKey>)
    requires StepEffect(w, w1, p) && LeaseEffect(w, w1, p, now) && PlanKey(q) != PlanKey(p) && NotAgain(w, q, now, over)
    ensures NotAgain(w1, q, now, over)
  {
    if Logged(w1.log, PlanKey(q)) {
      var i :| 0 <= i < |w1.log| && CreationKey(w1.log[i]) == PlanKey(q);
      assert i < |w.log| && w1.log[i] == w.log[i] by { if w1.log != w.log { assert forall j :: 0 <= j < |w.log| ==> w1.log[..|w.log|][j] == w1.log[j]; } }
      assert Logged(w.log, PlanKey(q));
      if Barred(w, q, now) { assert Lookup(w1.leases, q.leaseName) == Lookup(w.leases, q.leaseName); }
    }
  }

  /** A pass keeps at-most-once where plans that share a Job are shielded: each Job-sharing
      tick counts as over, and its Lease keeps it from a second launch. */
  lemma {:induction false} PassKeepsOnceShielded(w: World, snapshot: seq<Tick>, plans: seq<Plan>, now: int, holder: string, es: seq<Surroundings>, pending: bool, name: TickKey -> string, over: iset<TickKey>)
    requires |es| == |plans| && TicksApart(plans) && ClashesOver(plans, over) && NamedBy(plans, name)
    requires Once(w, name, over) && Undisputed(w, plans, name, over) && UpToDate(w, snapshot, plans)
    requires forall p :: p in plans ==> NotAgain(w, p, now, over)
    ensures Once(Pass(w, snapshot, plans, now, holder, es, pending).0, name, over)
    decreases plans
  {
    if plans != [] {
      var p, rest := plans[0], plans[1..];
      var (w1, v) := PlanStep(w, snapshot, p, now, holder, es[0]);
      assert p in plans && forall q :: q in rest ==> q in plans;
      StepHasEffect(w, snapshot, p, now, holder, es[0]);
      StepLeases(w, snapshot, p, now, holder, es[0]);
      assert NotAgain(w, p, now, over);
      StepKeepsOnce(w, w1, snapshot, p, name, over);
      StepKeepsUndisputed(w, w1, plans, name, over);
      ApartRest(plans);
      if v.Continue? {
        forall q | q in rest ensures NotAgain(w1, q, now, over) { StepKeepsNotAgain(w, w1, p, q, now, over); }
        PassKeepsOnceShielded(w1, snapshot, rest, now, holder, es[1..], pending || v.pending, name, over);
      }
    }
  }

  /** A pass whose plans have Jobs of their own keeps at-most-once, whatever Jobs, Leases
      and failures it meets. */
  lemma PassKeepsOnce(w: World, snapshot: seq<Tick>, plans: seq<Plan>, now: int, holder: string, es: seq<Surroundings>, pending: bool, name: TickKey -> string, over: iset<TickKey>)
    requires |es| == |plans| && PlansApart(plans) && NamedBy(plans, name) && (forall p :: p in plans ==> PlanKey(p) !in over)
    requires Once(w, name, over) && Undisputed(w, plans, name, over) && UpToDate(w, snapshot, plans)
    ensures Once(Pass(w, snapshot, plans, now, holder, es, pending).0, name, over)
  {
    ApartTicks(plans, name);
    forall p, q | p in plans && q in plans && p.jobName == q.jobName ensures p == q { SameJobSamePlan(plans, p, q); }
    PassKeepsOnceShielded(w, snapshot, plans, now, holder, es, pending, name, over);
  }

  lemma SameJobSamePlan(plans: seq<Plan>, p: Plan, q: Plan)
    requires PlansApart(plans) && p in plans && q in plans
    ensures p.jobName == q.jobName ==> p == q
  {
    var i :| 0 <= i < |plans| && plans[i] == p;
    var j :| 0 <= j < |plans| && plans[j] == q;
  }

  ghost predicate LogWithin(log: seq<Creation>, keys: iset<TickKey>) {
    forall i :: 0 <= i < |log| ==> CreationKey(log[i]) in keys
  }

  lemma LogGrowsWithin(w: World, w1: World, p: Plan, keys: iset<TickKey>)
    requires LogWithin(w.log, keys) && PlanKey(p) in keys && (w1.log == w.log || Logs(w, w1, p))
    ensures LogWithin(w1.log, keys)
  {
    if w1.log != w.log { assert forall i :: 0 <= i < |w.log| ==> w1.log[..|w.log|][i] == w1.log[i]; }
  }

  /** A pass creates Jobs for its own plans only. */
  lemma {:induction false} PassLogsItsOwn(w: World, snapshot: seq<Tick>, plans: seq<Plan>, now: int, holder: string, es: seq<Surroundings>, pending: bool, keys: iset<TickKey>)
    requires |es| == |plans| && LogWithin(w.log, keys) && forall p :: p in plans ==> PlanKey(p) in keys
    ensures LogWithin(Pass(w, snapshot, plans, now, holder, es, pending).0.log, keys)
    decreases plans
  {
    if plans != [] {
      var p := plans[0];
      var (w1, v) := PlanStep(w, snapshot, p, now, holder, es[0]);
      StepHasEffect(w, snapshot, p, now, holder, es[0]);
      assert p in plans;
      LogGrowsWithin(w, w1, p, keys);
      if v.Continue? { PassLogsItsOwn(w1, snapshot, plans[1..], now, holder, es[1..], pending || v.pending, keys); }
    }
  }

  // ---------------------------------------------------------------- terminal ticks stay

  /** A terminal entry is final: no pass changes its state, pods or time. */
  lemma {:induction false} PassKeepsDone(w: World, snapshot: seq<Tick>, plans: seq<Plan>, now: int, holder: string, es: seq<Surroundings>, pending: bool, k: TickKey)
    requires |es| == |plans| && TicksApart(plans) && UpToDate(w, snapshot, plans) && IsDone(w, k)
    ensures TickOf(Pass(w, snapshot, plans, now, holder, es, pending).0.fi.status.ticks, k) == TickOf(w.fi.status.ticks, k)
    decreases plans
  {
    if plans != [] {
      var p, rest := plans[0], plans[1..];
      assert p in plans;
      var (w1, v) := PlanStep(w, snapshot, p, now, holder, es[0]);
      StepHasEffect(w, snapshot, p, now, holder, es[0]);
      ApartRest(plans);
      if v.Continue? { PassKeepsDone(w1, snapshot, rest, now, holder, es[1..], pending || v.pending, k); }
    }
  }

  // ---------------------------------------------------------------- the status is a true record

  /** The experiment's Job named `n` is on record: the entry of its tick lists exactly its
      pods. */
  ghost predicate OnRecord(w: World, n: string, name: TickKey -> string)
    requires n in w.jobs
  {
    var j := w.jobs[n];
    var k := (j.action, j.tick);
    && name(k) == n && j.pods != []
    && TickOf(w.fi.status.ticks, k).Some? && TickOf(w.fi.status.ticks, k).value.plannedPods == j.pods
  }

  ghost predicate Audited(w: World, name: TickKey -> string) {
    && UniqueKeys(w.fi.status.ticks)
    && (forall k :: TickOf(w.fi.status.ticks, k).Some? && TickOf(w.fi.status.ticks, k).value.executedAt.Some? ==> IsDone(w, k))
    && (forall n :: Held(w, n) ==> OnRecord(w, n, name))
  }

  /** Nothing on record changes where the ticks stay and no Job of the experiment is new. */
  lemma SameAudited(w: World, w1: World, name: TickKey -> string)
    requires Audited(w, name) && w1.fi.status.ticks == w.fi.status.ticks
    requires forall n :: Held(w1, n) ==> Held(w, n) && SameJob(w.jobs, w1.jobs, n)
    ensures Audited(w1, name)
  {
    assert forall k :: IsDone(w1, k) <==> IsDone(w, k);
    forall n | Held(w1, n) ensures OnRecord(w1, n, name) { assert OnRecord(w, n, name); }
  }

  lemma SettleKeepsAudited(w: World, fs: seq<Finish>, name: TickKey -> string)
    requires Audited(w, name)
    ensures Audited(w.(jobs := FinishJobs(w.jobs, fs)), name)
  {
    FinishJobsKeys(w.jobs, fs);
    var w1 := w.(jobs := FinishJobs(w.jobs, fs));
    forall n | Held(w1, n) ensures Held(w, n) && SameJob(w.jobs, w1.jobs, n) {
      assert SameJob(w.jobs, FinishJobs(w.jobs, fs), n);
    }
    SameAudited(w, w1, name);
  }

  lemma ExecutedKeepsAudited(w: World, p: Plan, now: int, ok: bool, name: TickKey -> string)
    requires Audited(w, name)
    ensures Audited(w.WithTicks(RecordExecuted(w.fi.status.ticks, PlanKey(p), p.jobName, [], now, ok)), name)
  {
    var k := PlanKey(p);
    var t1 := RecordExecuted(w.fi.status.ticks, k, p.jobName, [], now, ok);
    RecordExecutedSound(w.fi.status.ticks, k, p.jobName, now, ok);
    var w1 := w.WithTicks(t1);
    assert w1.fi.status.ticks == t1;
    forall n | Held(w1, n) ensures OnRecord(w1, n, name) {
      assert Held(w, n) && OnRecord(w, n, name);
    }
    forall l | TickOf(t1, l).Some? && TickOf(t1, l).value.executedAt.Some? ensures IsDone(w1, l) {
      if l != k { assert IsDone(w, l); }
    }
  }

  lemma FinishingKeepsAudited(w: World, p: Plan, now: int, ok: bool, e: Surroundings, name: TickKey -> string)
    requires Audited(w, name) && p.jobName in w.jobs
    ensures Audited(Finishing(w, p, now, ok, e).0, name)
  {
    if e.executed != Refused {
      var w1 := w.WithTicks(RecordExecuted(w.fi.status.ticks, PlanKey(p), p.jobName, [], now, ok));
      ExecutedKeepsAudited(w, p, now, ok, name);
      SameAudited(w1, w1.(jobs := w1.jobs - {p.jobName}), name);
    }
  }

  lemma PhaseKeepsAudited(w: World, phase: Phase, name: TickKey -> string)
    requires Audited(w, name)
    ensures Audited(w.WithPhase(phase), name)
  {
    SameAudited(w, w.WithPhase(phase), name);
  }

  lemma PlannedKeepsAudited(w: World, p: Plan, selected: seq<string>, now: int, name: TickKey -> string)
    requires Audited(w, name) && p.jobName == name(PlanKey(p)) && p.jobName !in w.jobs && !IsDone(w, PlanKey(p))
    ensures var w1 := w.WithTicks(RecordPlanned(w.fi.status.ticks, PlanKey(p), p.jobName, selected, now));
      && Audited(w1, name)
      && TickOf(w1.fi.status.ticks, PlanKey(p)).Some? && TickOf(w1.fi.status.ticks, PlanKey(p)).value.plannedPods == selected
  {
    var k := PlanKey(p);
    var t, t1 := w.fi.status.ticks, RecordPlanned(w.fi.status.ticks, k, p.jobName, selected, now);
    RecordPlannedSound(t, k, p.jobName, selected, now);
    var w1 := w.WithTicks(t1);
    assert w1.fi.status.ticks == t1;
    forall n | Held(w1, n) ensures OnRecord(w1, n, name) {
      assert Held(w, n) && OnRecord(w, n, name);
    }
    forall l | TickOf(t1, l).Some? && TickOf(t1, l).value.executedAt.Some? ensures IsDone(w1, l) {
      if l != k { assert IsDone(w, l); }
    }
  }

  lemma LaunchedKeepsAudited(w: World, p: Plan, selected: seq<string>, now: int, holder: string, e: Surroundings, name: TickKey -> string)
    requires Audited(w, name) && p.jobName == name(PlanKey(p)) && p.jobName !in w.jobs && selected != []
    requires TickOf(w.fi.status.ticks, PlanKey(p)).Some? && TickOf(w.fi.status.ticks, PlanKey(p)).value.plannedPods == selected
    ensures Audited(LaunchSelected(w, p, selected, now, holder, e).0, name)
  {
    LeaseAndJobEffect(w, p, selected, now, holder, e);
    var w1 := LaunchSelected(w, p, selected, now, holder, e).0;
    assert forall k :: IsDone(w1, k) <==> IsDone(w, k);
    forall n | Held(w1, n) ensures OnRecord(w1, n, name) {
      if n != p.jobName { assert Held(w, n) && OnRecord(w, n, name); }
    }
  }

  lemma LaunchKeepsAudited(w: World, p: Plan, now: int, holder: string, e: Surroundings, name: TickKey -> string)
    requires Audited(w, name) && p.jobName == name(PlanKey(p)) && p.jobName !in w.jobs
    requires !IsDone(w, PlanKey(p)) && e.planned != Refused
    ensures Audited(Launch(w, p, now, holder, e).0, name)
  {
    PhaseKeepsAudited(w, Error, name);
    if e.pods.Some? {
      var selected := Select(Candidates(e.pods.value), p.count, p.percent, p.cap);
      if Wrap32(|Candidates(e.pods.value)|) >= p.refuseIfPodsLessThan && selected != [] {
        PlannedKeepsAudited(w, p, selected, now, name);
        LaunchedKeepsAudited(w.WithTicks(RecordPlanned(w.fi.status.ticks, PlanKey(p), p.jobName, selected, now)),
                             p, selected, now, holder, e, name);
      }
    }
  }

  lemma ObserveKeepsAudited(w: World, p: Plan, now: int, e: Surroundings, name: TickKey -> string)
    requires Audited(w, name) && p.jobName in w.jobs
    ensures Audited(Observe(w, p, now, e).0, name)
  {
    FinishingKeepsAudited(w, p, now, true, e, name);
    FinishingKeepsAudited(w, p, now, false, e, name);
    PhaseKeepsAudited(Finishing(w, p, now, false, e).0, Error, name);
  }

  lemma StepKeepsAudited(w: World, snapshot: seq<Tick>, p: Plan, now: int, holder: string, e: Surroundings, name: TickKey -> string)
    requires Audited(w, name) && p.jobName == name(PlanKey(p)) && UpToDate(w, snapshot, [p]) && e.planned != Refused
    ensures Audited(PlanStep(w, snapshot, p, now, holder, e).0, name)
  {
    SettleKeepsAudited(w, e.finished, name);
    var w0 := w.(jobs := FinishJobs(w.jobs, e.finished));
    if !Skipped(snapshot, p) && e.getJobOk {
      if p.jobName in w0.jobs {
        ObserveKeepsAudited(w0, p, now, e, name);
      } else {
        assert p in [p];
        LaunchKeepsAudited(w0, p, now, holder, e, name);
      }
    }
  }

  /** The audit invariant, over a pass whose Planned writes take effect: keys stay unique,
      and whenever the experiment has a Job the entry of its tick lists exactly its pods. */
  lemma {:induction false} PassKeepsAudited(w: World, snapshot: seq<Tick>, plans: seq<Plan>, now: int, holder: string, es: seq<Surroundings>, pending: bool, name: TickKey -> string)
    requires |es| == |plans| && TicksApart(plans) && NamedBy(plans, name)
    requires forall e :: e in es ==> e.planned != Refused
    requires Audited(w, name) && UpToDate(w, snapshot, plans)
    ensures Audited(Pass(w, snapshot, plans, now, holder, es, pending).0, name)
    decreases plans
  {
    if plans != [] {
      var p, rest := plans[0], plans[1..];
      assert p in plans && es[0] in es && forall e :: e in es[1..] ==> e in es;
      var (w1, v) := PlanStep(w, snapshot, p, now, holder, es[0]);
      StepHasEffect(w, snapshot, p, now, holder, es[0]);
      StepKeepsAudited(w, snapshot, p, now, holder, es[0], name);
      ApartRest(plans);
      if v.Continue? { PassKeepsAudited(w1, snapshot, rest, now, holder, es[1..], pending || v.pending, name); }
    }
  }

  /** The write that may be lost: the controller ignores a failed Planned write and
      creates the Job all the same. The new Job is on record exactly when the write took
      effect, or the entry happened to list the same pods already. */
  lemma RecordOfLaunch(w: World, p: Plan, now: int, holder: string, e: Surroundings)
    requires p.jobName !in w.jobs && p.jobName in Launch(w, p, now, holder, e).0.jobs
    requires !Finished(EntryFor(w.fi.status.ticks, PlanKey(p)))
    ensures var w1 := Launch(w, p, now, holder, e).0;
      var pods := w1.jobs[p.jobName].pods;
      (EntryFor(w1.fi.status.ticks, PlanKey(p)).plannedPods == pods)
        == (e.planned != Refused || EntryFor(w.fi.status.ticks, PlanKey(p)).plannedPods == pods)
  {
    var selected := Select(Candidates(e.pods.value), p.count, p.percent, p.cap);
    RecordPlannedSound(w.fi.status.ticks, PlanKey(p), p.jobName, selected, now);
    var w0 := if e.planned == Refused then w
              else w.WithTicks(RecordPlanned(w.fi.status.ticks, PlanKey(p), p.jobName, selected, now));
    LeaseAndJobEffect(w0, p, selected, now, holder, e);
  }

  // ---------------------------------------------------------------- blast bound

  /** A Job for a tick of an action's window. */
  predicate OfWindow(c: Creation, action: string) {
    c.action == action && c.tick != ONESHOT
  }

  /** Pods named by all Jobs of an action's window. */
  function PodsNamed(log: seq<Creation>, action: string): nat {
    if log == [] then 0
    else PodsNamed(log[..|log| - 1], action) + if OfWindow(log[|log| - 1], action) then |log[|log| - 1].pods| else 0
  }

  function TicksRun(log: seq<Creation>, action: string): set<string> {
    set c | c in log && OfWindow(c, action) :: c.tick
  }

  ghost predicate TickBelow(t: string, bound: nat) {
    exists n: nat :: n < bound && t == Helpers.Decimal(n)
  }

  /** Creations of the window lie within ticks 0..bound-1, with at most `most` pods each. */
  ghost predicate Bounded(log: seq<Creation>, action: string, bound: nat, most: nat) {
    forall c :: c in log && OfWindow(c, action) ==> |c.pods| <= most && TickBelow(c.tick, bound)
  }

  lemma NewTick(log: seq<Creation>, c: Creation)
    requires CreatedOnce(log + [c])
    ensures CreatedOnce(log) && c.tick !in TicksRun(log, c.action)
  {
    forall i, j | 0 <= i < j < |log| ensures CreationKey(log[i]) != CreationKey(log[j]) {
      assert (log + [c])[i] == log[i] && (log + [c])[j] == log[j];
    }
    forall d | d in log && d.action == c.action ensures d.tick != c.tick {
      var i :| 0 <= i < |log| && log[i] == d;
      assert CreationKey((log + [c])[i]) != CreationKey((log + [c])[|log|]);
    }
  }

  lemma PodsNamedMore(front: seq<Creation>, c: Creation, action: string)
    ensures PodsNamed(front + [c], action) == PodsNamed(front, action) + if OfWindow(c, action) then |c.pods| else 0
  {
    assert (front + [c])[..|front|] == front;
  }

  lemma TicksRunMore(front: seq<Creation>, c: Creation, action: string)
    requires c.tick !in TicksRun(front, c.action)
    ensures |TicksRun(front + [c], action)| == |TicksRun(front, action)| + if OfWindow(c, action) then 1 else 0
  {
    if OfWindow(c, action) {
      assert TicksRun(front + [c], action) == TicksRun(front, action) + {c.tick};
    } else {
      assert TicksRun(front + [c], action) == TicksRun(front, action);
    }
  }

  lemma OneMoreTick(named: nat, ticks: nat, pods: nat, most: nat)
    requires named <= ticks * most && pods <= most
    ensures named + pods <= (ticks + 1) * most
  {
  }

  lemma {:induction false} PodsPerTick(log: seq<Creation>, action: string, most: nat)
    requires CreatedOnce(log)
    requires forall c :: c in log && OfWindow(c, action) ==> |c.pods| <= most
    ensures PodsNamed(log, action) <= |TicksRun(log, action)| * most
  {
    if log != [] {
      var front, c := log[..|log| - 1], log[|log| - 1];
      assert log == front + [c];
      NewTick(front, c);
      PodsPerTick(front, action, most);
      PodsNamedMore(front, c, action);
      TicksRunMore(front, c, action);
      if OfWindow(c, action) {
        OneMoreTick(PodsNamed(front, action), |TicksRun(front, action)|, |c.pods|, most);
      }
    }
  }

  lemma {:induction false} FewDecimals(s: set<string>, bound: nat)
    requires forall t :: t in s ==> TickBelow(t, bound)
    ensures |s| <= bound
  {
    if bound == 0 {
      assert forall t :: t !in s;
      assert s == {};
    } else {
      var top := {Helpers.Decimal(bound - 1)};
      forall t | t in s - top ensures TickBelow(t, bound - 1) {
        var n: nat :| n < bound && t == Helpers.Decimal(n);
      }
      FewDecimals(s - top, bound - 1);
      assert |s - top + top| == |s - top| + 1;
      SubsetSize(s, s - top + top);
    }
  }

  lemma {:induction false} SubsetSize(a: set<string>, b: set<string>)
    requires a <= b
    ensures |a| <= |b|
  {
    if a != {} {
      var x :| x in a;
      SubsetSize(a - {x}, b - {x});
    }
  }

  /** A listed action that is WINDOWED and has a window to follow. */
  ghost predicate ProperWindowed(a: PodAction, spec: Spec) {
    a in spec.podFaults && IsWindowed(a) && a.window.Some? && a.window.value.intervalSeconds >= 1
  }

  function CapOf(a: PodAction, spec: Spec): int32 {
    EffectiveCap(spec.maxPodsAffected, a.selection, WindowCap(a, ResolveMode(a)))
  }

  /** The most pods one tick of the action can name when at most `size` are listed. */
  function PerTick(a: PodAction, spec: Spec, size: nat): nat {
    Quota(size, a.selection.count, a.selection.percent, CapOf(a, spec))
  }

  /** The ticks that begin within the experiment's duration. */
  function TickBudget(a: PodAction, spec: Spec): nat
    requires a.window.Some? && a.window.value.intervalSeconds >= 1 && spec.durationSeconds >= 0
  {
    spec.durationSeconds / a.window.value.intervalSeconds + 1
  }

  ghost predicate PlanWithin(p: Plan, action: string, bound: nat, most: nat, size: nat) {
    p.action == action && p.tick != ONESHOT ==> Quota(size, p.count, p.percent, p.cap) <= most && TickBelow(p.tick, bound)
  }

  ghost predicate ListsAtMost(e: Surroundings, size: nat) {
    e.pods.Some? ==> |e.pods.value| <= size
  }

  lemma {:induction false} FewerLive(pods: seq<Pod>)
    ensures |Live(pods)| <= |pods|
  {
    if pods != [] { FewerLive(pods[1..]); }
  }

  lemma SelectedWithin(pods: seq<Pod>, p: Plan, size: nat)
    requires |pods| <= size
    ensures |Select(Candidates(pods), p.count, p.percent, p.cap)| <= Quota(size, p.count, p.percent, p.cap)
  {
    FewerLive(pods);
    Ordering.StableSortSound(Live(pods), PodName);
    Ordering.SameLength(Live(pods), Candidates(pods));
    QuotaMonotone(|Candidates(pods)|, size, p.count, p.percent, p.cap);
  }

  ghost predicate NamesWithin(log: seq<Creation>, log1: seq<Creation>, p: Plan, most: nat) {
    log1 == log || exists pods :: |pods| <= most && log1 == log + [Creation(p.action, p.tick, pods)]
  }

  /** A new Job names no more pods than its plan allows. */
  lemma StepNames(w: World, snapshot: seq<Tick>, p: Plan, now: int, holder: string, e: Surroundings, size: nat)
    requires ListsAtMost(e, size)
    ensures NamesWithin(w.log, PlanStep(w, snapshot, p, now, holder, e).0.log, p, Quota(size, p.count, p.percent, p.cap))
  {
    var w0 := w.(jobs := FinishJobs(w.jobs, e.finished));
    if !Skipped(snapshot, p) && e.getJobOk {
      if p.jobName in w0.jobs {
        ObserveLeases(w0, p, now, e);
      } else if e.pods.Some? {
        LaunchNamesWithin(w0, p, now, holder, e, size);
      }
    }
  }

  lemma LaunchNamesWithin(w: World, p: Plan, now: int, holder: string, e: Surroundings, size: nat)
    requires p.jobName !in w.jobs && e.pods.Some? && |e.pods.value| <= size
    ensures NamesWithin(w.log, Launch(w, p, now, holder, e).0.log, p, Quota(size, p.count, p.percent, p.cap))
  {
    SelectedWithin(e.pods.value, p, size);
    LaunchNames(w, p, now, holder, e);
  }

  lemma LaunchNames(w: World, p: Plan, now: int, holder: string, e: Surroundings)
    requires p.jobName !in w.jobs && e.pods.Some?
    ensures var w1 := Launch(w, p, now, holder, e).0;
      w1.log == w.log || w1.log == w.log + [Creation(p.action, p.tick, Select(Candidates(e.pods.value), p.count, p.percent, p.cap))]
  {
    var selected := Select(Candidates(e.pods.value), p.count, p.percent, p.cap);
    var w1 := if e.planned == Refused then w
              else w.WithTicks(RecordPlanned(w.fi.status.ticks, PlanKey(p), p.jobName, selected, now));
    assert w1.log == w.log && w1.jobs == w.jobs;
    LeaseAndJobEffect(w1, p, selected, now, holder, e);
  }

  lemma {:induction false} PassKeepsBounded(w: World, snapshot: seq<Tick>, plans: seq<Plan>, now: int, holder: string, es: seq<Surroundings>, pending: bool, action: string, bound: nat, most: nat, size: nat)
    requires |es| == |plans| && Bounded(w.log, action, bound, most)
    requires forall p :: p in plans ==> PlanWithin(p, action, bound, most, size)
    requires forall e :: e in es ==> ListsAtMost(e, size)
    ensures Bounded(Pass(w, snapshot, plans, now, holder, es, pending).0.log, action, bound, most)
    decreases plans
  {
    if plans != [] {
      var p, rest := plans[0], plans[1..];
      assert p in plans && es[0] in es && (forall q :: q in rest ==> q in plans) && forall e :: e in es[1..] ==> e in es;
      var (w1, v) := PlanStep(w, snapshot, p, now, holder, es[0]);
      StepNames(w, snapshot, p, now, holder, es[0], size);
      if v.Continue? { PassKeepsBounded(w1, snapshot, rest, now, holder, es[1..], pending || v.pending, action, bound, most, size); }
    }
  }

  lemma BoundedTotal(log: seq<Creation>, action: string, bound: nat, most: nat)
    requires CreatedOnce(log)
    requires Bounded(log, action, bound, most)
    ensures PodsNamed(log, action) <= bound * most
  {
    PodsPerTick(log, action, most);
    FewDecimals(TicksRun(log, action), bound);
    Scale(|TicksRun(log, action)|, bound, most);
  }

  lemma Scale(m: nat, n: nat, c: nat)
    requires m <= n
    ensures m * c <= n * c
  {
  }
}
