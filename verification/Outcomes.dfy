/** The outcomes on record are true: over passes and whole runs, a tick is booked Succeeded
    exactly off a Job that was complete, and Failed off one that had failed. */
module Outcomes {
  import opened Wrappers
  import opened Machine
  import Helpers
  import opened Names
  import opened Api
  import opened PodSelection
  import opened Cluster
  import opened Ticks
  import opened Protocol
  import opened Execution
  import opened Apart
  import Cleanup
  import Mesh
  import Validation
  import opened Reconciler
  import opened Lifetime
  import Experiment

  // ---------------------------------------------------------------- one step

  /** The Jobs as the step finds them. */
  function JobsSeen(w: World, e: Surroundings): map<string, Job> {
    FinishJobs(w.jobs, e.finished)
  }

  /** The step gets to look for the plan's Job, and finds this one. */
  predicate Sees(w: World, snapshot: seq<Tick>, p: Plan, e: Surroundings, job: Job) {
    !Skipped(snapshot, p) && e.getJobOk && p.jobName in JobsSeen(w, e) && JobsSeen(w, e)[p.jobName] == job
  }

  /** The entry says what became of the Job, its name, and when that was seen. */
  predicate Tells(entry: Tick, p: Plan, job: Job, now: int) {
    && (entry.state == Succeeded <==> job.complete)
    && (entry.state == Failed <==> job.failed && !job.complete)
    && entry.jobName == p.jobName && entry.executedAt == Some(StoredTime(now))
  }

  /** The step sees the plan's Job finished, and its write is not refused. */
  predicate Books(w: World, snapshot: seq<Tick>, p: Plan, e: Surroundings, job: Job) {
    Sees(w, snapshot, p, e, job) && (job.complete || job.failed) && e.executed != Refused
  }

  /** One step books the tick's outcome exactly when it sees the Job finished; otherwise
      the entry stays or becomes a Planned one. */
  lemma StepBooks(w: World, snapshot: seq<Tick>, p: Plan, now: int, holder: string, e: Surroundings)
    ensures var entry := TickOf(PlanStep(w, snapshot, p, now, holder, e).0.fi.status.ticks, PlanKey(p));
      var before := TickOf(w.fi.status.ticks, PlanKey(p));
      if p.jobName in JobsSeen(w, e) && Books(w, snapshot, p, e, JobsSeen(w, e)[p.jobName])
      then entry.Some? && Tells(entry.value, p, JobsSeen(w, e)[p.jobName], now)
           && entry.value.plannedPods == (if before.Some? then before.value.plannedPods else [])
      else entry == before || (entry.Some? && entry.value.state == Planned && !Finished(EntryFor(w.fi.status.ticks, PlanKey(p))))
  {
    var w0 := w.(jobs := FinishJobs(w.jobs, e.finished));
    if !Skipped(snapshot, p) && e.getJobOk {
      if p.jobName in w0.jobs { ObserveBooks(w0, p, now, e); } else { LaunchBooksNothing(w0, p, now, holder, e); }
    }
  }

  lemma ExecutedTells(ticks: seq<Tick>, p: Plan, now: int, ok: bool, job: Job)
    requires job.complete || job.failed
    ensures var entry := TickOf(RecordExecuted(ticks, PlanKey(p), p.jobName, [], now, ok), PlanKey(p));
      && entry.Some? && entry.value.plannedPods == EntryFor(ticks, PlanKey(p)).plannedPods
      && (ok == job.complete ==> Tells(entry.value, p, job, now))
  {
    var e := EntryFor(ticks, PlanKey(p));
    PutTickSound(ticks, e.(jobName := p.jobName, executedAt := Some(StoredTime(now)), state := if ok then Succeeded else Failed));
  }

  lemma ObserveBooks(w: World, p: Plan, now: int, e: Surroundings)
    requires p.jobName in w.jobs
    ensures var entry := TickOf(Observe(w, p, now, e).0.fi.status.ticks, PlanKey(p));
      var job := w.jobs[p.jobName];
      if (job.complete || job.failed) && e.executed != Refused
      then entry.Some? && Tells(entry.value, p, job, now) && entry.value.plannedPods == EntryFor(w.fi.status.ticks, PlanKey(p)).plannedPods
      else entry == TickOf(w.fi.status.ticks, PlanKey(p))
  {
    var job := w.jobs[p.jobName];
    if job.complete || job.failed { ExecutedTells(w.fi.status.ticks, p, now, job.complete, job); }
  }

  lemma LaunchBooksNothing(w: World, p: Plan, now: int, holder: string, e: Surroundings)
    requires p.jobName !in w.jobs
    ensures var entry := TickOf(Launch(w, p, now, holder, e).0.fi.status.ticks, PlanKey(p));
      entry == TickOf(w.fi.status.ticks, PlanKey(p))
      || (entry.Some? && entry.value.state == Planned && !Finished(EntryFor(w.fi.status.ticks, PlanKey(p))))
  {
    if e.pods.Some? {
      var selected := Select(Candidates(e.pods.value), p.count, p.percent, p.cap);
      PlannedBooksNothing(w, p, selected, now, holder, e);
    }
  }

  lemma PlannedBooksNothing(w: World, p: Plan, selected: seq<string>, now: int, holder: string, e: Surroundings)
    requires p.jobName !in w.jobs
    ensures var t1 := if e.planned == Refused then w.fi.status.ticks
                      else RecordPlanned(w.fi.status.ticks, PlanKey(p), p.jobName, selected, now);
      var w1 := if e.planned == Refused then w else w.WithTicks(t1);
      && LaunchSelected(w1, p, selected, now, holder, e).0.fi == w1.fi && w1.fi.status.ticks == t1
      && (TickOf(t1, PlanKey(p)) == TickOf(w.fi.status.ticks, PlanKey(p))
          || (TickOf(t1, PlanKey(p)).Some? && TickOf(t1, PlanKey(p)).value.state == Planned && !Finished(EntryFor(w.fi.status.ticks, PlanKey(p)))))
  {
    RecordPlannedSound(w.fi.status.ticks, PlanKey(p), p.jobName, selected, now);
    var w1 := if e.planned == Refused then w
              else w.WithTicks(RecordPlanned(w.fi.status.ticks, PlanKey(p), p.jobName, selected, now));
    LeaseAndJobEffect(w1, p, selected, now, holder, e);
  }

  /** Before anything else, the intent is on record. Where a plan without a Job selects pods,
      and the write takes effect and the tick has no outcome, the entry says which pods,
      under which name and when, whatever then becomes of Lease and Job; and a Job that is
      created names just those pods. */
  lemma IntentFirst(w: World, snapshot: seq<Tick>, p: Plan, now: int, holder: string, e: Surroundings)
    requires !Skipped(snapshot, p) && e.getJobOk && p.jobName !in JobsSeen(w, e) && e.pods.Some? && e.planned != Refused
    requires Wrap32(|Candidates(e.pods.value)|) >= p.refuseIfPodsLessThan && Select(Candidates(e.pods.value), p.count, p.percent, p.cap) != []
    requires !Finished(EntryFor(w.fi.status.ticks, PlanKey(p)))
    ensures var w1 := PlanStep(w, snapshot, p, now, holder, e).0;
      var selected := Select(Candidates(e.pods.value), p.count, p.percent, p.cap);
      && Intends(TickOf(w1.fi.status.ticks, PlanKey(p)), p, selected, now)
      && (w1.log != w.log ==> p.jobName in w1.jobs && w1.jobs[p.jobName].pods == selected)
  {
    LaunchIntends(w.(jobs := FinishJobs(w.jobs, e.finished)), p, now, holder, e);
  }

  /** The entry states the intent to run these pods. */
  predicate Intends(entry: Option<Tick>, p: Plan, pods: seq<string>, now: int) {
    && entry.Some? && entry.value.state == Planned && entry.value.executedAt.None? && entry.value.jobName == p.jobName
    && entry.value.plannedAt == Some(StoredTime(now)) && entry.value.plannedPods == pods
  }

  lemma PlannedIntends(ticks: seq<Tick>, p: Plan, pods: seq<string>, now: int)
    requires !Finished(EntryFor(ticks, PlanKey(p)))
    ensures Intends(TickOf(RecordPlanned(ticks, PlanKey(p), p.jobName, pods, now), PlanKey(p)), p, pods, now)
  {
    PutTickSound(ticks, EntryFor(ticks, PlanKey(p)).(plannedAt := Some(StoredTime(now)), plannedPods := pods, jobName := p.jobName, state := Planned));
  }

  lemma LaunchIntends(w: World, p: Plan, now: int, holder: string, e: Surroundings)
    requires p.jobName !in w.jobs && e.pods.Some? && e.planned != Refused
    requires Wrap32(|Candidates(e.pods.value)|) >= p.refuseIfPodsLessThan && Select(Candidates(e.pods.value), p.count, p.percent, p.cap) != []
    requires !Finished(EntryFor(w.fi.status.ticks, PlanKey(p)))
    ensures var w1 := Launch(w, p, now, holder, e).0;
      var selected := Select(Candidates(e.pods.value), p.count, p.percent, p.cap);
      && Intends(TickOf(w1.fi.status.ticks, PlanKey(p)), p, selected, now)
      && (w1.log != w.log ==> p.jobName in w1.jobs && w1.jobs[p.jobName].pods == selected)
  {
    var selected := Select(Candidates(e.pods.value), p.count, p.percent, p.cap);
    var t1 := RecordPlanned(w.fi.status.ticks, PlanKey(p), p.jobName, selected, now);
    PlannedIntends(w.fi.status.ticks, p, selected, now);
    LeaseAndJobEffect(w.WithTicks(t1), p, selected, now, holder, e);
  }

  /** A ONE_SHOT action any entry of which is finished is left alone for good. */
  lemma OneShotOnce(w: World, snapshot: seq<Tick>, p: Plan, now: int, holder: string, e: Surroundings, entry: Tick)
    requires p.tick == ONESHOT && entry in snapshot && KeyOf(entry) == PlanKey(p) && (Terminal(entry.state) || entry.executedAt.Some?)
    ensures var w1 := PlanStep(w, snapshot, p, now, holder, e).0;
      w1 == w.(jobs := JobsSeen(w, e)) && PlanStep(w, snapshot, p, now, holder, e).1 == Continue(false)
  {
  }

  // ---------------------------------------------------------------- one pass

  /** The pass gets to plan j, which is for `k`, and books this entry off that Job. */
  ghost predicate BooksAt(w: World, snapshot: seq<Tick>, plans: seq<Plan>, now: int, holder: string, es: seq<Surroundings>, pending: bool, k: TickKey, entry: Tick, job: Job, j: nat)
    requires |es| == |plans| && j < |plans|
  {
    var (w1, v) := Pass(w, snapshot, plans[..j], now, holder, es[..j], pending);
    v.Continue? && PlanKey(plans[j]) == k && Books(w1, snapshot, plans[j], es[j], job) && Tells(entry, plans[j], job, now)
  }

  ghost predicate PassBooks(w: World, snapshot: seq<Tick>, plans: seq<Plan>, now: int, holder: string, es: seq<Surroundings>, pending: bool, k: TickKey, entry: Tick, job: Job)
    requires |es| == |plans|
  {
    exists j :: 0 <= j < |plans| && BooksAt(w, snapshot, plans, now, holder, es, pending, k, entry, job, j)
  }

  lemma BooksLater(w: World, snapshot: seq<Tick>, plans: seq<Plan>, now: int, holder: string, es: seq<Surroundings>, pending: bool, k: TickKey, entry: Tick, job: Job)
    requires |es| == |plans| && plans != []
    requires var (w1, v) := PlanStep(w, snapshot, plans[0], now, holder, es[0]);
      v.Continue? && PassBooks(w1, snapshot, plans[1..], now, holder, es[1..], pending || v.pending, k, entry, job)
    ensures PassBooks(w, snapshot, plans, now, holder, es, pending, k, entry, job)
  {
    var (w1, v) := PlanStep(w, snapshot, plans[0], now, holder, es[0]);
    var j :| 0 <= j < |plans[1..]| && BooksAt(w1, snapshot, plans[1..], now, holder, es[1..], pending || v.pending, k, entry, job, j);
    Experiment.PassHead(w, snapshot, plans, now, holder, es, pending, j + 1);
    assert BooksAt(w, snapshot, plans, now, holder, es, pending, k, entry, job, j + 1);
  }

  lemma BooksFirst(w: World, snapshot: seq<Tick>, plans: seq<Plan>, now: int, holder: string, es: seq<Surroundings>, pending: bool, k: TickKey, entry: Tick)
    requires |es| == |plans| && plans != [] && Terminal(entry.state)
    requires TickOf(PlanStep(w, snapshot, plans[0], now, holder, es[0]).0.fi.status.ticks, k) == Some(entry)
    requires TickOf(w.fi.status.ticks, k) != Some(entry)
    ensures exists job :: PassBooks(w, snapshot, plans, now, holder, es, pending, k, entry, job)
  {
    var p, e := plans[0], es[0];
    StepHasEffect(w, snapshot, p, now, holder, e);
    assert PlanKey(p) == k;
    StepBooks(w, snapshot, p, now, holder, e);
    var job := JobsSeen(w, e)[p.jobName];
    assert plans[..0] == [] && es[..0] == [];
    assert BooksAt(w, snapshot, plans, now, holder, es, pending, k, entry, job, 0);
    assert PassBooks(w, snapshot, plans, now, holder, es, pending, k, entry, job);
  }

  /** A terminal entry was there before the pass, or the pass booked it. */
  lemma {:induction false} PassBooksTruly(w: World, snapshot: seq<Tick>, plans: seq<Plan>, now: int, holder: string, es: seq<Surroundings>, pending: bool, k: TickKey, entry: Tick)
    requires |es| == |plans| && Terminal(entry.state)
    requires TickOf(Pass(w, snapshot, plans, now, holder, es, pending).0.fi.status.ticks, k) == Some(entry)
    ensures TickOf(w.fi.status.ticks, k) == Some(entry) || exists job :: PassBooks(w, snapshot, plans, now, holder, es, pending, k, entry, job)
    decreases plans
  {
    if plans != [] {
      var (w1, v) := PlanStep(w, snapshot, plans[0], now, holder, es[0]);
      if v.Continue? { PassBooksTruly(w1, snapshot, plans[1..], now, holder, es[1..], pending || v.pending, k, entry); }
      if TickOf(w1.fi.status.ticks, k) == Some(entry) {
        if TickOf(w.fi.status.ticks, k) != Some(entry) { BooksFirst(w, snapshot, plans, now, holder, es, pending, k, entry); }
      } else {
        var job :| PassBooks(w1, snapshot, plans[1..], now, holder, es[1..], pending || v.pending, k, entry, job);
        BooksLater(w, snapshot, plans, now, holder, es, pending, k, entry, job);
      }
    }
  }

  // ---------------------------------------------------------------- whose Job it is

  /** The experiment's own Jobs bear the names of the ticks they were created for. */
  ghost predicate Titled(w: World, name: TickKey -> string, keys: iset<TickKey>) {
    forall n :: Held(w, n) ==> JobKey(w.jobs[n]) in keys && name(JobKey(w.jobs[n])) == n
  }

  function JobKey(job: Job): TickKey { (job.action, job.tick) }

  /** What a step may do to Jobs: take the plan's away, or make it. */
  ghost predicate JobsMove(jobs: map<string, Job>, jobs1: map<string, Job>, fi: FaultInjection, p: Plan) {
    || jobs1 == jobs || jobs1 == jobs - {p.jobName}
    || exists pods :: jobs1 == jobs[p.jobName := Job(OwnerOf(fi), p.action, p.tick, pods, false, false)]
  }

  lemma StepJobs(w: World, snapshot: seq<Tick>, p: Plan, now: int, holder: string, e: Surroundings)
    ensures JobsMove(JobsSeen(w, e), PlanStep(w, snapshot, p, now, holder, e).0.jobs, w.fi, p)
  {
    var w0 := w.(jobs := FinishJobs(w.jobs, e.finished));
    if !Skipped(snapshot, p) && e.getJobOk {
      if p.jobName in w0.jobs { ObserveJobs(w0, p, now, e); } else { LaunchJobs(w0, p, now, holder, e); }
    }
  }

  lemma ObserveJobs(w: World, p: Plan, now: int, e: Surroundings)
    requires p.jobName in w.jobs
    ensures JobsMove(w.jobs, Observe(w, p, now, e).0.jobs, w.fi, p)
  {
  }

  lemma LaunchJobs(w: World, p: Plan, now: int, holder: string, e: Surroundings)
    requires p.jobName !in w.jobs
    ensures JobsMove(w.jobs, Launch(w, p, now, holder, e).0.jobs, w.fi, p)
  {
    if e.pods.Some? { SelectedJobs(w, p, Select(Candidates(e.pods.value), p.count, p.percent, p.cap), now, holder, e); }
  }

  lemma SelectedJobs(w: World, p: Plan, selected: seq<string>, now: int, holder: string, e: Surroundings)
    requires p.jobName !in w.jobs
    ensures var w1 := if e.planned == Refused then w
                      else w.WithTicks(RecordPlanned(w.fi.status.ticks, PlanKey(p), p.jobName, selected, now));
      JobsMove(w.jobs, LaunchSelected(w1, p, selected, now, holder, e).0.jobs, w.fi, p)
  {
    var w1 := if e.planned == Refused then w
              else w.WithTicks(RecordPlanned(w.fi.status.ticks, PlanKey(p), p.jobName, selected, now));
    assert OwnerOf(w1.fi) == OwnerOf(w.fi) && w1.jobs == w.jobs;
    LeaseAndJobEffect(w1, p, selected, now, holder, e);
  }

  lemma SettledTitled(w: World, fs: seq<Finish>, name: TickKey -> string, keys: iset<TickKey>)
    requires Titled(w, name, keys)
    ensures Titled(w.(jobs := FinishJobs(w.jobs, fs)), name, keys)
  {
    var w1 := w.(jobs := FinishJobs(w.jobs, fs));
    FinishJobsKeys(w.jobs, fs);
    forall n | Held(w1, n) ensures JobKey(w1.jobs[n]) in keys && name(JobKey(w1.jobs[n])) == n {
      assert SameJob(w.jobs, w1.jobs, n);
      assert Held(w, n);
    }
  }

  lemma MoveTitled(w: World, w1: World, p: Plan, name: TickKey -> string, keys: iset<TickKey>)
    requires Titled(w, name, keys) && p.jobName == name(PlanKey(p)) && PlanKey(p) in keys
    requires w1.fi.id == w.fi.id && JobsMove(w.jobs, w1.jobs, w.fi, p)
    ensures Titled(w1, name, keys)
  {
    forall n | Held(w1, n) ensures JobKey(w1.jobs[n]) in keys && name(JobKey(w1.jobs[n])) == n {
      if n in w.jobs && w1.jobs[n] == w.jobs[n] { assert Held(w, n); }
    }
  }

  lemma StepTitled(w: World, snapshot: seq<Tick>, p: Plan, now: int, holder: string, e: Surroundings, name: TickKey -> string, keys: iset<TickKey>)
    requires Titled(w, name, keys) && p.jobName == name(PlanKey(p)) && PlanKey(p) in keys
    ensures Titled(PlanStep(w, snapshot, p, now, holder, e).0, name, keys) && PlanStep(w, snapshot, p, now, holder, e).0.fi.id == w.fi.id
  {
    SettledTitled(w, e.finished, name, keys);
    StepHasEffect(w, snapshot, p, now, holder, e);
    StepJobs(w, snapshot, p, now, holder, e);
    MoveTitled(w.(jobs := JobsSeen(w, e)), PlanStep(w, snapshot, p, now, holder, e).0, p, name, keys);
  }

  /** Plans of these ticks, by these names. */
  ghost predicate PlansOf(plans: seq<Plan>, name: TickKey -> string, keys: iset<TickKey>) {
    forall p :: p in plans ==> p.jobName == name(PlanKey(p)) && PlanKey(p) in keys
  }

  lemma {:induction false} PassTitled(w: World, snapshot: seq<Tick>, plans: seq<Plan>, now: int, holder: string, es: seq<Surroundings>, pending: bool, name: TickKey -> string, keys: iset<TickKey>)
    requires |es| == |plans| && Titled(w, name, keys) && PlansOf(plans, name, keys)
    ensures var w1 := Pass(w, snapshot, plans, now, holder, es, pending).0; Titled(w1, name, keys) && w1.fi.id == w.fi.id
    decreases plans
  {
    if plans != [] {
      assert plans[0] in plans && forall p :: p in plans[1..] ==> p in plans;
      StepTitled(w, snapshot, plans[0], now, holder, es[0], name, keys);
      var (w1, v) := PlanStep(w, snapshot, plans[0], now, holder, es[0]);
      if v.Continue? { PassTitled(w1, snapshot, plans[1..], now, holder, es[1..], pending || v.pending, name, keys); }
    }
  }

  /** A Job of the experiment's own that a tick is booked off was created for that tick. */
  lemma PassBooksItsOwn(w: World, snapshot: seq<Tick>, plans: seq<Plan>, now: int, holder: string, es: seq<Surroundings>, pending: bool, name: TickKey -> string, keys: iset<TickKey>, k: TickKey, entry: Tick, job: Job)
    requires |es| == |plans| && Titled(w, name, keys) && PlansOf(plans, name, keys) && TellsApart(name, keys)
    requires PassBooks(w, snapshot, plans, now, holder, es, pending, k, entry, job)
    ensures Cleanup.Mine(w.fi.id, job.owner) ==> JobKey(job) == k
  {
    var j :| 0 <= j < |plans| && BooksAt(w, snapshot, plans, now, holder, es, pending, k, entry, job, j);
    assert plans[j] in plans && forall p :: p in plans[..j] ==> p in plans;
    PassTitled(w, snapshot, plans[..j], now, holder, es[..j], pending, name, keys);
    var w1 := Pass(w, snapshot, plans[..j], now, holder, es[..j], pending).0;
    SettledTitled(w1, es[j].finished, name, keys);
    if Cleanup.Mine(w.fi.id, job.owner) { assert Held(w1.(jobs := JobsSeen(w1, es[j])), plans[j].jobName); }
  }

  // ---------------------------------------------------------------- whole runs

  /** The reconcile's pass books this entry off that Job. */
  ghost predicate BookedIn(w: World, c: Controller, r: Round, k: TickKey, entry: Tick, job: Job) {
    var l := WithLifecycle(w, r.lifecycleClock);
    && Timed(l.fi.status) && Acceptable(l, r) && Mesh.AllDereferenceable(l.fi.spec.meshFaults)
    && var w0 := Injecting(l, c, r.order).0;
       var plans := BuildPlans(c.hash, w.fi.id, w.fi.spec, r.now, l.fi.status.startedAt.value).plans;
       PassBooks(w0, w0.fi.status.ticks, plans, r.now, Holder(c), CallsFor(r, |plans|), false, k, entry, job)
  }

  lemma ReconcileBooksTruly(w: World, c: Controller, r: Round, k: TickKey, entry: Tick)
    requires Terminal(entry.state) && TickOf(Reconciled(w, c, r).0.fi.status.ticks, k) == Some(entry)
    ensures TickOf(w.fi.status.ticks, k) == Some(entry) || exists job :: BookedIn(w, c, r, k, entry, job)
  {
    var l := WithLifecycle(w, r.lifecycleClock);
    if !l.fi.spec.cancel && Timed(l.fi.status) && r.now <= l.fi.status.expiresAt.value && Acceptable(l, r) {
      ActiveBooksTruly(w, l, c, r, k, entry);
    }
  }

  lemma ActiveBooksTruly(w: World, l: World, c: Controller, r: Round, k: TickKey, entry: Tick)
    requires l == WithLifecycle(w, r.lifecycleClock) && Timed(l.fi.status) && Acceptable(l, r)
    requires Terminal(entry.state) && TickOf(Active(l, c, r).0.fi.status.ticks, k) == Some(entry)
    ensures TickOf(w.fi.status.ticks, k) == Some(entry) || exists job :: BookedIn(w, c, r, k, entry, job)
  {
    Validation.ValidDereferenceable(l.fi.spec, r.meshCounts);
    var w0 := Injecting(l, c, r.order).0;
    InjectingSamePods(l, c, r.order);
    ExecutingIsPass(w0, c, r, l.fi.status.expiresAt.value);
    if TickOf(w.fi.status.ticks, k) != Some(entry) {
      var plans := BuildPlans(c.hash, w.fi.id, w.fi.spec, r.now, l.fi.status.startedAt.value).plans;
      PassBooksTruly(w0, w0.fi.status.ticks, plans, r.now, Holder(c), CallsFor(r, |plans|), false, k, entry);
      var job :| PassBooks(w0, w0.fi.status.ticks, plans, r.now, Holder(c), CallsFor(r, |plans|), false, k, entry, job);
      assert BookedIn(w, c, r, k, entry, job);
    }
  }

  ghost predicate BookedDuring(w: World, c: Controller, events: seq<Experiment.Event>, k: TickKey, entry: Tick, i: nat, job: Job)
    requires i < |events|
  {
    events[i].Reconciling? && BookedIn(Experiment.RunOf(w, c, events[..i]), c, events[i].round, k, entry, job)
  }

  lemma DuringLater(w: World, c: Controller, events: seq<Experiment.Event>, k: TickKey, entry: Tick, i: nat, job: Job)
    requires i + 1 < |events| && BookedDuring(Experiment.Next(w, c, events[0]), c, events[1..], k, entry, i, job)
    ensures BookedDuring(w, c, events, k, entry, i + 1, job)
  {
    RunPrefix(w, c, events, i);
  }

  lemma RunPrefix(w: World, c: Controller, events: seq<Experiment.Event>, i: nat)
    requires i < |events|
    ensures Experiment.RunOf(w, c, events[..i + 1]) == Experiment.RunOf(Experiment.Next(w, c, events[0]), c, events[1..][..i])
  {
    assert events[..i + 1][0] == events[0] && events[..i + 1][1..] == events[1..][..i];
  }

  lemma DuringFirst(w: World, c: Controller, events: seq<Experiment.Event>, k: TickKey, entry: Tick) returns (job: Job)
    requires events != [] && Terminal(entry.state) && TickOf(w.fi.status.ticks, k) != Some(entry)
    requires TickOf(Experiment.Next(w, c, events[0]).fi.status.ticks, k) == Some(entry)
    ensures BookedDuring(w, c, events, k, entry, 0, job)
  {
    assert events[0].Reconciling?;
    ReconcileBooksTruly(w, c, events[0].round, k, entry);
    job :| BookedIn(w, c, events[0].round, k, entry, job);
    assert events[..0] == [];
  }

  /** Every outcome on record after a run was there before it, or some reconcile of the run
      booked it: Succeeded off a Job of the tick's name that was complete then, Failed off
      one that had failed and was not. */
  lemma {:induction false} OutcomesForLife(w: World, c: Controller, events: seq<Experiment.Event>, k: TickKey, entry: Tick)
    requires Terminal(entry.state) && TickOf(Experiment.RunOf(w, c, events).fi.status.ticks, k) == Some(entry)
    ensures TickOf(w.fi.status.ticks, k) == Some(entry)
         || exists i, job :: 0 <= i < |events| && BookedDuring(w, c, events, k, entry, i, job)
    decreases events
  {
    if events != [] && TickOf(w.fi.status.ticks, k) != Some(entry) {
      var w1 := Experiment.Next(w, c, events[0]);
      if TickOf(w1.fi.status.ticks, k) == Some(entry) {
        var job := DuringFirst(w, c, events, k, entry);
      } else {
        OutcomesForLife(w1, c, events[1..], k, entry);
        var i, job :| 0 <= i < |events[1..]| && BookedDuring(w1, c, events[1..], k, entry, i, job);
        DuringLater(w, c, events, k, entry, i, job);
      }
    }
  }

  /** Edits keep to ticks with names of their own, and nobody else makes or relabels Jobs in
      the experiment's name. */
  ghost predicate Faithful(w: World, ev: Experiment.Event, keys: iset<TickKey>) {
    match ev
    case Editing(spec) => Within(spec, keys)
    case OtherJobs(jobs) => forall n :: n in jobs && Cleanup.Mine(w.fi.id, jobs[n].owner) ==> Held(w, n) && SameJob(w.jobs, jobs, n)
    case _ => true
  }

  ghost predicate FaithfulRun(w: World, c: Controller, events: seq<Experiment.Event>, keys: iset<TickKey>)
    decreases events
  {
    events == [] || (Faithful(w, events[0], keys) && FaithfulRun(Experiment.Next(w, c, events[0]), c, events[1..], keys))
  }

  lemma BuiltOf(h: Helpers.Hash, id: Identity, spec: Spec, now: int, startedAt: int, keys: iset<TickKey>)
    requires Within(spec, keys)
    ensures PlansOf(BuildPlans(h, id, spec, now, startedAt).plans, NameOf(h, id), keys)
  {
    PlansAreDue(h, id, spec, now, startedAt);
    forall p | p in BuildPlans(h, id, spec, now, startedAt).plans ensures p.jobName == NameOf(h, id)(PlanKey(p)) && PlanKey(p) in keys {
      var a := PlanMember(h, id, spec, now, startedAt, p);
    }
  }

  lemma SameTitled(w: World, w1: World, name: TickKey -> string, keys: iset<TickKey>)
    requires Titled(w, name, keys) && w1.fi.id == w.fi.id
    requires forall n :: Held(w1, n) ==> Held(w, n) && JobKey(w1.jobs[n]) == JobKey(w.jobs[n])
    ensures Titled(w1, name, keys)
  {
  }

  lemma ReconcileTitled(w: World, c: Controller, r: Round, keys: iset<TickKey>)
    requires Titled(w, NameOf(c.hash, w.fi.id), keys) && Within(w.fi.spec, keys)
    ensures Titled(Reconciled(w, c, r).0, NameOf(c.hash, w.fi.id), keys)
  {
    var l := WithLifecycle(w, r.lifecycleClock);
    if !l.fi.spec.cancel && Timed(l.fi.status) && r.now <= l.fi.status.expiresAt.value && Acceptable(l, r) {
      ActiveTitled(l, c, r, keys);
    } else {
      Experiment.ReconcilePhases(w, c, r);
      SameTitled(w, Reconciled(w, c, r).0, NameOf(c.hash, w.fi.id), keys);
    }
  }

  lemma ActiveTitled(w: World, c: Controller, r: Round, keys: iset<TickKey>)
    requires Titled(w, NameOf(c.hash, w.fi.id), keys) && Within(w.fi.spec, keys) && Timed(w.fi.status) && Acceptable(w, r)
    ensures Titled(Active(w, c, r).0, NameOf(c.hash, w.fi.id), keys)
  {
    Validation.ValidDereferenceable(w.fi.spec, r.meshCounts);
    var w0 := Injecting(w, c, r.order).0;
    InjectingSamePods(w, c, r.order);
    ExecutingTitled(w0, c, r, w.fi.status.expiresAt.value, keys);
  }

  lemma ExecutingTitled(w: World, c: Controller, r: Round, expiresAt: int, keys: iset<TickKey>)
    requires Titled(w, NameOf(c.hash, w.fi.id), keys) && Within(w.fi.spec, keys) && w.fi.status.startedAt.Some?
    ensures Titled(Executing(w, c, r, expiresAt).0, NameOf(c.hash, w.fi.id), keys)
  {
    var plans := BuildPlans(c.hash, w.fi.id, w.fi.spec, r.now, w.fi.status.startedAt.value).plans;
    ExecutingIsPass(w, c, r, expiresAt);
    BuiltOf(c.hash, w.fi.id, w.fi.spec, r.now, w.fi.status.startedAt.value, keys);
    PassTitled(w, w.fi.status.ticks, plans, r.now, Holder(c), CallsFor(r, |plans|), false, NameOf(c.hash, w.fi.id), keys);
  }

  lemma NextTitled(w: World, c: Controller, ev: Experiment.Event, keys: iset<TickKey>)
    requires Titled(w, NameOf(c.hash, w.fi.id), keys) && Within(w.fi.spec, keys) && Faithful(w, ev, keys)
    ensures var w1 := Experiment.Next(w, c, ev);
      Titled(w1, NameOf(c.hash, w.fi.id), keys) && Within(w1.fi.spec, keys) && w1.fi.id == w.fi.id
  {
    match ev {
      case Reconciling(r) =>
        ReconcileTitled(w, c, r, keys);
        Experiment.ReconcilePhases(w, c, r);
      case Settling(fs) => SettledTitled(w, fs, NameOf(c.hash, w.fi.id), keys);
      case _ =>
    }
  }

  lemma {:induction false} RunTitled(w: World, c: Controller, events: seq<Experiment.Event>, keys: iset<TickKey>)
    requires Titled(w, NameOf(c.hash, w.fi.id), keys) && Within(w.fi.spec, keys) && FaithfulRun(w, c, events, keys)
    ensures var w1 := Experiment.RunOf(w, c, events);
      Titled(w1, NameOf(c.hash, w.fi.id), keys) && Within(w1.fi.spec, keys) && w1.fi.id == w.fi.id
    decreases events
  {
    if events != [] {
      NextTitled(w, c, events[0], keys);
      RunTitled(Experiment.Next(w, c, events[0]), c, events[1..], keys);
    }
  }

  /** And where the ticks of all specs have names of their own, a Job of the experiment's
      that an outcome is booked off, after any such run, is the one of that very tick. */
  lemma OutcomesOfTheirJobs(w: World, c: Controller, events: seq<Experiment.Event>, keys: iset<TickKey>, r: Round, k: TickKey, entry: Tick, job: Job)
    requires Titled(w, NameOf(c.hash, w.fi.id), keys) && Within(w.fi.spec, keys) && TellsApart(NameOf(c.hash, w.fi.id), keys)
    requires FaithfulRun(w, c, events, keys) && BookedIn(Experiment.RunOf(w, c, events), c, r, k, entry, job)
    ensures Cleanup.Mine(w.fi.id, job.owner) ==> JobKey(job) == k
  {
    RunTitled(w, c, events, keys);
    BookedItsOwn(Experiment.RunOf(w, c, events), c, r, keys, k, entry, job);
  }

  lemma BookedItsOwn(w: World, c: Controller, r: Round, keys: iset<TickKey>, k: TickKey, entry: Tick, job: Job)
    requires Titled(w, NameOf(c.hash, w.fi.id), keys) && Within(w.fi.spec, keys) && TellsApart(NameOf(c.hash, w.fi.id), keys)
    requires BookedIn(w, c, r, k, entry, job)
    ensures Cleanup.Mine(w.fi.id, job.owner) ==> JobKey(job) == k
  {
    var l := WithLifecycle(w, r.lifecycleClock);
    var w0 := Injecting(l, c, r.order).0;
    InjectingSamePods(l, c, r.order);
    BuiltOf(c.hash, w.fi.id, w.fi.spec, r.now, l.fi.status.startedAt.value, keys);
    var plans := BuildPlans(c.hash, w.fi.id, w.fi.spec, r.now, l.fi.status.startedAt.value).plans;
    PassBooksItsOwn(w0, w0.fi.status.ticks, plans, r.now, Holder(c), CallsFor(r, |plans|), false, NameOf(c.hash, w.fi.id), keys, k, entry, job);
  }
}
