/** applyPodFaults: one pass of the pod-fault tick protocol over the plans of a
    reconcile, and the status list it keeps.

    Any API call may fail, with or without having taken effect, and Jobs may finish
    between plans. */
module Protocol {
  import opened Wrappers
  import opened Machine
  import Names
  import opened Api
  import opened Cluster
  import opened PodSelection
  import opened Ticks
  import LeaseProtocol

  // ---------------------------------------------------------------- the status list

  type TickKey = (string, string)

  function KeyOf(e: Tick): TickKey { (e.action, e.tick) }

  /** Index of the first entry of a key, or the length of the list. */
  function TickIndex(ticks: seq<Tick>, k: TickKey): (i: nat)
    ensures i <= |ticks|
    ensures i < |ticks| ==> KeyOf(ticks[i]) == k
    ensures forall j :: 0 <= j < i ==> KeyOf(ticks[j]) != k
  {
    if ticks == [] || KeyOf(ticks[0]) == k then 0 else 1 + TickIndex(ticks[1..], k)
  }

  /** The list read as a map: the entry of a key. */
  function TickOf(ticks: seq<Tick>, k: TickKey): Option<Tick> {
    var i := TickIndex(ticks, k);
    if i < |ticks| then Some(ticks[i]) else None
  }

  function Blank(k: TickKey): Tick {
    Tick(k.0, k.1, None, [], "", None, Unset)
  }

  /** Replace the entry of `e`'s key, or append one. */
  function PutTick(ticks: seq<Tick>, e: Tick): seq<Tick> {
    var i := TickIndex(ticks, KeyOf(e));
    if i < |ticks| then ticks[i := e] else ticks + [e]
  }

  function EntryFor(ticks: seq<Tick>, k: TickKey): Tick {
    if TickOf(ticks, k).Some? then TickOf(ticks, k).value else Blank(k)
  }

  /** An entry a Planned write must leave alone. */
  predicate Finished(e: Tick) {
    Terminal(e.state) || e.executedAt.Some?
  }

  function RecordPlanned(ticks: seq<Tick>, k: TickKey, jobName: string, pods: seq<string>, now: int): seq<Tick> {
    var e := EntryFor(ticks, k);
    if Finished(e) then ticks
    else PutTick(ticks, e.(plannedAt := Some(StoredTime(now)), plannedPods := pods, jobName := jobName, state := Planned))
  }

  function RecordExecuted(ticks: seq<Tick>, k: TickKey, jobName: string, pods: seq<string>, now: int, succeeded: bool): seq<Tick> {
    var e := EntryFor(ticks, k);
    PutTick(ticks, e.(plannedPods := if e.plannedPods == [] && pods != [] then pods else e.plannedPods,
                      jobName := jobName, executedAt := Some(StoredTime(now)),
                      state := if succeeded then Succeeded else Failed))
  }

  method FindPodFaultTickStatus(ticks: seq<Tick>, k: TickKey) returns (i: nat)
    ensures i == TickIndex(ticks, k)
  {
    i := 0;
    while i < |ticks|
      invariant i <= |ticks| && forall j :: 0 <= j < i ==> KeyOf(ticks[j]) != k
    {
      if KeyOf(ticks[i]) == k { break; }
      i := i + 1;
    }
  }

  method PodFaultTickAlreadyExecuted(ticks: seq<Tick>, k: TickKey) returns (r: bool)
    ensures r <==> exists e :: e in ticks && KeyOf(e) == k && Finished(e)
  {
    for i := 0 to |ticks|
      invariant forall j :: 0 <= j < i ==> !(KeyOf(ticks[j]) == k && Finished(ticks[j]))
    {
      if KeyOf(ticks[i]) == k && Finished(ticks[i]) { return true; }
    }
    return false;
  }

  ghost predicate UniqueKeys(ticks: seq<Tick>) {
    forall i, j :: 0 <= i < j < |ticks| ==> KeyOf(ticks[i]) != KeyOf(ticks[j])
  }

  /** A write is a map update: it sets one key, leaves the others, keeps keys unique. */
  lemma PutTickSound(ticks: seq<Tick>, e: Tick)
    ensures TickOf(PutTick(ticks, e), KeyOf(e)) == Some(e)
    ensures forall k :: k != KeyOf(e) ==> TickOf(PutTick(ticks, e), k) == TickOf(ticks, k)
    ensures UniqueKeys(ticks) ==> UniqueKeys(PutTick(ticks, e))
  {
    var i := TickIndex(ticks, KeyOf(e));
    var r := PutTick(ticks, e);
    TickIndexUnique(r, KeyOf(e), i);
    forall k | k != KeyOf(e) ensures TickOf(r, k) == TickOf(ticks, k) {
      var j := TickIndex(ticks, k);
      if j < |ticks| { TickIndexUnique(r, k, j); }
      else { TickIndexUnique(r, k, |r|); }
    }
  }

  lemma TickIndexUnique(ticks: seq<Tick>, k: TickKey, i: nat)
    requires i <= |ticks| && (i < |ticks| ==> KeyOf(ticks[i]) == k) && forall j :: 0 <= j < i ==> KeyOf(ticks[j]) != k
    ensures TickIndex(ticks, k) == i
  {
  }

  // ---------------------------------------------------------------- one plan

  /** How an API write went: done, refused, or done with the reply lost. */
  datatype Call = Ok | Refused | Lost

  datatype Finish = Finish(job: string, complete: bool, failed: bool)

  /** What one plan's iteration meets: Jobs that finish just before it, the pods listed
      (None when listing fails), and how each call goes. */
  datatype Surroundings = Surroundings(
    finished: seq<Finish>,
    getJobOk: bool,
    pods: Option<seq<Pod>>,
    planned: Call,
    lease: Call,
    create: Call,
    executed: Call,
    remove: Call,
    phase: Call)

  datatype PlanVerdict = Continue(pending: bool) | Stop | Fail

  function FinishJob(jobs: map<string, Job>, f: Finish): map<string, Job> {
    if f.job in jobs
    then jobs[f.job := jobs[f.job].(complete := jobs[f.job].complete || f.complete, failed := jobs[f.job].failed || f.failed)]
    else jobs
  }

  function FinishJobs(jobs: map<string, Job>, fs: seq<Finish>): map<string, Job>
    decreases fs
  {
    if fs == [] then jobs else FinishJobs(FinishJob(jobs, fs[0]), fs[1..])
  }

  function PlanKey(p: Plan): TickKey { (p.action, p.tick) }

  /** Read off the status as it was when the pass began; the loop never reloads it. */
  predicate Skipped(snapshot: seq<Tick>, p: Plan) {
    || (p.tick == Names.ONESHOT && exists e :: e in snapshot && KeyOf(e) == PlanKey(p) && Finished(e))
    || (TickOf(snapshot, PlanKey(p)).Some? && Terminal(TickOf(snapshot, PlanKey(p)).value.state))
  }

  function OwnerOf(fi: FaultInjection): LeaseProtocol.Owner {
    LeaseProtocol.Owner(fi.id.name, fi.id.uid)
  }

  function Finishing(w: World, p: Plan, now: int, succeeded: bool, e: Surroundings): (World, bool)
    requires p.jobName in w.jobs
  {
    if e.executed == Refused then (w, false)
    else
      var w1 := w.WithTicks(RecordExecuted(w.fi.status.ticks, PlanKey(p), p.jobName, [], now, succeeded));
      if e.executed == Lost then (w1, false)
      else (if e.remove == Refused then w1 else w1.(jobs := w1.jobs - {p.jobName}), true)
  }

  function EnterError(w: World, call: Call): (World, PlanVerdict) {
    match call
    case Ok => (w.WithPhase(Error), Stop)
    case Lost => (w.WithPhase(Error), Fail)
    case Refused => (w, Fail)
  }

  /** A Job of this tick exists: wait for it, or book its outcome and delete it. */
  function Observe(w: World, p: Plan, now: int, e: Surroundings): (World, PlanVerdict)
    requires p.jobName in w.jobs
  {
    var job := w.jobs[p.jobName];
    if job.complete then
      var (w1, ok) := Finishing(w, p, now, true, e);
      (w1, if ok then Continue(false) else Fail)
    else if job.failed then
      var (w1, ok) := Finishing(w, p, now, false, e);
      if ok then EnterError(w1, e.phase) else (w1, Fail)
    else (w, Continue(true))
  }

  function CreateJob(w: World, p: Plan, pods: seq<string>): World {
    if p.jobName in w.jobs then w
    else w.(jobs := w.jobs[p.jobName := Job(OwnerOf(w.fi), p.action, p.tick, pods, false, false)],
            log := w.log + [Creation(p.action, p.tick, pods)])
  }

  /** No Job yet: select, record the intent, take the Lease, create the Job. */
  function Launch(w: World, p: Plan, now: int, holder: string, e: Surroundings): (World, PlanVerdict) {
    if e.pods.None? then (w, Fail)
    else
      var candidates := Candidates(e.pods.value);
      if Wrap32(|candidates|) < p.refuseIfPodsLessThan then EnterError(w, e.phase)
      else
        var selected := Select(candidates, p.count, p.percent, p.cap);
        if selected == [] then (w, Continue(false))
        else
          var w1 := if e.planned == Refused then w
                    else w.WithTicks(RecordPlanned(w.fi.status.ticks, PlanKey(p), p.jobName, selected, now));
          LaunchSelected(w1, p, selected, now, holder, e)
  }

  function LaunchSelected(w: World, p: Plan, selected: seq<string>, now: int, holder: string, e: Surroundings): (World, PlanVerdict) {
    if e.lease == Refused then (w, Fail)
    else
      var (lease, acquired) := LeaseProtocol.Acquire(Lookup(w.leases, p.leaseName), OwnerOf(w.fi), holder, now);
      var w1 := if lease.Some? then w.(leases := w.leases[p.leaseName := lease.value]) else w;
      if e.lease == Lost then (w1, Fail)
      else if !acquired then (w1, Continue(false))
      else
        match e.create
        case Refused => (w1, Fail)
        case Lost => (CreateJob(w1, p, selected), Fail)
        case Ok => (CreateJob(w1, p, selected), Continue(true))
  }

  function PlanStep(w: World, snapshot: seq<Tick>, p: Plan, now: int, holder: string, e: Surroundings): (World, PlanVerdict) {
    var w0 := w.(jobs := FinishJobs(w.jobs, e.finished));
    if Skipped(snapshot, p) then (w0, Continue(false))
    else if !e.getJobOk then (w0, Fail)
    else if p.jobName in w0.jobs then Observe(w0, p, now, e)
    else Launch(w0, p, now, holder, e)
  }

  function Pass(w: World, snapshot: seq<Tick>, plans: seq<Plan>, now: int, holder: string, es: seq<Surroundings>, pending: bool): (World, PlanVerdict)
    requires |es| == |plans|
    decreases plans
  {
    if plans == [] then (w, Continue(pending))
    else
      var (w1, v) := PlanStep(w, snapshot, plans[0], now, holder, es[0]);
      if v.Continue? then Pass(w1, snapshot, plans[1..], now, holder, es[1..], pending || v.pending) else (w1, v)
  }

  const RECHECK: int := 2 * SECOND

  /** The wake-up time: the earliest boundary, or the recheck of a pending Job. */
  function NextDue(earliestDue: Option<int>, pending: bool, now: int): Option<int> {
    if pending && (earliestDue.None? || now + RECHECK < earliestDue.value) then Some(now + RECHECK) else earliestDue
  }

  // ---------------------------------------------------------------- the code on the store

  method RecordPodFaultPlanned(s: Server, k: TickKey, jobName: string, pods: seq<string>, now: int)
    modifies s`fi
    ensures s.Snapshot() == old(s.Snapshot()).WithTicks(RecordPlanned(old(s.fi.status.ticks), k, jobName, pods, now))
  {
    var latest := s.fi.status.ticks;
    var i := FindPodFaultTickStatus(latest, k);
    if i == |latest| {
      latest := latest + [Blank(k)];
    }
    var e := latest[i];
    if Terminal(e.state) || e.executedAt.Some? { return; }
    e := e.(plannedAt := Some(StoredTime(now)));
    e := e.(plannedPods := pods);
    e := e.(jobName := jobName);
    e := e.(state := Planned);
    latest := latest[i := e];
    s.fi := s.fi.(status := s.fi.status.(ticks := latest));
  }

  method RecordPodFaultExecuted(s: Server, k: TickKey, jobName: string, pods: seq<string>, now: int, succeeded: bool)
    modifies s`fi
    ensures s.Snapshot() == old(s.Snapshot()).WithTicks(RecordExecuted(old(s.fi.status.ticks), k, jobName, pods, now, succeeded))
  {
    var latest := s.fi.status.ticks;
    var i := FindPodFaultTickStatus(latest, k);
    if i == |latest| {
      latest := latest + [Blank(k)];
    }
    var e := latest[i];
    if e.plannedPods == [] && pods != [] {
      e := e.(plannedPods := pods);
    }
    e := e.(jobName := jobName);
    e := e.(executedAt := Some(StoredTime(now)));
    e := e.(state := if succeeded then Succeeded else Failed);
    latest := latest[i := e];
    s.fi := s.fi.(status := s.fi.status.(ticks := latest));
  }

  /** tryAcquireOrTakeoverLease with nobody else at the Lease: no call conflicts. */
  method TryAcquireLease(s: Server, name: string, identity: string, now: int) returns (acquired: bool)
    modifies s`leases
    ensures var (lease, ok) := LeaseProtocol.Acquire(Lookup(old(s.leases), name), OwnerOf(s.fi), LeaseProtocol.HolderName(identity), now);
      && acquired == ok && s.leases == if lease.Some? then old(s.leases)[name := lease.value] else old(s.leases)
  {
    var holder := LeaseProtocol.HolderName(identity);
    if name !in s.leases {
      s.leases := s.leases[name := LeaseProtocol.NewLease(OwnerOf(s.fi), holder, now)];
      return true;
    }
    var lease := s.leases[name];
    if !LeaseProtocol.Stale(lease, now) {
      assert s.leases == s.leases[name := lease];
      return false;
    }
    var latest := s.leases[name];
    latest := latest.(owner := OwnerOf(s.fi), holder := Some(holder));
    latest := latest.(renewTime := Some(StoredMicroTime(now)), acquireTime := Some(StoredMicroTime(now)));
    if latest.seconds.None? || latest.seconds.value <= 0 {
      latest := latest.(seconds := Some(LeaseProtocol.DEFAULT_SECONDS));
    }
    s.leases := s.leases[name := latest];
    var confirm := s.leases[name];
    return confirm.holder == Some(holder);
  }

  method SettleJobs(s: Server, fs: seq<Finish>)
    modifies s`jobs
    ensures s.jobs == FinishJobs(old(s.jobs), fs)
  {
    for i := 0 to |fs|
      invariant FinishJobs(old(s.jobs), fs) == FinishJobs(s.jobs, fs[i..])
    {
      assert fs[i..][0] == fs[i] && fs[i..][1..] == fs[i + 1..];
      s.jobs := FinishJob(s.jobs, fs[i]);
    }
  }

  method EnterErrorPhase(s: Server, call: Call) returns (v: PlanVerdict)
    modifies s`fi
    ensures (s.Snapshot(), v) == EnterError(old(s.Snapshot()), call)
  {
    if call == Refused { return Fail; }
    s.fi := s.fi.(status := s.fi.status.(phase := Error));
    return if call == Ok then Stop else Fail;
  }

  method ObserveJob(s: Server, p: Plan, now: int, e: Surroundings) returns (v: PlanVerdict)
    requires p.jobName in s.jobs
    modifies s
    ensures (s.Snapshot(), v) == Observe(old(s.Snapshot()), p, now, e)
  {
    var job := s.jobs[p.jobName];
    if !job.complete && !job.failed { return Continue(true); }
    if e.executed == Refused { return Fail; }
    RecordPodFaultExecuted(s, PlanKey(p), p.jobName, [], now, job.complete);
    if e.executed == Lost { return Fail; }
    if e.remove != Refused {
      s.jobs := s.jobs - {p.jobName};
    }
    if job.complete { return Continue(false); }
    v := EnterErrorPhase(s, e.phase);
  }

  method LaunchJob(s: Server, p: Plan, now: int, identity: string, e: Surroundings) returns (v: PlanVerdict)
    requires p.jobName !in s.jobs
    modifies s
    ensures (s.Snapshot(), v) == Launch(old(s.Snapshot()), p, now, LeaseProtocol.HolderName(identity), e)
  {
    if e.pods.None? { return Fail; }
    var candidates := ListCandidatePods(e.pods.value);
    if Wrap32(|candidates|) < p.refuseIfPodsLessThan {
      v := EnterErrorPhase(s, e.phase);
      return;
    }
    var selected := SelectPodNames(candidates, p.count, p.percent, p.cap);
    if selected == [] { return Continue(false); }
    if e.planned != Refused {
      RecordPodFaultPlanned(s, PlanKey(p), p.jobName, selected, now);
    }
    if e.lease == Refused { return Fail; }
    var acquired := TryAcquireLease(s, p.leaseName, identity, now);
    if e.lease == Lost { return Fail; }
    if !acquired { return Continue(false); }
    if e.create == Refused { return Fail; }
    if p.jobName !in s.jobs {
      s.jobs := s.jobs[p.jobName := Job(OwnerOf(s.fi), p.action, p.tick, selected, false, false)];
      s.log := s.log + [Creation(p.action, p.tick, selected)];
    }
    return if e.create == Lost then Fail else Continue(true);
  }

  /** The loop of applyPodFaults, after the plans are built. */
  method ApplyPlans(s: Server, plans: seq<Plan>, now: int, identity: string, es: seq<Surroundings>) returns (v: PlanVerdict)
    requires |es| == |plans|
    modifies s
    ensures (s.Snapshot(), v) == Pass(old(s.Snapshot()), old(s.fi.status.ticks), plans, now, LeaseProtocol.HolderName(identity), es, false)
  {
    var snapshot := s.fi.status.ticks;
    ghost var start := s.Snapshot();
    var pending := false;
    for i := 0 to |plans|
      invariant Pass(start, snapshot, plans, now, LeaseProtocol.HolderName(identity), es, false)
             == Pass(s.Snapshot(), snapshot, plans[i..], now, LeaseProtocol.HolderName(identity), es[i..], pending)
    {
      var p, e := plans[i], es[i];
      assert plans[i..][0] == p && plans[i..][1..] == plans[i + 1..];
      assert es[i..][0] == e && es[i..][1..] == es[i + 1..];
      SettleJobs(s, e.finished);
      if p.tick == Names.ONESHOT {
        var executed := PodFaultTickAlreadyExecuted(snapshot, PlanKey(p));
        if executed { continue; }
      }
      var c := FindPodFaultTickStatus(snapshot, PlanKey(p));
      if c < |snapshot| && Terminal(snapshot[c].state) { continue; }
      if !e.getJobOk { return Fail; }
      if p.jobName in s.jobs {
        v := ObserveJob(s, p, now, e);
      } else {
        v := LaunchJob(s, p, now, identity, e);
      }
      if !v.Continue? { return; }
      pending := pending || v.pending;
    }
    return Continue(pending);
  }
}
