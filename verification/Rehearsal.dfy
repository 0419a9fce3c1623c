/** Runs put together step by step, to show that bounds are attained and conditions needed:
    reconciles in which every plan but one or two finds its Lease taken. */
module Rehearsal {
  import opened Wrappers
  import opened Machine
  import opened Api
  import PodSelection
  import opened Cluster
  import opened Ticks
  import opened Protocol
  import LeaseProtocol

  // ---------------------------------------------------------------- steps

  /** Every call goes well. */
  ghost predicate Calm(e: Surroundings) {
    e == Surroundings(e.finished, true, e.pods, Ok, Ok, Ok, Ok, Ok, Ok) && e.pods.Some?
  }

  ghost predicate Lets(e: Surroundings, p: Plan) {
    Calm(e) && Wrap32(|PodSelection.Candidates(e.pods.value)|) >= p.refuseIfPodsLessThan
  }

  function Pick(e: Surroundings, p: Plan): seq<string>
    requires e.pods.Some?
  {
    PodSelection.Select(PodSelection.Candidates(e.pods.value), p.count, p.percent, p.cap)
  }

  /** No outcome is on record for the tick. */
  ghost predicate Open(ticks: seq<Tick>, k: TickKey) {
    forall e :: e in ticks && KeyOf(e) == k ==> !Finished(e)
  }

  lemma OpenIsNotSkipped(ticks: seq<Tick>, p: Plan)
    requires Open(ticks, PlanKey(p))
    ensures !Skipped(ticks, p) && !Finished(EntryFor(ticks, PlanKey(p)))
  {
    var i := TickIndex(ticks, PlanKey(p));
    if i < |ticks| { assert ticks[i] in ticks; }
  }

  /** Someone's Job is running under the plan's name, or someone holds its Lease. */
  ghost predicate Busy(w: World, p: Plan, now: int) {
    if p.jobName in w.jobs then !w.jobs[p.jobName].complete && !w.jobs[p.jobName].failed
    else p.leaseName in w.leases && !LeaseProtocol.Stale(w.leases[p.leaseName], now)
  }

  /** What a pass may leave: these Jobs, Leases and creations, with no outcome on record
      that was not, but for the ticks in `closed`. */
  ghost predicate Becomes(w: World, w1: World, jobs: map<string, Job>, leases: map<string, LeaseProtocol.Lease>, log: seq<Creation>, closed: iset<TickKey>) {
    && w1 == World(w.fi.(status := w.fi.status.(ticks := w1.fi.status.ticks)), w.vss, jobs, leases, log)
    && forall k :: Open(w.fi.status.ticks, k) && k !in closed ==> Open(w1.fi.status.ticks, k)
  }

  ghost predicate Quiet(w: World, w1: World) {
    Becomes(w, w1, w.jobs, w.leases, w.log, iset{})
  }

  lemma PutTickMembers(ticks: seq<Tick>, e: Tick)
    ensures forall x :: x in PutTick(ticks, e) ==> x in ticks || x == e
  {
  }

  lemma PlannedStaysOpen(ticks: seq<Tick>, k: TickKey, jobName: string, pods: seq<string>, now: int)
    ensures forall l :: Open(ticks, l) ==> Open(RecordPlanned(ticks, k, jobName, pods, now), l)
  {
    var e := EntryFor(ticks, k);
    PutTickMembers(ticks, e.(plannedAt := Some(StoredTime(now)), plannedPods := pods, jobName := jobName, state := Planned));
  }

  lemma ExecutedStaysOpen(ticks: seq<Tick>, k: TickKey, jobName: string, now: int)
    ensures forall l :: Open(ticks, l) && l != k ==> Open(RecordExecuted(ticks, k, jobName, [], now, true), l)
  {
    var e := EntryFor(ticks, k);
    PutTickMembers(ticks, e.(jobName := jobName, executedAt := Some(StoredTime(now)), state := Succeeded));
  }

  lemma BusyStep(w: World, snapshot: seq<Tick>, p: Plan, now: int, holder: string, e: Surroundings)
    requires Lets(e, p) && e.finished == [] && Busy(w, p, now)
    ensures var (w1, v) := PlanStep(w, snapshot, p, now, holder, e); Quiet(w, w1) && v.Continue?
  {
    assert w.(jobs := FinishJobs(w.jobs, [])) == w;
    PlannedStaysOpen(w.fi.status.ticks, PlanKey(p), p.jobName, Pick(e, p), now);
    if p.jobName !in w.jobs { assert w.leases[p.leaseName := w.leases[p.leaseName]] == w.leases; }
  }

  /** There is no Lease of that name, or it has run out. */
  ghost predicate Claimable(w: World, p: Plan, now: int) {
    p.leaseName in w.leases ==> LeaseProtocol.Stale(w.leases[p.leaseName], now)
  }

  /** The Leases with the plan's claimed. */
  function Leased(w: World, p: Plan, now: int, holder: string): map<string, LeaseProtocol.Lease> {
    w.leases[p.leaseName :=
      if p.leaseName in w.leases then LeaseProtocol.Renewed(w.leases[p.leaseName], OwnerOf(w.fi), holder, now)
      else LeaseProtocol.NewLease(OwnerOf(w.fi), holder, now)]
  }

  lemma LaunchStep(w: World, snapshot: seq<Tick>, p: Plan, now: int, holder: string, e: Surroundings)
    requires Lets(e, p) && e.finished == [] && Pick(e, p) != [] && !Skipped(snapshot, p) && p.jobName !in w.jobs && Claimable(w, p, now)
    ensures var (w1, v) := PlanStep(w, snapshot, p, now, holder, e);
      && v.Continue?
      && Becomes(w, w1, w.jobs[p.jobName := Job(OwnerOf(w.fi), p.action, p.tick, Pick(e, p), false, false)],
                 Leased(w, p, now, holder),
                 w.log + [Creation(p.action, p.tick, Pick(e, p))], iset{})
  {
    assert w.(jobs := FinishJobs(w.jobs, [])) == w;
    PlannedStaysOpen(w.fi.status.ticks, PlanKey(p), p.jobName, Pick(e, p), now);
  }

  lemma OneFinish(jobs: map<string, Job>, f: Finish)
    ensures FinishJobs(jobs, [f]) == FinishJob(jobs, f)
  {
    assert [f][1..] == [];
    assert FinishJobs(jobs, [f]) == FinishJobs(FinishJob(jobs, f), []);
  }

  lemma FinishStep(w: World, snapshot: seq<Tick>, p: Plan, now: int, holder: string, e: Surroundings)
    requires Calm(e) && e.finished == [Finish(p.jobName, true, false)] && !Skipped(snapshot, p) && p.jobName in w.jobs
    ensures var (w1, v) := PlanStep(w, snapshot, p, now, holder, e);
      v.Continue? && Becomes(w, w1, w.jobs - {p.jobName}, w.leases, w.log, iset{PlanKey(p)})
  {
    OneFinish(w.jobs, e.finished[0]);
    var jobs := FinishJobs(w.jobs, e.finished);
    assert jobs - {p.jobName} == w.jobs - {p.jobName};
    ExecutedStaysOpen(w.fi.status.ticks, PlanKey(p), p.jobName, now);
  }

  // ---------------------------------------------------------------- passes

  lemma {:induction false} PassSplit(w: World, snapshot: seq<Tick>, a: seq<Plan>, b: seq<Plan>, now: int, holder: string, x: seq<Surroundings>, y: seq<Surroundings>, pending: bool)
    requires |a| == |x| && |b| == |y|
    ensures var (w1, v) := Pass(w, snapshot, a, now, holder, x, pending);
      Pass(w, snapshot, a + b, now, holder, x + y, pending)
      == if v.Continue? then Pass(w1, snapshot, b, now, holder, y, v.pending) else (w1, v)
    decreases a
  {
    if a == [] {
      assert a + b == b && x + y == y;
    } else {
      assert (a + b)[0] == a[0] && (a + b)[1..] == a[1..] + b && (x + y)[0] == x[0] && (x + y)[1..] == x[1..] + y;
      var (w1, v) := PlanStep(w, snapshot, a[0], now, holder, x[0]);
      if v.Continue? { PassSplit(w1, snapshot, a[1..], b, now, holder, x[1..], y, pending || v.pending); }
    }
  }

  lemma QuietBusy(w: World, w1: World, p: Plan, now: int)
    requires Quiet(w, w1) && Busy(w, p, now)
    ensures Busy(w1, p, now)
  {
  }

  /** Plans lo..hi-1 are busy and all goes well around them. */
  ghost predicate AllBusy(w: World, plans: seq<Plan>, es: seq<Surroundings>, now: int, lo: nat, hi: nat)
    requires |es| == |plans| && hi <= |plans|
  {
    forall i :: lo <= i < hi ==> Lets(es[i], plans[i]) && es[i].finished == [] && Busy(w, plans[i], now)
  }

  lemma {:induction false} BusyPass(w: World, snapshot: seq<Tick>, plans: seq<Plan>, now: int, holder: string, es: seq<Surroundings>, pending: bool)
    requires |es| == |plans| && AllBusy(w, plans, es, now, 0, |plans|)
    ensures var (w1, v) := Pass(w, snapshot, plans, now, holder, es, pending); Quiet(w, w1) && v.Continue?
    decreases plans
  {
    if plans != [] {
      var (w0, v) := PlanStep(w, snapshot, plans[0], now, holder, es[0]);
      BusyStep(w, snapshot, plans[0], now, holder, es[0]);
      BusyTail(w, w0, plans, es, now, 1);
      BusyPass(w0, snapshot, plans[1..], now, holder, es[1..], pending || v.pending);
    }
  }

  lemma BusyTail(w: World, w0: World, plans: seq<Plan>, es: seq<Surroundings>, now: int, lo: nat)
    requires |es| == |plans| && lo <= |plans| && Quiet(w, w0) && AllBusy(w, plans, es, now, lo, |plans|)
    ensures AllBusy(w0, plans[lo..], es[lo..], now, 0, |plans| - lo)
  {
    forall i | 0 <= i < |plans| - lo
      ensures Lets(es[lo..][i], plans[lo..][i]) && es[lo..][i].finished == [] && Busy(w0, plans[lo..][i], now)
    {
      assert es[lo..][i] == es[lo + i] && plans[lo..][i] == plans[lo + i];
      QuietBusy(w, w0, plans[lo + i], now);
    }
  }

  /** The pass up to plan x, when those before it are busy. */
  lemma PassTo(w: World, snapshot: seq<Tick>, plans: seq<Plan>, now: int, holder: string, es: seq<Surroundings>, before: bool, x: nat) returns (w0: World, pending: bool)
    requires |es| == |plans| && x <= |plans| && AllBusy(w, plans, es, now, 0, x)
    ensures Quiet(w, w0)
    ensures Pass(w, snapshot, plans, now, holder, es, before) == Pass(w0, snapshot, plans[x..], now, holder, es[x..], pending)
  {
    assert plans == plans[..x] + plans[x..] && es == es[..x] + es[x..];
    PassSplit(w, snapshot, plans[..x], plans[x..], now, holder, es[..x], es[x..], before);
    assert AllBusy(w, plans[..x], es[..x], now, 0, x);
    BusyPass(w, snapshot, plans[..x], now, holder, es[..x], before);
    var (wa, va) := Pass(w, snapshot, plans[..x], now, holder, es[..x], before);
    w0, pending := wa, va.pending;
  }

  /** The pass from plan x on, when those after it are busy. */
  lemma PassFrom(w: World, w1: World, snapshot: seq<Tick>, plans: seq<Plan>, now: int, holder: string, es: seq<Surroundings>, pending: bool)
    requires |es| == |plans| && plans != [] && AllBusy(w1, plans, es, now, 1, |plans|)
    requires var (w0, v) := PlanStep(w, snapshot, plans[0], now, holder, es[0]); v.Continue? && w0 == w1
    ensures var (w2, v) := Pass(w, snapshot, plans, now, holder, es, pending); Quiet(w1, w2) && v.Continue?
  {
    var (w0, v) := PlanStep(w, snapshot, plans[0], now, holder, es[0]);
    BusyTail(w1, w1, plans, es, now, 1);
    BusyPass(w1, snapshot, plans[1..], now, holder, es[1..], pending || v.pending);
  }

  // ---------------------------------------------------------------- turns

  lemma BecomesAround(w: World, w0: World, w1: World, w2: World, jobs: map<string, Job>, leases: map<string, LeaseProtocol.Lease>, log: seq<Creation>, closed: iset<TickKey>)
    requires Quiet(w, w0) && Becomes(w0, w1, jobs, leases, log, closed) && Quiet(w1, w2)
    ensures Becomes(w, w2, jobs, leases, log, closed)
  {
  }

  /** The plan's name for Job and Lease is one. */
  ghost predicate OneName(plans: seq<Plan>) {
    forall p :: p in plans ==> p.leaseName == p.jobName
  }

  /** Plans after x share its Job, or are busy. */
  ghost predicate SharedOrBusy(w: World, plans: seq<Plan>, es: seq<Surroundings>, now: int, x: nat)
    requires |es| == |plans| && x < |plans|
  {
    forall i :: x < i < |plans| ==> Lets(es[i], plans[i]) && es[i].finished == [] && (plans[i].jobName == plans[x].jobName || Busy(w, plans[i], now))
  }

  function Launched(w: World, p: Plan, e: Surroundings): map<string, Job>
    requires e.pods.Some?
  {
    w.jobs[p.jobName := Job(OwnerOf(w.fi), p.action, p.tick, Pick(e, p), false, false)]
  }

  /** Plan x finds its Job and Lease free. */
  lemma PassLaunches(w: World, snapshot: seq<Tick>, plans: seq<Plan>, now: int, holder: string, es: seq<Surroundings>, before: bool, x: nat)
    requires |es| == |plans| && x < |plans| && OneName(plans) && AllBusy(w, plans, es, now, 0, x) && SharedOrBusy(w, plans, es, now, x)
    requires Lets(es[x], plans[x]) && es[x].finished == [] && Pick(es[x], plans[x]) != [] && !Skipped(snapshot, plans[x])
    requires plans[x].jobName !in w.jobs && Claimable(w, plans[x], now)
    ensures Becomes(w, Pass(w, snapshot, plans, now, holder, es, before).0, Launched(w, plans[x], es[x]), Leased(w, plans[x], now, holder),
                    w.log + [Creation(plans[x].action, plans[x].tick, Pick(es[x], plans[x]))], iset{})
  {
    var w0, pending := PassTo(w, snapshot, plans, now, holder, es, before, x);
    var p, e := plans[x], es[x];
    forall i | 0 < i < |plans| - x
      ensures Lets(es[x..][i], plans[x..][i]) && es[x..][i].finished == [] && (plans[x..][i].jobName == p.jobName || Busy(w0, plans[x..][i], now))
    {
      assert es[x..][i] == es[x + i] && plans[x..][i] == plans[x + i];
    }
    HeadLaunches(w0, snapshot, plans[x..], now, holder, es[x..], pending);
    BecomesAround(w, w0, Pass(w, snapshot, plans, now, holder, es, before).0, Pass(w, snapshot, plans, now, holder, es, before).0,
                  Launched(w, p, e), Leased(w, p, now, holder), w.log + [Creation(p.action, p.tick, Pick(e, p))], iset{});
  }

  /** The same for the first plan. */
  lemma HeadLaunches(w: World, snapshot: seq<Tick>, plans: seq<Plan>, now: int, holder: string, es: seq<Surroundings>, pending: bool)
    requires |es| == |plans| && plans != [] && OneName(plans) && SharedOrBusy(w, plans, es, now, 0)
    requires Lets(es[0], plans[0]) && es[0].finished == [] && Pick(es[0], plans[0]) != [] && !Skipped(snapshot, plans[0])
    requires plans[0].jobName !in w.jobs && Claimable(w, plans[0], now)
    ensures Becomes(w, Pass(w, snapshot, plans, now, holder, es, pending).0, Launched(w, plans[0], es[0]), Leased(w, plans[0], now, holder),
                    w.log + [Creation(plans[0].action, plans[0].tick, Pick(es[0], plans[0]))], iset{})
  {
    var p, e := plans[0], es[0];
    LaunchStep(w, snapshot, p, now, holder, e);
    var w1 := PlanStep(w, snapshot, p, now, holder, e).0;
    forall i | 1 <= i < |plans| ensures Lets(es[i], plans[i]) && es[i].finished == [] && Busy(w1, plans[i], now) {
      assert plans[i] in plans && p in plans;
    }
    PassFrom(w, w1, snapshot, plans, now, holder, es, pending);
    BecomesAround(w, w, w1, Pass(w, snapshot, plans, now, holder, es, pending).0, Launched(w, p, e), Leased(w, p, now, holder),
                  w.log + [Creation(p.action, p.tick, Pick(e, p))], iset{});
  }

  ghost predicate LockedOut(w: World, jobName: string, p: Plan, now: int) {
    if p.jobName == jobName then p.leaseName in w.leases && !LeaseProtocol.Stale(w.leases[p.leaseName], now) else Busy(w, p, now)
  }

  /** Plans after x use its Job and find the Lease taken, or are busy. */
  ghost predicate LockedOrBusy(w: World, plans: seq<Plan>, es: seq<Surroundings>, now: int, x: nat)
    requires |es| == |plans| && x < |plans|
  {
    forall i :: x < i < |plans| ==> Lets(es[i], plans[i]) && es[i].finished == [] && LockedOut(w, plans[x].jobName, plans[i], now)
  }

  /** The Job of plan x completes just before its turn. */
  lemma PassFinishes(w: World, snapshot: seq<Tick>, plans: seq<Plan>, now: int, holder: string, es: seq<Surroundings>, before: bool, x: nat)
    requires |es| == |plans| && x < |plans| && AllBusy(w, plans, es, now, 0, x) && LockedOrBusy(w, plans, es, now, x)
    requires Calm(es[x]) && es[x].finished == [Finish(plans[x].jobName, true, false)] && !Skipped(snapshot, plans[x]) && plans[x].jobName in w.jobs
    ensures Becomes(w, Pass(w, snapshot, plans, now, holder, es, before).0, w.jobs - {plans[x].jobName}, w.leases, w.log, iset{PlanKey(plans[x])})
  {
    var w0, pending := PassTo(w, snapshot, plans, now, holder, es, before, x);
    var p, e := plans[x], es[x];
    FinishStep(w0, snapshot, p, now, holder, e);
    var w1 := PlanStep(w0, snapshot, p, now, holder, e).0;
    forall i | 1 <= i < |plans| - x ensures Lets(es[x..][i], plans[x..][i]) && es[x..][i].finished == [] && Busy(w1, plans[x..][i], now) {
      assert es[x..][i] == es[x + i] && plans[x..][i] == plans[x + i];
    }
    PassFrom(w0, w1, snapshot, plans[x..], now, holder, es[x..], pending);
    BecomesAround(w, w0, w1, Pass(w, snapshot, plans, now, holder, es, before).0, w.jobs - {p.jobName}, w.leases, w.log, iset{PlanKey(p)});
  }

  /** The Job completes just before plan x books it, and plan y creates it again. */
  lemma PassRepeats(w: World, snapshot: seq<Tick>, plans: seq<Plan>, now: int, holder: string, es: seq<Surroundings>, x: nat, y: nat)
    requires |es| == |plans| && x < y < |plans| && OneName(plans) && plans[x].jobName == plans[y].jobName
    requires AllBusy(w, plans, es, now, 0, x) && AllBusy(w, plans, es, now, x + 1, y) && SharedOrBusy(w, plans, es, now, y)
    requires forall i :: x < i < y ==> plans[i].jobName != plans[x].jobName
    requires Calm(es[x]) && es[x].finished == [Finish(plans[x].jobName, true, false)] && !Skipped(snapshot, plans[x]) && plans[x].jobName in w.jobs
    requires Lets(es[y], plans[y]) && es[y].finished == [] && Pick(es[y], plans[y]) != [] && !Skipped(snapshot, plans[y])
    requires Claimable(w, plans[y], now)
    ensures var w2 := Pass(w, snapshot, plans, now, holder, es, false).0;
      w2.log == w.log + [Creation(plans[y].action, plans[y].tick, Pick(es[y], plans[y]))]
  {
    var w1, pending := PassBooks(w, snapshot, plans, now, holder, es, x);
    BusyAfterBooking(w, w1, plans, es, now, x, y);
    RestLaunches(w1, snapshot, plans, now, holder, es, pending, x, y);
  }

  lemma RestLaunches(w: World, snapshot: seq<Tick>, plans: seq<Plan>, now: int, holder: string, es: seq<Surroundings>, pending: bool, x: nat, y: nat)
    requires |es| == |plans| && x < y < |plans| && OneName(plans)
    requires AllBusy(w, plans[x + 1..], es[x + 1..], now, 0, y - x - 1) && SharedOrBusy(w, plans[x + 1..], es[x + 1..], now, y - x - 1)
    requires Lets(es[y], plans[y]) && es[y].finished == [] && Pick(es[y], plans[y]) != [] && !Skipped(snapshot, plans[y])
    requires plans[y].jobName !in w.jobs && Claimable(w, plans[y], now)
    ensures Pass(w, snapshot, plans[x + 1..], now, holder, es[x + 1..], pending).0.log
         == w.log + [Creation(plans[y].action, plans[y].tick, Pick(es[y], plans[y]))]
  {
    var rest, later := plans[x + 1..], es[x + 1..];
    var z := y - x - 1;
    assert rest[z] == plans[y] && later[z] == es[y] && OneName(rest);
    PassLaunches(w, snapshot, rest, now, holder, later, pending, z);
  }

  /** With the Job of plan x gone, plans of other Jobs are as busy as before. */
  lemma BusyAfterBooking(w: World, w1: World, plans: seq<Plan>, es: seq<Surroundings>, now: int, x: nat, y: nat)
    requires |es| == |plans| && x < y < |plans| && plans[x].jobName == plans[y].jobName
    requires AllBusy(w, plans, es, now, x + 1, y) && SharedOrBusy(w, plans, es, now, y)
    requires forall i :: x < i < y ==> plans[i].jobName != plans[x].jobName
    requires w1.jobs == w.jobs - {plans[x].jobName} && w1.leases == w.leases
    ensures AllBusy(w1, plans[x + 1..], es[x + 1..], now, 0, y - x - 1) && SharedOrBusy(w1, plans[x + 1..], es[x + 1..], now, y - x - 1)
  {
    var rest, later := plans[x + 1..], es[x + 1..];
    var z := y - x - 1;
    forall i | 0 <= i < z ensures Lets(later[i], rest[i]) && later[i].finished == [] && Busy(w1, rest[i], now) {
      assert later[i] == es[x + 1 + i] && rest[i] == plans[x + 1 + i];
    }
    forall i | z < i < |rest|
      ensures Lets(later[i], rest[i]) && later[i].finished == [] && (rest[i].jobName == rest[z].jobName || Busy(w1, rest[i], now))
    {
      assert later[i] == es[x + 1 + i] && rest[i] == plans[x + 1 + i];
    }
  }

  /** The first half: plan x books its Job, and the pass goes on. */
  lemma PassBooks(w: World, snapshot: seq<Tick>, plans: seq<Plan>, now: int, holder: string, es: seq<Surroundings>, x: nat) returns (w1: World, pending: bool)
    requires |es| == |plans| && x < |plans| && AllBusy(w, plans, es, now, 0, x)
    requires Calm(es[x]) && es[x].finished == [Finish(plans[x].jobName, true, false)] && !Skipped(snapshot, plans[x]) && plans[x].jobName in w.jobs
    ensures Becomes(w, w1, w.jobs - {plans[x].jobName}, w.leases, w.log, iset{PlanKey(plans[x])})
    ensures Pass(w, snapshot, plans, now, holder, es, false) == Pass(w1, snapshot, plans[x + 1..], now, holder, es[x + 1..], pending)
  {
    var w0, before := PassTo(w, snapshot, plans, now, holder, es, false, x);
    FinishStep(w0, snapshot, plans[x], now, holder, es[x]);
    var (wx, v) := PlanStep(w0, snapshot, plans[x], now, holder, es[x]);
    assert plans[x..][1..] == plans[x + 1..] && es[x..][1..] == es[x + 1..] && plans[x..][0] == plans[x] && es[x..][0] == es[x];
    w1, pending := wx, before || v.pending;
    BecomesAround(w, w0, w1, w1, w.jobs - {plans[x].jobName}, w.leases, w.log, iset{PlanKey(plans[x])});
  }
}
