/** Lifecycle timestamps (ensureLifecycle) and the wake-up delay Reconcile returns. */
module Lifecycle {
  import opened Wrappers
  import opened Machine
  import Names
  import Helpers
  import opened Api
  import Cluster
  import opened Ticks
  import Protocol

  // ---------------------------------------------------------------- StartedAt, ExpiresAt

  /** ensureLifecycle on the in-memory status: the new status and whether it changed. */
  function EnsureLifecycle(durationSeconds: int64, st: Status, now: int): (Status, bool) {
    if durationSeconds <= 0 then (st, false)
    else
      var started := if st.startedAt.Some? then st.startedAt.value else now;
      var expires := started + Seconds(durationSeconds);
      (st.(startedAt := Some(started), expiresAt := Some(expires)),
       st.startedAt.None? || st.expiresAt != Some(expires))
  }

  function StoredOption(t: Option<int>): Option<int> {
    if t.Some? then Some(StoredTime(t.value)) else None
  }

  /** The status as the API server gives it back after a lifecycle write. */
  function AfterLifecycle(durationSeconds: int64, st: Status, now: int): Status {
    var (st1, changed) := EnsureLifecycle(durationSeconds, st, now);
    if changed then st.(startedAt := StoredOption(st1.startedAt), expiresAt := StoredOption(st1.expiresAt)) else st
  }

  method PersistLifecycle(s: Cluster.Server, now: int)
    modifies s`fi
    ensures s.fi == old(s.fi).(status := AfterLifecycle(old(s.fi.spec.durationSeconds), old(s.fi.status), now))
  {
    var d := s.fi.spec.durationSeconds;
    if d <= 0 { return; }
    var startedAt, expiresAt := s.fi.status.startedAt, s.fi.status.expiresAt;
    var changed := false;
    if startedAt.None? {
      startedAt := Some(now);
      changed := true;
    }
    var expires := startedAt.value + Seconds(d);
    if expiresAt.None? || expiresAt.value != expires {
      expiresAt := Some(expires);
      changed := true;
    }
    if changed {
      var latest := s.fi.status;
      s.fi := s.fi.(status := latest.(startedAt := StoredOption(startedAt), expiresAt := StoredOption(expiresAt)));
    }
  }

  /** The timestamps came back from storage: whole seconds. */
  ghost predicate Stored(st: Status) {
    && (st.startedAt.Some? ==> st.startedAt.value % SECOND == 0)
    && (st.expiresAt.Some? ==> st.expiresAt.value % SECOND == 0)
  }

  /** The longest duration whose nanoseconds fit an int64. */
  const MAX_SECONDS: int := 9_223_372_036

  /** After one lifecycle write the next reconcile finds nothing to change, exactly when
      the duration's nanoseconds, wrapped at 64 bits, are whole seconds. StartedAt is
      kept once set. */
  lemma LifecycleFixedPoint(d: int64, st: Status, now: int, later: int)
    requires d > 0 && Stored(st)
    ensures var st1 := AfterLifecycle(d, st, now);
      && Stored(st1) && st1.startedAt.Some? && st1.expiresAt.Some?
      && (st.startedAt.Some? ==> st1.startedAt == st.startedAt)
      && (!EnsureLifecycle(d, st1, later).1 <==> Seconds(d) % SECOND == 0)
  {
    var started := if st.startedAt.Some? then st.startedAt.value else StoredTime(now);
    var st1 := AfterLifecycle(d, st, now);
    assert st1.startedAt == Some(started);
    if EnsureLifecycle(d, st, now).1 && st.startedAt.None? {
      StoredSum(now, Seconds(d));
    } else {
      StoredSum(started, Seconds(d));
    }
  }

  /** Truncating a sum of an instant and a span, against truncating the instant first. */
  lemma StoredSum(t: int, w: int)
    ensures StoredTime(StoredTime(t)) == StoredTime(t)
    ensures w % SECOND == 0 ==> StoredTime(t + w) == StoredTime(t) + w
    ensures w % SECOND != 0 ==> StoredTime(t + w) != StoredTime(t) + w
  {
  }

  /** For every duration that fits, that is a fixed point with
      ExpiresAt = StartedAt + durationSeconds, and StartedAt the clock of the first check. */
  lemma LifecycleExact(d: int64, st: Status, now: int, later: int)
    requires 0 < d <= MAX_SECONDS && Stored(st)
    ensures var st1 := AfterLifecycle(d, st, now);
      && st1.startedAt == (if st.startedAt.Some? then st.startedAt else Some(StoredTime(now)))
      && st1.expiresAt == Some(st1.startedAt.value + d * SECOND)
      && AfterLifecycle(d, st1, later) == st1
  {
    assert Seconds(d) == d * SECOND;
    assert (d * SECOND) % SECOND == 0;
    LifecycleFixedPoint(d, st, now, later);
    StoredSum(now, d * SECOND);
    if st.startedAt.Some? { StoredSum(st.startedAt.value, d * SECOND); }
  }

  /** A duration one second longer than that never settles: every reconcile writes. */
  lemma OverflowNeverSettles(st: Status, now: int, later: int)
    requires Stored(st)
    ensures var d := MAX_SECONDS + 1;
      EnsureLifecycle(d, AfterLifecycle(d, st, now), later).1
  {
    LifecycleFixedPoint(MAX_SECONDS + 1, st, now, later);
  }

  /** Some longer durations do settle, on a wrong expiry: 2^55 + 1 seconds wrap to one. */
  lemma OverflowSettlesWrong(st: Status, now: int, later: int)
    requires Stored(st)
    ensures var d := 36_028_797_018_963_969;
      var st1 := AfterLifecycle(d, st, now);
      && !EnsureLifecycle(d, st1, later).1
      && st1.startedAt.Some? && st1.expiresAt == Some(st1.startedAt.value + SECOND)
  {
    var d := 36_028_797_018_963_969;
    assert Seconds(d) == SECOND;
    LifecycleFixedPoint(d, st, now, later);
    StoredSum(if st.startedAt.Some? then st.startedAt.value else now, SECOND);
  }

  // ---------------------------------------------------------------- when to wake up

  /** RequeueAfter. `time.Until` is called up to three times, at c1 <= c2 <= c3. */
  function RequeueAfter(expiresAt: int, nextDue: Option<int>, c1: int, c2: int, c3: int): int {
    var toExpiry := expiresAt - c1;
    if nextDue.None? then toExpiry
    else if nextDue.value - c3 <= 0 then SECOND
    else if 0 < nextDue.value - c2 < toExpiry then nextDue.value - c2
    else toExpiry
  }

  method ComputeRequeue(expiresAt: int, nextDue: Option<int>, c1: int, c2: int, c3: int) returns (requeueAfter: int)
    ensures requeueAfter == RequeueAfter(expiresAt, nextDue, c1, c2, c3)
  {
    requeueAfter := expiresAt - c1;
    if nextDue.Some? {
      var d := nextDue.value - c2;
      if d > 0 && d < requeueAfter {
        requeueAfter := d;
      }
      d := nextDue.value - c3;
      if d <= 0 {
        requeueAfter := SECOND;
      }
    }
  }

  /** A non-positive delay means no wake-up at all. There is one exactly when the clock
      was still short of expiry, or a boundary has already passed; so an experiment whose
      clock runs out inside a reconcile, with nothing else due, is not woken to expire.
      A wake-up comes no later than expiry or one second on, and no later than nextDue
      while that lies ahead. */
  lemma WakeUp(expiresAt: int, nextDue: Option<int>, c1: int, c2: int, c3: int)
    requires c1 <= c2 <= c3
    ensures var delay := RequeueAfter(expiresAt, nextDue, c1, c2, c3);
      && (delay > 0 <==> c1 < expiresAt || (nextDue.Some? && nextDue.value <= c3))
      && (c1 < expiresAt ==> c1 + delay <= expiresAt || delay == SECOND)
      && (nextDue.Some? && nextDue.value > c3 ==> c2 + delay <= nextDue.value)
      && (nextDue.Some? && nextDue.value <= c3 ==> delay == SECOND)
  {
  }

  /** Put together: while nothing that was due has passed, the wake-up precedes every
      boundary of every windowed action and the recheck of a pending Job. */
  lemma WakesForEveryBoundary(h: Helpers.Hash, id: Names.Identity, spec: Spec, now: int, startedAt: int, expiresAt: int, pending: bool, c1: int, c2: int, c3: int, a: PodAction)
    requires c1 <= c2 <= c3 && a in spec.podFaults && IsWindowed(a)
    requires forall b :: b in spec.podFaults && IsWindowed(b) && b.window.Some? && b.window.value.intervalSeconds >= 1 && startedAt <= now
               ==> InRange(b.window.value, now, startedAt)
    ensures var b := BuildPlans(h, id, spec, now, startedAt);
      var nextDue := Protocol.NextDue(b.earliestDue, pending, now);
      var delay := RequeueAfter(expiresAt, nextDue, c1, c2, c3);
      b.ok ==>
        && !ComputeWindowedTick(a.window, now, startedAt).Invalid?
        && nextDue.Some? && nextDue.value > now
        && (nextDue.value > c3 ==> c2 + delay <= Boundary(a, now, startedAt) && (pending ==> c2 + delay <= now + Protocol.RECHECK))
        && (nextDue.value <= c3 ==> delay == SECOND)
  {
    BuildPlansSound(h, id, spec, now, startedAt);
    WakeUp(expiresAt, Protocol.NextDue(BuildPlans(h, id, spec, now, startedAt).earliestDue, pending, now), c1, c2, c3);
  }
}
