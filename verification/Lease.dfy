/** tryAcquireOrTakeoverLease as a concurrent protocol.

    Any number of attempts run interleaved, one API call at a time, against one
    versioned Lease: Create fails when the Lease is there, Update fails when the version
    moved since the attempt's Get. Holders may share one identity, an attempt may die
    between any two calls, and each attempt keeps the clock reading it started with. */
module LeaseProtocol {
  import opened Wrappers
  import opened Machine
  import Helpers

  const DEFAULT_SECONDS: int32 := 60
  const SAFETY_SKEW: int := 10 * SECOND
  const RETRIES: nat := 5

  /** Instants as a running controller can read them: after the Unix epoch, which lies
      this many nanoseconds after Go's zero time. */
  const UNIX_EPOCH: int := 62_135_596_800 * SECOND
  type Clock = t: int | UNIX_EPOCH <= t witness UNIX_EPOCH

  datatype Owner = Owner(fi: string, uid: string)

  datatype Lease = Lease(
    owner: Owner,
    holder: Option<string>,
    acquireTime: Option<int>,
    renewTime: Option<int>,
    seconds: Option<int32>)

  function LastTime(l: Lease): int {
    if l.renewTime.Some? then l.renewTime.value
    else if l.acquireTime.Some? then l.acquireTime.value
    else 0
  }

  function EffectiveSeconds(l: Lease): int32 {
    if l.seconds.Some? && l.seconds.value > 0 then l.seconds.value else DEFAULT_SECONDS
  }

  /** Lease duration plus the safety skew, which never exceeds the duration. */
  function Window(l: Lease): int {
    var dur := Seconds(EffectiveSeconds(l));
    dur + if SAFETY_SKEW < dur then SAFETY_SKEW else dur
  }

  predicate Stale(l: Lease, now: int) {
    LastTime(l) == 0 || now > LastTime(l) + Window(l)
  }

  function NewLease(owner: Owner, holder: string, now: int): Lease {
    Lease(owner, Some(holder), Some(StoredMicroTime(now)), Some(StoredMicroTime(now)), Some(DEFAULT_SECONDS))
  }

  function Renewed(l: Lease, owner: Owner, holder: string, now: int): Lease {
    Lease(owner, Some(holder), Some(StoredMicroTime(now)), Some(StoredMicroTime(now)), Some(EffectiveSeconds(l)))
  }

  function HolderName(identity: string): string {
    if Helpers.TrimSpace(identity) == "" then "fi-operator" else Helpers.TrimSpace(identity)
  }

  lemma WindowBounds(l: Lease)
    ensures SECOND < Window(l) && Window(l) % MICROSECOND == 0
    ensures var dur := EffectiveSeconds(l) * SECOND; Window(l) == dur + if SAFETY_SKEW < dur then SAFETY_SKEW else dur
  {
    var d: int := EffectiveSeconds(l);
    WholeMicroseconds(d);
    FitsInt64(d);
  }

  lemma FitsInt64(d: int)
    requires 1 <= d <= MAX_INT32
    ensures Wrap64(d * SECOND) == d * SECOND
  {
  }

  lemma WholeMicroseconds(d: int)
    requires 1 <= d
    ensures d * SECOND >= SECOND
    ensures (d * SECOND + SAFETY_SKEW) % MICROSECOND == 0 && (d * SECOND + d * SECOND) % MICROSECOND == 0
  {
    Multiple(d * 1_000_000 + 10_000_000);
    Multiple(2 * d * 1_000_000);
    assert d * SECOND + SAFETY_SKEW == 1000 * (d * 1_000_000 + 10_000_000);
    assert d * SECOND + d * SECOND == 1000 * (2 * d * 1_000_000);
  }

  lemma Multiple(k: int)
    ensures (1000 * k) % 1000 == 0
  {
  }

  /** A time past a whole number of units is not cut below it. */
  lemma CutAfterWhole(a: int, c: int)
    requires a % MICROSECOND == 0 && c > a
    ensures c - c % MICROSECOND >= a
  {
    var q, p := c / 1000, a / 1000;
    assert a == 1000 * p && c - c % 1000 == 1000 * q;
  }

  lemma WholeSum(a: int, b: int)
    requires a % MICROSECOND == 0 && b % MICROSECOND == 0
    ensures (a + b) % MICROSECOND == 0
  {
  }

  // ---------------------------------------------------------------- the step machine

  datatype Verdict = Created | TakenOver | Busy | Failed

  datatype Step =
    | GetFirst
    | TryCreate
    | GetLatest(left: nat)
    | TryUpdate(seen: Lease, version: nat, left: nat)
    | Confirm
    | Done(verdict: Verdict)

  datatype Attempt = Attempt(now: Clock, holder: string, owner: Owner, step: Step)

  /** One successful write of the Lease; `stamp` is the time the Lease then carries. */
  datatype Grant = Grant(attempt: nat, clock: Clock, stamp: int, window: int)

  datatype State = State(
    lease: Option<Lease>,
    version: nat,
    attempts: map<nat, Attempt>,
    grants: seq<Grant>)

  datatype Event =
    | Begin(id: nat, now: Clock, holder: string, owner: Owner)
    | Advance(id: nat)
    | Crash(id: nat)

  function Write(s: State, id: nat, l: Lease, a: Attempt): State {
    State(Some(l), s.version + 1, s.attempts[id := a],
          s.grants + [Grant(id, a.now, LastTime(l), Window(l))])
  }

  function Goto(s: State, id: nat, p: Step): State
    requires id in s.attempts
  {
    s.(attempts := s.attempts[id := s.attempts[id].(step := p)])
  }

  function NextStep(s: State, id: nat): State
    requires id in s.attempts
  {
    var a := s.attempts[id];
    match a.step
    case GetFirst =>
      if s.lease.None? then Goto(s, id, TryCreate)
      else if Stale(s.lease.value, a.now) then Goto(s, id, GetLatest(RETRIES))
      else Goto(s, id, Done(Busy))
    case TryCreate =>
      if s.lease.Some? then Goto(s, id, Done(Busy))
      else Write(s, id, NewLease(a.owner, a.holder, a.now), a.(step := Done(Created)))
    case GetLatest(left) =>
      if s.lease.None? then Goto(s, id, Done(Failed))
      else if !Stale(s.lease.value, a.now) then Goto(s, id, Done(Busy))
      else Goto(s, id, TryUpdate(s.lease.value, s.version, left))
    case TryUpdate(seen, version, left) =>
      if s.lease.None? then Goto(s, id, Done(Failed))
      else if s.version == version then Write(s, id, Renewed(seen, a.owner, a.holder, a.now), a.(step := Confirm))
      else if left > 1 then Goto(s, id, GetLatest(left - 1))
      else Goto(s, id, Done(Failed))
    case Confirm =>
      if s.lease.None? then Goto(s, id, Done(Failed))
      else if s.lease.value.holder == Some(a.holder) then Goto(s, id, Done(TakenOver))
      else Goto(s, id, Done(Busy))
    case Done(_) => s
  }

  function Apply(s: State, e: Event): State {
    match e
    case Begin(id, now, holder, owner) =>
      if id in s.attempts then s
      else s.(attempts := s.attempts[id := Attempt(now, HolderName(holder), owner, GetFirst)])
    case Advance(id) => if id in s.attempts then NextStep(s, id) else s
    case Crash(id) =>
      if id in s.attempts && !s.attempts[id].step.Done?
      then Goto(s, id, Done(Failed)) else s
  }

  function Run(s: State, events: seq<Event>): State
    decreases events
  {
    if events == [] then s else Run(Apply(s, events[0]), events[1..])
  }

  /** A Lease of any content, or none, and nobody at work yet. */
  ghost predicate Initial(s: State) {
    s.attempts == map[] && s.grants == []
  }

  // ---------------------------------------------------------------- the invariant

  ghost predicate Spaced(g: seq<Grant>) {
    && (forall i :: 0 <= i < |g| ==> g[i].stamp == StoredMicroTime(g[i].clock) && g[i].window > SECOND && g[i].window % MICROSECOND == 0)
    && (forall i, j :: 0 <= i < j < |g| ==> g[j].clock > g[i].stamp + g[i].window)
  }

  ghost predicate Traced(s: State) {
    && (forall i :: 0 <= i < |s.grants| ==>
          var g := s.grants[i]; g.attempt in s.attempts && s.attempts[g.attempt].now == g.clock
                                && (s.attempts[g.attempt].step.Confirm? || s.attempts[g.attempt].step.Done?))
    && (forall i, j :: 0 <= i < j < |s.grants| ==> s.grants[i].attempt != s.grants[j].attempt)
    && (forall id :: id in s.attempts && Holds(s.attempts[id]) ==> exists i :: 0 <= i < |s.grants| && s.grants[i].attempt == id)
  }

  predicate Holds(a: Attempt) {
    a.step == Confirm || a.step == Done(Created) || a.step == Done(TakenOver)
  }

  ghost predicate Fresh(s: State) {
    forall id :: id in s.attempts ==>
      var st := s.attempts[id].step;
      st.TryUpdate? ==> Stale(st.seen, s.attempts[id].now) && st.version <= s.version
                        && (st.version == s.version ==> s.lease == Some(st.seen))
  }

  ghost predicate Current(s: State) {
    s.grants != [] ==>
      var g := s.grants[|s.grants| - 1];
      s.lease.Some? && LastTime(s.lease.value) == g.stamp && Window(s.lease.value) == g.window
  }

  ghost predicate Inv(s: State) {
    Spaced(s.grants) && Traced(s) && Fresh(s) && Current(s)
  }

  /** A write by an attempt that has none yet, over a stale or absent Lease, keeps the
      grants spaced: that its clock is past the last window carries to all before. */
  lemma WriteKeepsSpaced(s: State, id: nat, l: Lease, a: Attempt)
    requires Inv(s) && (s.lease.Some? ==> Stale(s.lease.value, a.now))
    requires LastTime(l) == StoredMicroTime(a.now)
    ensures Spaced(Write(s, id, l, a).grants)
  {
    WindowBounds(l);
    var g, g' := s.grants, Write(s, id, l, a).grants;
    var n := |g|;
    forall i | 0 <= i < n ensures g'[n].clock > g[i].stamp + g[i].window {
      if i < n - 1 { assert g[n - 1].clock > g[i].stamp + g[i].window; }
    }
  }

  lemma WriteKeepsTraced(s: State, id: nat, l: Lease, a: Attempt)
    requires Traced(s) && id in s.attempts && !Holds(s.attempts[id]) && !s.attempts[id].step.Done?
    requires a.now == s.attempts[id].now && Holds(a)
    ensures Traced(Write(s, id, l, a))
  {
    var s' := Write(s, id, l, a);
    var n := |s.grants|;
    assert s'.grants[n].attempt == id;
    assert forall i :: 0 <= i < n ==> s'.grants[i] == s.grants[i] && s.grants[i].attempt != id;
    forall k | k in s'.attempts && Holds(s'.attempts[k])
      ensures exists i :: 0 <= i < |s'.grants| && s'.grants[i].attempt == k
    {
      if k != id {
        var i :| 0 <= i < n && s.grants[i].attempt == k;
        assert s'.grants[i].attempt == k;
      }
    }
  }

  lemma WriteKeepsInv(s: State, id: nat, l: Lease, a: Attempt)
    requires Inv(s) && (s.lease.Some? ==> Stale(s.lease.value, a.now))
    requires LastTime(l) == StoredMicroTime(a.now)
    requires id in s.attempts && !Holds(s.attempts[id]) && !s.attempts[id].step.Done?
    requires a.now == s.attempts[id].now && Holds(a)
    ensures Inv(Write(s, id, l, a))
  {
    WriteKeepsSpaced(s, id, l, a);
    WriteKeepsTraced(s, id, l, a);
  }

  /** A step that only moves on one attempt. */
  lemma GotoKeepsInv(s: State, id: nat, p: Step)
    requires Inv(s) && id in s.attempts
    requires var a := s.attempts[id];
      && (Holds(a.(step := p)) ==> Holds(a))
      && (a.step.Confirm? || a.step.Done? ==> p.Done?)
      && (p.TryUpdate? ==> Stale(p.seen, a.now) && p.version == s.version && s.lease == Some(p.seen))
    ensures Inv(Goto(s, id, p))
  {
    GotoKeepsTraced(s, id, p);
    GotoKeepsFresh(s, id, p);
    GotoKeepsGrants(s, id, p);
  }

  lemma GotoKeepsGrants(s: State, id: nat, p: Step)
    requires Spaced(s.grants) && Current(s) && id in s.attempts
    ensures Spaced(Goto(s, id, p).grants) && Current(Goto(s, id, p))
  {
    assert Goto(s, id, p).grants == s.grants;
  }

  lemma GotoKeepsTraced(s: State, id: nat, p: Step)
    requires Traced(s) && id in s.attempts
    requires var a := s.attempts[id];
      (Holds(a.(step := p)) ==> Holds(a)) && (a.step.Confirm? || a.step.Done? ==> p.Done?)
    ensures Traced(Goto(s, id, p))
  {
    var s' := Goto(s, id, p);
    forall k | k in s'.attempts && Holds(s'.attempts[k])
      ensures exists i :: 0 <= i < |s'.grants| && s'.grants[i].attempt == k
    {
      assert k in s.attempts && Holds(s.attempts[k]);
    }
  }

  lemma GotoKeepsFresh(s: State, id: nat, p: Step)
    requires Fresh(s) && id in s.attempts
    requires p.TryUpdate? ==> Stale(p.seen, s.attempts[id].now) && p.version == s.version && s.lease == Some(p.seen)
    ensures Fresh(Goto(s, id, p))
  {
  }

  lemma CreateKeepsInv(s: State, id: nat)
    requires Inv(s) && id in s.attempts && s.attempts[id].step.TryCreate?
    ensures Inv(NextStep(s, id))
  {
    var a := s.attempts[id];
    if s.lease.Some? {
      GotoKeepsInv(s, id, Done(Busy));
    } else {
      WriteKeepsInv(s, id, NewLease(a.owner, a.holder, a.now), a.(step := Done(Created)));
    }
  }

  lemma UpdateKeepsInv(s: State, id: nat)
    requires Inv(s) && id in s.attempts && s.attempts[id].step.TryUpdate?
    ensures Inv(NextStep(s, id))
  {
    var a := s.attempts[id];
    if s.lease.None? {
      GotoKeepsInv(s, id, Done(Failed));
    } else if s.version == a.step.version {
      WriteKeepsInv(s, id, Renewed(a.step.seen, a.owner, a.holder, a.now), a.(step := Confirm));
    } else {
      GotoKeepsInv(s, id, if a.step.left > 1 then GetLatest(a.step.left - 1) else Done(Failed));
    }
  }

  lemma NextKeepsInv(s: State, id: nat)
    requires Inv(s) && id in s.attempts
    ensures Inv(NextStep(s, id))
  {
    var a := s.attempts[id];
    if a.step.TryCreate? {
      CreateKeepsInv(s, id);
    } else if a.step.TryUpdate? {
      UpdateKeepsInv(s, id);
    } else if !a.step.Done? {
      var p :=
        if s.lease.None? then (if a.step.GetFirst? then TryCreate else Done(Failed))
        else if a.step.Confirm? then Done(if s.lease.value.holder == Some(a.holder) then TakenOver else Busy)
        else if !Stale(s.lease.value, a.now) then Done(Busy)
        else if a.step.GetFirst? then GetLatest(RETRIES)
        else TryUpdate(s.lease.value, s.version, a.step.left);
      GotoKeepsInv(s, id, p);
    }
  }

  lemma ApplyKeepsInv(s: State, e: Event)
    requires Inv(s)
    ensures Inv(Apply(s, e))
  {
    match e
    case Begin(id, now, holder, owner) =>
      if id !in s.attempts { BeginKeepsInv(s, id, Attempt(now, HolderName(holder), owner, GetFirst)); }
    case Advance(id) => if id in s.attempts { NextKeepsInv(s, id); }
    case Crash(id) =>
      if id in s.attempts && !s.attempts[id].step.Done? { GotoKeepsInv(s, id, Done(Failed)); }
  }

  lemma BeginKeepsInv(s: State, id: nat, a: Attempt)
    requires Inv(s) && id !in s.attempts && a.step == GetFirst
    ensures Inv(s.(attempts := s.attempts[id := a]))
  {
    BeginKeepsTraced(s, id, a);
  }

  lemma BeginKeepsTraced(s: State, id: nat, a: Attempt)
    requires Traced(s) && id !in s.attempts && a.step == GetFirst
    ensures Traced(s.(attempts := s.attempts[id := a]))
  {
    var s' := s.(attempts := s.attempts[id := a]);
    forall k | k in s'.attempts && Holds(s'.attempts[k])
      ensures exists i :: 0 <= i < |s'.grants| && s'.grants[i].attempt == k
    {
      assert k in s.attempts && Holds(s.attempts[k]);
    }
  }

  lemma {:induction false} RunKeepsInv(s: State, events: seq<Event>)
    requires Inv(s)
    ensures Inv(Run(s, events))
    decreases events
  {
    if events != [] {
      ApplyKeepsInv(s, events[0]);
      RunKeepsInv(Apply(s, events[0]), events[1..]);
    }
  }

  // ---------------------------------------------------------------- exclusion

  /** Over every interleaving, any two writes of the Lease are a full window apart: the
      later clock lies strictly past the earlier window, and the windows
      `[stamp, stamp + window)` the Lease itself shows are disjoint. */
  lemma LeaseExclusion(s: State, events: seq<Event>)
    requires Initial(s)
    ensures var g := Run(s, events).grants;
      forall i, j :: 0 <= i < j < |g| ==>
        g[j].clock > g[i].stamp + g[i].window && g[j].stamp >= g[i].stamp + g[i].window
  {
    RunKeepsInv(s, events);
    var g := Run(s, events).grants;
    forall i, j | 0 <= i < j < |g| ensures g[j].stamp >= g[i].stamp + g[i].window {
      StampPast(g[i], g[j]);
    }
  }

  lemma StampPast(g: Grant, h: Grant)
    requires g.stamp == StoredMicroTime(g.clock) && g.window % MICROSECOND == 0
    requires h.stamp == StoredMicroTime(h.clock) && h.clock > g.stamp + g.window
    ensures h.stamp >= g.stamp + g.window
  {
    WholeSum(g.stamp, g.window);
    CutAfterWhole(g.stamp + g.window, h.clock);
  }

  predicate Acquired(a: Attempt) {
    a.step == Done(Created) || a.step == Done(TakenOver)
  }

  /** Two attempts that both report success each wrote the Lease once, and the later of
      the two writes came with a clock past the whole window of the earlier; even when
      they go by the same holder name and the confirming read cannot tell them apart. */
  lemma AcquisitionsDisjoint(s: State, events: seq<Event>, x: nat, y: nat) returns (i: nat, j: nat)
    requires Initial(s) && x != y
    requires var f := Run(s, events); x in f.attempts && y in f.attempts && Acquired(f.attempts[x]) && Acquired(f.attempts[y])
    ensures var f := Run(s, events);
      && i < |f.grants| && j < |f.grants| && i != j
      && WroteAs(f, i, x) && WroteAs(f, j, y)
      && (if i < j then f.attempts[y].now > f.grants[i].stamp + f.grants[i].window
          else f.attempts[x].now > f.grants[j].stamp + f.grants[j].window)
  {
    RunKeepsInv(s, events);
    var f := Run(s, events);
    i := GrantOf(f, x);
    j := GrantOf(f, y);
  }

  /** Grant i is the attempt's, at its clock, and lasts longer than a second. */
  ghost predicate WroteAs(f: State, i: nat, x: nat)
    requires i < |f.grants| && x in f.attempts
  {
    var g := f.grants[i];
    g.attempt == x && g.clock == f.attempts[x].now && g.stamp == StoredMicroTime(g.clock) && g.window > SECOND
  }

  lemma GrantOf(f: State, x: nat) returns (i: nat)
    requires Inv(f) && x in f.attempts && Holds(f.attempts[x])
    ensures i < |f.grants| && WroteAs(f, i, x)
  {
    i :| 0 <= i < |f.grants| && f.grants[i].attempt == x;
  }

  /** The stamps can touch: the Lease keeps whole microseconds, so a takeover shows a
      strict gap exactly when it read the clock a full microsecond past the window. */
  lemma StrictStampGap(l: Lease, now: Clock)
    requires LastTime(l) > 0 && LastTime(l) % MICROSECOND == 0 && Stale(l, now)
    ensures StoredMicroTime(now) > LastTime(l) + Window(l) <==> now >= LastTime(l) + Window(l) + MICROSECOND
  {
    WindowBounds(l);
  }

  lemma TouchingStampsExample()
    ensures var l := NewLease(Owner("exp", "u1"), "fi-operator", UNIX_EPOCH);
      var now := UNIX_EPOCH + 70 * SECOND + 1;
      Stale(l, now) && LastTime(Renewed(l, l.owner, "fi-operator", now)) == LastTime(l) + Window(l)
  {
  }

  // ---------------------------------------------------------------- one caller alone

  /** What the call amounts to when nobody interferes. */
  function Acquire(lease: Option<Lease>, owner: Owner, holder: string, now: int): (Option<Lease>, bool) {
    if lease.None? then (Some(NewLease(owner, holder, now)), true)
    else if Stale(lease.value, now) then (Some(Renewed(lease.value, owner, holder, now)), true)
    else (lease, false)
  }

  /** Past the time of its renewal, or failing that of its acquisition, by its duration and
      a skew of ten seconds at most; or without either time. */
  predicate Lapsed(l: Lease, now: int) {
    var dur := (if l.seconds.Some? && l.seconds.value > 0 then l.seconds.value else 60) * 1_000_000_000;
    var skew := if dur < 10_000_000_000 then dur else 10_000_000_000;
    var last := if l.renewTime.Some? then l.renewTime else l.acquireTime;
    last.Some? && last.value != 0 ==> now > last.value + dur + skew
  }

  /** The Lease is had exactly when there is none or it has lapsed; it then names its owner,
      its holder and the time, for 60 seconds or for as long as it did before. */
  lemma AcquireExact(lease: Option<Lease>, owner: Owner, identity: string, now: int)
    ensures HolderName(identity) != ""
    ensures var (lease1, acquired) := Acquire(lease, owner, HolderName(identity), now);
      && (acquired <==> lease.Some? ==> Lapsed(lease.value, now))
      && (if acquired then
            && lease1.Some? && lease1.value.owner == owner && lease1.value.holder == Some(HolderName(identity))
            && lease1.value.renewTime == Some(StoredMicroTime(now)) && lease1.value.acquireTime == Some(StoredMicroTime(now))
            && EffectiveSeconds(lease1.value) == if lease.Some? then EffectiveSeconds(lease.value) else 60
          else lease1 == lease)
  {
    if lease.Some? { WindowBounds(lease.value); }
  }

  /** An attempt left alone settles within five calls, on just that outcome. */
  lemma AloneAgrees(s: State, id: nat)
    requires id in s.attempts && s.attempts[id].step == GetFirst
    ensures var f := Run(s, seq(5, _ => Advance(id)));
      var a := s.attempts[id];
      && id in f.attempts && f.attempts[id].step.Done?
      && (f.lease, Acquired(f.attempts[id])) == Acquire(s.lease, a.owner, a.holder, a.now)
  {
    var e := Advance(id);
    var es := seq(5, _ => Advance(id));
    assert es == [e, e, e, e, e];
    var s1 := NextStep(s, id);
    var s2 := NextStep(s1, id);
    var s3 := NextStep(s2, id);
    var s4 := NextStep(s3, id);
    var s5 := NextStep(s4, id);
    assert Run(s, es) == Run(s1, [e, e, e, e]) by { assert es[1..] == [e, e, e, e]; }
    assert Run(s1, [e, e, e, e]) == Run(s2, [e, e, e]) by { assert [e, e, e, e][1..] == [e, e, e]; }
    assert Run(s2, [e, e, e]) == Run(s3, [e, e]) by { assert [e, e, e][1..] == [e, e]; }
    assert Run(s3, [e, e]) == Run(s4, [e]) by { assert [e, e][1..] == [e]; }
    assert Run(s4, [e]) == Run(s5, []) by { assert [e][1..] == []; }
  }

  /** An update that meets a changed Lease leaves it alone, and is tried again while tries
      are left: undisturbed from then on, it settles on what the Lease now allows. With none
      left it fails. */
  lemma ConflictIsRetried(s: State, id: nat)
    requires id in s.attempts && s.attempts[id].step.TryUpdate? && s.lease.Some? && s.version != s.attempts[id].step.version
    ensures NextStep(s, id).lease == s.lease
    ensures s.attempts[id].step.left <= 1 ==> NextStep(s, id).attempts[id].step == Done(Failed)
    ensures s.attempts[id].step.left > 1 ==>
      var f := Run(s, seq(4, _ => Advance(id)));
      var a := s.attempts[id];
      && id in f.attempts && f.attempts[id].step.Done?
      && (f.lease, Acquired(f.attempts[id])) == Acquire(s.lease, a.owner, a.holder, a.now)
  {
    var e := Advance(id);
    var es := seq(4, _ => Advance(id));
    assert es == [e, e, e, e];
    var s1 := NextStep(s, id);
    var s2 := NextStep(s1, id);
    var s3 := NextStep(s2, id);
    var s4 := NextStep(s3, id);
    assert Run(s, es) == Run(s1, [e, e, e]) by { assert es[1..] == [e, e, e]; }
    assert Run(s1, [e, e, e]) == Run(s2, [e, e]) by { assert [e, e, e][1..] == [e, e]; }
    assert Run(s2, [e, e]) == Run(s3, [e]) by { assert [e, e][1..] == [e]; }
    assert Run(s3, [e]) == Run(s4, []) by { assert [e][1..] == []; }
  }
}
