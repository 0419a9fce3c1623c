/** pod_fault.go: which pods a tick hits, and how many. */
module PodSelection {
  import opened Wrappers
  import opened Machine
  import opened Ordering
  import opened Api

  // ---------------------------------------------------------------- caps

  /** capEffectiveMaxPods: the tightest positive cap, 0 for none. */
  function EffectiveCap(blastCap: int64, s: Selection, windowCap: Option<int32>): int32 {
    var c0 := if blastCap <= 0 then 0 else if blastCap > MAX_INT32 then MAX_INT32 else blastCap;
    var c1 := Tighter(c0, if s.maxPodsAffected.Some? then s.maxPodsAffected.value else 0);
    Tighter(c1, if windowCap.Some? then windowCap.value else 0)
  }

  function Tighter(cap: int32, next: int32): int32 {
    if next > 0 && (cap == 0 || next < cap) then next else cap
  }

  method CapEffectiveMaxPods(spec: Spec, a: PodAction, mode: string) returns (effectiveMax: int32)
    ensures effectiveMax == EffectiveCap(spec.maxPodsAffected, a.selection, WindowCap(a, mode))
  {
    effectiveMax := 0;
    if spec.maxPodsAffected > 0 {
      if spec.maxPodsAffected > MAX_INT32 {
        effectiveMax := MAX_INT32;
      } else {
        effectiveMax := spec.maxPodsAffected;
      }
    }
    if a.selection.maxPodsAffected.Some? && a.selection.maxPodsAffected.value > 0 {
      if effectiveMax == 0 || a.selection.maxPodsAffected.value < effectiveMax {
        effectiveMax := a.selection.maxPodsAffected.value;
      }
    }
    if mode == WINDOWED && a.window.Some? && a.window.value.maxTotalPodsAffected > 0 {
      if effectiveMax == 0 || a.window.value.maxTotalPodsAffected < effectiveMax {
        effectiveMax := a.window.value.maxTotalPodsAffected;
      }
    }
  }

  function WindowCap(a: PodAction, mode: string): Option<int32> {
    if mode == WINDOWED && a.window.Some? then Some(a.window.value.maxTotalPodsAffected) else None
  }

  predicate Caps(blastCap: int64, s: Selection, windowCap: Option<int32>, c: int) {
    c > 0 && (c == blastCap || s.maxPodsAffected == Some(c) || windowCap == Some(c))
  }

  /** The effective cap is the least of the positive configured caps, 0 exactly when
      there is none; saturation to 32 bits never loosens it. */
  lemma EffectiveCapIsLeast(blastCap: int64, s: Selection, windowCap: Option<int32>)
    ensures var r := EffectiveCap(blastCap, s, windowCap);
      && (forall c: int :: Caps(blastCap, s, windowCap, c) ==> 0 < r <= c)
      && (r > 0 ==> Caps(blastCap, s, windowCap, r) || (r == MAX_INT32 < blastCap))
      && r >= 0
  {
  }

  // ---------------------------------------------------------------- candidates

  datatype Pod = Pod(name: string, terminating: bool)

  function PodName(p: Pod): string { p.name }

  function Live(pods: seq<Pod>): seq<Pod> {
    if pods == [] then []
    else (if pods[0].terminating then [] else [pods[0]]) + Live(pods[1..])
  }

  function Candidates(pods: seq<Pod>): seq<Pod> {
    StableSort(Live(pods), PodName)
  }

  /** listCandidatePods over one listing of the namespace. */
  method ListCandidatePods(items: seq<Pod>) returns (out: seq<Pod>)
    ensures out == Candidates(items)
  {
    out := [];
    for i := 0 to |items|
      invariant out == Live(items[..i])
    {
      LiveNext(items, i);
      if !items[i].terminating {
        out := out + [items[i]];
      }
    }
    assert items[..|items|] == items;
    out := StableSort(out, PodName);
  }

  lemma {:induction false} LiveAppend(a: seq<Pod>, p: Pod)
    ensures Live(a + [p]) == Live(a) + if p.terminating then [] else [p]
  {
    if a == [] {
      assert [] + [p] == [p] && [p][1..] == [];
    } else {
      assert (a + [p])[0] == a[0] && (a + [p])[1..] == a[1..] + [p];
      LiveAppend(a[1..], p);
      Regrouped(if a[0].terminating then [] else [a[0]], Live(a[1..]), if p.terminating then [] else [p]);
    }
  }

  lemma Regrouped(a: seq<Pod>, b: seq<Pod>, c: seq<Pod>)
    ensures (a + b) + c == a + (b + c)
  {
  }

  lemma LiveNext(items: seq<Pod>, i: nat)
    requires i < |items|
    ensures Live(items[..i + 1]) == Live(items[..i]) + if items[i].terminating then [] else [items[i]]
  {
    assert items[..i + 1] == items[..i] + [items[i]];
    LiveAppend(items[..i], items[i]);
  }

  lemma {:induction false} LivePermuted(a: seq<Pod>, b: seq<Pod>)
    requires multiset(a) == multiset(b)
    ensures multiset(Live(a)) == multiset(Live(b))
  {
    forall p: Pod ensures multiset(Live(a))[p] == multiset(Live(b))[p] {
      LiveCounts(a, p);
      LiveCounts(b, p);
    }
  }

  lemma {:induction false} LiveCounts(a: seq<Pod>, p: Pod)
    ensures multiset(Live(a))[p] == if p.terminating then 0 else multiset(a)[p]
  {
    if a != [] {
      assert a == [a[0]] + a[1..];
      LiveCounts(a[1..], p);
    }
  }

  // ---------------------------------------------------------------- how many

  /** How many of `n` candidates the selection asks for, before caps. A plan carries no
      mode; a count that is present wins over a percentage. */
  function Wanted(n: nat, count: Option<int32>, percent: Option<int32>): int {
    if count.Some? then count.value
    else if percent.Some? then (n * percent.value + 99) / 100
    else 0
  }

  function Quota(n: nat, count: Option<int32>, percent: Option<int32>, cap: int32): nat {
    var want := Wanted(n, count, percent);
    if n == 0 || want < 1 then 0
    else
      var d := if want > n then n else want;
      if cap > 0 && d > cap then cap else d
  }

  function Select(candidates: seq<Pod>, count: Option<int32>, percent: Option<int32>, cap: int32): seq<string> {
    NamesOf(candidates[..Chosen(|candidates|, count, percent, cap)])
  }

  function Chosen(n: nat, count: Option<int32>, percent: Option<int32>, cap: int32): (k: nat)
    ensures k <= n
  {
    Quota(n, count, percent, cap)
  }

  function NamesOf(pods: seq<Pod>): (r: seq<string>)
    ensures |r| == |pods| && forall i :: 0 <= i < |pods| ==> r[i] == pods[i].name
  {
    seq(|pods|, i requires 0 <= i < |pods| => pods[i].name)
  }

  /** selectPodNamesDeterministically, with the mode the caller derives from the plan.
      `/` of a negative numerator truncates in Go and floors here; neither reaches 1. */
  method SelectPodNames(candidates: seq<Pod>, count: Option<int32>, percent: Option<int32>, maxPods: int32) returns (names: seq<string>)
    ensures names == Select(candidates, count, percent, maxPods)
  {
    var n := |candidates|;
    if n == 0 { return []; }
    var desired := 0;
    if count.Some? {
      desired := count.value;
    } else if percent.Some? {
      desired := (n * percent.value + 99) / 100;
    }
    if desired < 1 { return []; }
    if desired > n {
      desired := n;
    }
    if maxPods > 0 && desired > maxPods {
      desired := maxPods;
    }
    names := [];
    for i := 0 to desired
      invariant names == NamesOf(candidates[..i])
    {
      assert candidates[..i + 1] == candidates[..i] + [candidates[i]];
      names := names + [candidates[i].name];
    }
  }

  /** The order in which the API lists pods does not show: any listing of the same pods
      yields the same candidates, hence the same selection. */
  lemma SelectionIgnoresListingOrder(a: seq<Pod>, b: seq<Pod>, count: Option<int32>, percent: Option<int32>, cap: int32)
    requires multiset(a) == multiset(b) && DistinctKeys(Live(a), PodName)
    ensures Candidates(a) == Candidates(b)
    ensures Select(Candidates(a), count, percent, cap) == Select(Candidates(b), count, percent, cap)
  {
    LivePermuted(a, b);
    StableSortSound(Live(a), PodName);
    StableSortSound(Live(b), PodName);
    DistinctKeysPermuted(Live(a), Candidates(a), PodName);
    SortedUnique(Candidates(a), Candidates(b), PodName);
  }

  lemma CandidatesOrdered(pods: seq<Pod>)
    requires DistinctKeys(Live(pods), PodName)
    ensures var c := Candidates(pods);
      && multiset(c) == multiset(Live(pods)) && |c| == |Live(pods)|
      && forall i, j :: 0 <= i < j < |c| ==> Before(c[i].name, c[j].name)
  {
    var c := Candidates(pods);
    StableSortSound(Live(pods), PodName);
    SameLength(Live(pods), c);
    DistinctKeysPermuted(Live(pods), c, PodName);
    forall i, j | 0 <= i < j < |c| ensures Before(c[i].name, c[j].name) {
      assert !Before(PodName(c[j]), PodName(c[i])) && PodName(c[i]) != PodName(c[j]);
      BeforeTotal(c[i].name, c[j].name);
    }
  }

  /** The selection is the quota's worth of smallest live names: `k` names, all live, and
      no live name left out is smaller than one taken. */
  lemma SelectionIsSmallest(pods: seq<Pod>, count: Option<int32>, percent: Option<int32>, cap: int32)
    requires DistinctKeys(Live(pods), PodName)
    ensures var r := Select(Candidates(pods), count, percent, cap);
      && |r| == Quota(|Live(pods)|, count, percent, cap)
      && (forall x :: x in r ==> exists p :: p in Live(pods) && p.name == x)
      && (forall i, j :: 0 <= i < j < |r| ==> Before(r[i], r[j]))
      && (forall p, x :: p in Live(pods) && x in r && p.name !in r ==> Before(x, p.name))
  {
    CandidatesOrdered(pods);
    var c := Candidates(pods);
    var r := Select(c, count, percent, cap);
    forall x | x in r ensures exists p :: p in Live(pods) && p.name == x {
      var i :| 0 <= i < |r| && r[i] == x;
      assert c[i] in multiset(Live(pods));
    }
    forall p, x | p in Live(pods) && x in r && p.name !in r ensures Before(x, p.name) {
      TakenBeforeLeft(c, |r|, p, x);
    }
  }

  lemma TakenBeforeLeft(c: seq<Pod>, k: nat, p: Pod, x: string)
    requires k <= |c| && forall i, j :: 0 <= i < j < |c| ==> Before(c[i].name, c[j].name)
    requires p in multiset(c) && x in NamesOf(c[..k]) && p.name !in NamesOf(c[..k])
    ensures Before(x, p.name)
  {
    var j :| 0 <= j < |c| && c[j] == p;
    var i :| 0 <= i < k && NamesOf(c[..k])[i] == x;
    assert forall n :: 0 <= n < k ==> c[n].name == NamesOf(c[..k])[n] && c[n].name in NamesOf(c[..k]);
  }

  /** k = min(n, wanted, cap if positive), and k is within every configured cap. */
  lemma QuotaIsMinimum(n: nat, s: Selection, blastCap: int64, windowCap: Option<int32>)
    ensures var cap := EffectiveCap(blastCap, s, windowCap);
      var want := Wanted(n, s.count, s.percent);
      var k := Quota(n, s.count, s.percent, cap);
      && (want >= 1 && n > 0 ==> k == Min(n, if cap > 0 then Min(want, cap) else want))
      && (want < 1 || n == 0 ==> k == 0)
      && (forall c: int :: Caps(blastCap, s, windowCap, c) ==> k <= c)
  {
    EffectiveCapIsLeast(blastCap, s, windowCap);
  }

  /** More pods never mean a smaller quota. */
  lemma QuotaMonotone(m: nat, n: nat, count: Option<int32>, percent: Option<int32>, cap: int32)
    requires m <= n
    ensures Quota(m, count, percent, cap) <= Quota(n, count, percent, cap)
  {
    WantedMonotone(m, n, count, percent);
  }

  lemma WantedMonotone(m: nat, n: nat, count: Option<int32>, percent: Option<int32>)
    requires m <= n
    ensures Wanted(m, count, percent) <= Wanted(n, count, percent) || Wanted(m, count, percent) < 1
  {
    if count.None? && percent.Some? { ProductMonotone(m, n, percent.value); }
  }

  lemma ProductMonotone(m: nat, n: nat, p: int)
    requires m <= n
    ensures p >= 0 ==> m * p <= n * p
    ensures p < 0 ==> m * p <= 0
  {
  }

  function Min(a: int, b: int): int { if a < b then a else b }

  /** A PERCENT selection is sized by its percentage, however many pods there are, exactly
      when it carries no count: the plan drops the mode, and a count wins. */
  lemma PercentNeedsNoCount(count: Option<int32>, percent: int32)
    requires 1 <= percent <= 100
    ensures (forall n: nat :: Wanted(n, count, Some(percent)) == Wanted(n, None, Some(percent))) <==> count.None?
  {
    if count.Some? {
      assert Wanted(0, None, Some(percent)) == 0;
      assert Wanted(100, None, Some(percent)) == percent;
      assert Wanted(0, count, Some(percent)) == Wanted(100, count, Some(percent));
    }
  }

  /** ceil(n * percent / 100), and at least one pod of any non-empty set. */
  lemma PercentRoundsUp(n: nat, percent: int32)
    requires 1 <= percent <= 100
    ensures var k := Wanted(n, None, Some(percent));
      && 100 * (k - 1) < n * percent <= 100 * k
      && k <= n && (n > 0 ==> k >= 1)
  {
  }
}
