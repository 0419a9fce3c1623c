/** podFaultNames and fiShortID: deterministic Job and Lease names. */
module Names {
  import opened Wrappers
  import opened Helpers

  /** The identity of one experiment. */
  datatype Identity = Identity(ns: string, name: string, uid: string)

  function ShortID(h: Hash, fi: Identity): Option<string> {
    ShortHash(h, ShortIDKey(fi))
  }

  function Assemble(fiPart: string, actPart: string, tickPart: string): string {
    "fi-" + fiPart + "-pod-" + actPart + "-" + tickPart
  }

  /** The preferred form, before any length limit. */
  function ReadableName(fi: Identity, action: string, tick: string): string {
    Assemble(SanitizeName(fi.name), SanitizeName(action), SanitizeName(tick))
  }

  /** The name of the Job and of the Lease; None is the slice panic of a short hash. */
  function PodFaultName(h: Hash, fi: Identity, action: string, tick: string): Option<string> {
    var readable := ReadableName(fi, action, tick);
    if |readable| <= 63 then Some(readable)
    else HashedName(h, fi, action, tick)
  }

  /** The fallbacks for long names. */
  function HashedName(h: Hash, fi: Identity, action: string, tick: string): Option<string> {
    var f, a, t := ShortID(h, fi), SafeLabelValue(h, action), SafeLabelValue(h, tick);
    if f.None? || a.None? || t.None? then None
    else if |Assemble(f.value, a.value, t.value)| <= 63 then Some(Assemble(f.value, a.value, t.value))
    else
      var a10, t10 := ShortHash(h, action), ShortHash(h, tick);
      if a10.None? || t10.None? then None else Some(Assemble(f.value, a10.value, t10.value))
  }

  /** A DNS label (sections 2.3.1 and 2.3.4 of RFC 1035). */
  ghost predicate IsDnsLabel(s: string) {
    IsLabelText(s) && |s| <= 63
  }

  lemma AssembleLabel(f: string, a: string, t: string)
    requires IsLabelText(f) && IsLabelText(a) && IsLabelText(t)
    ensures IsLabelText(Assemble(f, a, t))
    ensures |Assemble(f, a, t)| == 9 + |f| + |a| + |t|
  {
    var s := Assemble(f, a, t);
    assert s[0] == 'f';
    assert s[|s| - 1] == t[|t| - 1];
    assert forall c :: c in "fi-" || c in "-pod-" ==> IsDigit36(c) || c == '-';
  }

  lemma ShortIDSound(h: Hash, fi: Identity)
    ensures var r := ShortID(h, fi); r.Some? ==> IsLabelText(r.value) && |r.value| == 10
  {
    ShortHashSound(h, ShortIDKey(fi));
  }

  /** Every name that is produced is a DNS label, whichever of the three forms it took. */
  lemma PodFaultNameValid(h: Hash, fi: Identity, action: string, tick: string)
    ensures var r := PodFaultName(h, fi, action, tick); r.Some? ==> IsDnsLabel(r.value)
  {
    if |ReadableName(fi, action, tick)| <= 63 {
      SanitizeYieldsLabel(fi.name);
      SanitizeYieldsLabel(action);
      SanitizeYieldsLabel(tick);
      AssembleLabel(SanitizeName(fi.name), SanitizeName(action), SanitizeName(tick));
    } else {
      HashedNameValid(h, fi, action, tick);
    }
  }

  lemma HashedNameValid(h: Hash, fi: Identity, action: string, tick: string)
    ensures var r := HashedName(h, fi, action, tick); r.Some? ==> IsDnsLabel(r.value)
  {
    var f, a, t := ShortID(h, fi), SafeLabelValue(h, action), SafeLabelValue(h, tick);
    if f.Some? && a.Some? && t.Some? {
      ShortIDSound(h, fi);
      if |Assemble(f.value, a.value, t.value)| <= 63 {
        SafeLabelSound(h, action);
        SafeLabelSound(h, tick);
        AssembleLabel(f.value, a.value, t.value);
      } else {
        HashPairValid(f.value, ShortHash(h, action), ShortHash(h, tick)) by {
          ShortHashSound(h, action);
          ShortHashSound(h, tick);
        }
      }
    }
  }

  lemma HashPairValid(f: string, a: Option<string>, t: Option<string>)
    requires IsLabelText(f) && |f| == 10
    requires a.Some? ==> |a.value| == 10 && IsNumeral36(a.value)
    requires t.Some? ==> |t.value| == 10 && IsNumeral36(t.value)
    ensures a.Some? && t.Some? ==> IsDnsLabel(Assemble(f, a.value, t.value))
  {
    if a.Some? && t.Some? { AssembleLabel(f, a.value, t.value); }
  }

  /** What fiShortID hashes. */
  function ShortIDKey(fi: Identity): string {
    var uid := TrimSpace(fi.uid);
    if uid == "" then TrimSpace(fi.ns + "/" + fi.name) else uid
  }

  /** Experiments with different uids hash different texts; without uids, it is namespace
      and name that tell. */
  lemma ShortIDKeyTells(x: Identity, y: Identity)
    ensures TrimSpace(x.uid) != "" && TrimSpace(y.uid) != "" ==> (ShortIDKey(x) == ShortIDKey(y) <==> TrimSpace(x.uid) == TrimSpace(y.uid))
    ensures TrimSpace(x.uid) == "" && TrimSpace(y.uid) == "" ==>
      (ShortIDKey(x) == ShortIDKey(y) <==> TrimSpace(x.ns + "/" + x.name) == TrimSpace(y.ns + "/" + y.name))
  {
  }

  /** The least hash whose base-36 numeral can be cut to 10 digits. */
  const SHORTEST_CUT: nat := 101559956668416

  function SlugLength(s: string): nat {
    if |SanitizeName(s)| <= 63 then |SanitizeName(s)| else 63
  }

  /** The name fits as it is, or every hash its shorter forms need can be cut. */
  predicate Nameable(h: Hash, fi: Identity, action: string, tick: string) {
    || |ReadableName(fi, action, tick)| <= 63
    || (&& h(ShortIDKey(fi)) >= SHORTEST_CUT
        && (|SanitizeName(action)| > 63 ==> h(SanitizeName(action)) >= SHORTEST_CUT)
        && (|SanitizeName(tick)| > 63 ==> h(SanitizeName(tick)) >= SHORTEST_CUT)
        && (19 + SlugLength(action) + SlugLength(tick) > 63 ==> h(action) >= SHORTEST_CUT && h(tick) >= SHORTEST_CUT))
  }

  lemma SlugSound(h: Hash, s: string)
    ensures SafeLabelValue(h, s).Some? <==> |SanitizeName(s)| <= 63 || h(SanitizeName(s)) >= SHORTEST_CUT
    ensures SafeLabelValue(h, s).Some? ==> |SafeLabelValue(h, s).value| == SlugLength(s)
  {
    ShortHashSound(h, SanitizeName(s));
  }

  /** Exactly when a name is produced, and not the panic of a short hash. */
  lemma PodFaultNameDefined(h: Hash, fi: Identity, action: string, tick: string)
    ensures PodFaultName(h, fi, action, tick).Some? <==> Nameable(h, fi, action, tick)
  {
    if |ReadableName(fi, action, tick)| > 63 {
      ShortHashSound(h, ShortIDKey(fi));
      SlugSound(h, action);
      SlugSound(h, tick);
      ShortHashSound(h, action);
      ShortHashSound(h, tick);
    }
  }

  const ONESHOT := "oneshot"

  /** The tick ids the controller uses: "oneshot", or a decimal tick index. */
  ghost predicate IsTickID(t: string) {
    t == ONESHOT || exists n: nat :: t == Decimal(n)
  }

  lemma TickIDPlain(t: string)
    requires IsTickID(t)
    ensures t != "" && '-' !in t && SanitizeName(t) == t
  {
    if t != ONESHOT {
      var n: nat :| t == Decimal(n);
      DecimalDigits(n);
      assert t[0] in t && t[|t| - 1] in t;
    }
    SanitizeKeepsLabel(t);
  }

  /** A dash-free tail can be split off again. */
  lemma LastDash(x: string, t: string, y: string, u: string)
    requires '-' !in t && '-' !in u && x + "-" + t == y + "-" + u
    ensures x == y && t == u
  {
    var s, r := x + "-" + t, y + "-" + u;
    assert s[|x|] == '-' && r[|y|] == '-';
    assert forall i :: |x| < i < |s| ==> s[i] == t[i - |x| - 1] && s[i] in t;
    assert forall i :: |y| < i < |r| ==> r[i] == u[i - |y| - 1] && r[i] in u;
    assert |x| == |y|;
    assert s[..|x|] == x && r[..|y|] == y;
    assert s[|x| + 1..] == t && r[|y| + 1..] == u;
  }

  /** Within one experiment the readable form tells ticks apart exactly, and actions as
      far as sanitizeName does. */
  lemma ReadableNameInjective(fi: Identity, a: string, t: string, b: string, u: string)
    requires IsTickID(t) && IsTickID(u)
    ensures ReadableName(fi, a, t) == ReadableName(fi, b, u)
       <==> SanitizeName(a) == SanitizeName(b) && t == u
  {
    TickIDPlain(t);
    TickIDPlain(u);
    AssembledTells(SanitizeName(fi.name), SanitizeName(a), t, SanitizeName(b), u);
  }

  lemma AssembledTells(f: string, a: string, t: string, b: string, u: string)
    requires '-' !in t && '-' !in u
    ensures Assemble(f, a, t) == Assemble(f, b, u) <==> a == b && t == u
  {
    var head := "fi-" + f + "-pod-";
    if Assemble(f, a, t) == Assemble(f, b, u) {
      var x, y := head + a, head + b;
      assert x + "-" + t == Assemble(f, a, t) && y + "-" + u == Assemble(f, b, u);
      LastDash(x, t, y, u);
      assert x[|head|..] == a && y[|head|..] == b;
    }
  }

  /** Too long even with the action's label: both action and tick are hashed. */
  predicate FullyHashed(h: Hash, action: string, tick: string) {
    SafeLabelValue(h, action).Some? && 19 + |SafeLabelValue(h, action).value| + |tick| > 63
  }

  /** Within one experiment, two long names of one form tell ticks and actions apart as far
      as labels and hashes do. */
  lemma LongNamesTell(h: Hash, fi: Identity, a: string, t: string, b: string, u: string)
    requires IsTickID(t) && IsTickID(u) && |t| <= 63 && |u| <= 63
    requires |ReadableName(fi, a, t)| > 63 && |ReadableName(fi, b, u)| > 63
    requires PodFaultName(h, fi, a, t).Some? && PodFaultName(h, fi, b, u).Some?
    ensures !FullyHashed(h, a, t) && !FullyHashed(h, b, u) ==>
      (PodFaultName(h, fi, a, t) == PodFaultName(h, fi, b, u) <==> SafeLabelValue(h, a) == SafeLabelValue(h, b) && t == u)
    ensures FullyHashed(h, a, t) && FullyHashed(h, b, u) ==>
      (PodFaultName(h, fi, a, t) == PodFaultName(h, fi, b, u) <==> ShortHash(h, a) == ShortHash(h, b) && ShortHash(h, t) == ShortHash(h, u))
  {
    var f := ShortID(h, fi).value;
    LongName(h, fi, a, t);
    LongName(h, fi, b, u);
    if !FullyHashed(h, a, t) && !FullyHashed(h, b, u) {
      TickIDPlain(t);
      TickIDPlain(u);
      AssembledTells(f, SafeLabelValue(h, a).value, t, SafeLabelValue(h, b).value, u);
    }
    if FullyHashed(h, a, t) && FullyHashed(h, b, u) {
      NumeralPlain(h, t);
      NumeralPlain(h, u);
      AssembledTells(f, ShortHash(h, a).value, ShortHash(h, t).value, ShortHash(h, b).value, ShortHash(h, u).value);
    }
  }

  lemma NumeralPlain(h: Hash, t: string)
    ensures ShortHash(h, t).Some? ==> '-' !in ShortHash(h, t).value
  {
    ShortHashSound(h, t);
  }

  lemma LongName(h: Hash, fi: Identity, a: string, t: string)
    requires IsTickID(t) && |t| <= 63 && |ReadableName(fi, a, t)| > 63 && PodFaultName(h, fi, a, t).Some?
    ensures ShortID(h, fi).Some? && SafeLabelValue(h, a).Some?
    ensures FullyHashed(h, a, t) ==> ShortHash(h, a).Some? && ShortHash(h, t).Some?
    ensures PodFaultName(h, fi, a, t).value
         == if FullyHashed(h, a, t) then Assemble(ShortID(h, fi).value, ShortHash(h, a).value, ShortHash(h, t).value)
            else Assemble(ShortID(h, fi).value, SafeLabelValue(h, a).value, t)
  {
    TickIDPlain(t);
    ShortIDSound(h, fi);
  }

  /** Across experiments of one namespace the readable form tells no more than where its
      parts meet: two share a Job and a Lease exactly when the texts around "-pod-" come
      out the same. */
  lemma ReadableNameShared(x: Identity, a: string, t: string, y: Identity, b: string, u: string)
    requires IsTickID(t) && IsTickID(u)
    ensures ReadableName(x, a, t) == ReadableName(y, b, u)
       <==> t == u && SanitizeName(x.name) + "-pod-" + SanitizeName(a) == SanitizeName(y.name) + "-pod-" + SanitizeName(b)
  {
    TickIDPlain(t);
    TickIDPlain(u);
    AssembledShared(SanitizeName(x.name), SanitizeName(a), t, SanitizeName(y.name), SanitizeName(b), u);
  }

  lemma AssembledShared(f: string, a: string, t: string, g: string, b: string, u: string)
    requires '-' !in t && '-' !in u
    ensures Assemble(f, a, t) == Assemble(g, b, u) <==> t == u && f + "-pod-" + a == g + "-pod-" + b
  {
    var p, q := "fi-" + (f + "-pod-" + a), "fi-" + (g + "-pod-" + b);
    assert Assemble(f, a, t) == p + "-" + t && Assemble(g, b, u) == q + "-" + u;
    if Assemble(f, a, t) == Assemble(g, b, u) {
      LastDash(p, t, q, u);
      assert p[3..] == f + "-pod-" + a && q[3..] == g + "-pod-" + b;
    }
  }

  /** So whenever one experiment's name goes on after "-pod-" from another's. */
  lemma NestedNamesShare(x: Identity, y: Identity, f: string, m: string, c: string, t: string)
    requires IsLabelText(f) && IsLabelText(m) && IsLabelText(c) && IsTickID(t)
    requires x.name == f && y.name == f + "-pod-" + m
    ensures ReadableName(x, m + "-pod-" + c, t) == ReadableName(y, c, t)
  {
    JoinedLabel(f, m);
    JoinedLabel(m, c);
    SanitizeKeepsLabel(f);
    SanitizeKeepsLabel(c);
    SanitizeKeepsLabel(f + "-pod-" + m);
    SanitizeKeepsLabel(m + "-pod-" + c);
    TickIDPlain(t);
    NestedTexts(f, m, c);
    AssembledShared(f, m + "-pod-" + c, t, f + "-pod-" + m, c, t);
  }

  lemma NestedTexts(f: string, m: string, c: string)
    ensures f + "-pod-" + (m + "-pod-" + c) == (f + "-pod-" + m) + "-pod-" + c
  {
  }

  lemma JoinedLabel(a: string, b: string)
    requires IsLabelText(a) && IsLabelText(b)
    ensures IsLabelText(a + "-pod-" + b)
  {
    assert forall c :: c in "-pod-" ==> IsDigit36(c) || c == '-';
    var s := a + "-pod-" + b;
    assert s[0] == a[0] && s[|s| - 1] == b[|b| - 1];
  }
}
