/** internal/controller/helpers.go: text and encoding helpers. */
module Helpers {
  import opened Wrappers
  import opened Machine
  import opened Ordering

  // ---------------------------------------------------------------- base 36

  const NUMERALS := "0123456789"
  const LETTERS := "abcdefghijklmnopqrstuvwxyz"
  const ALPHABET := NUMERALS + LETTERS

  predicate IsDigit36(c: char) {
    '0' <= c <= '9' || 'a' <= c <= 'z'
  }

  function DigitValue(c: char): nat
    requires IsDigit36(c)
  {
    if c <= '9' then c as int - '0' as int else c as int - 'a' as int + 10
  }

  lemma NumeralAt(d: nat)
    requires d < 10
    ensures NUMERALS[d] == ('0' as int + d) as char
  {
  }

  lemma LetterAt(d: nat)
    requires d < 26
    ensures LETTERS[d] == ('a' as int + d) as char
  {
  }

  /** The digit of a value. */
  function Digit36(d: nat): (c: char)
    requires d < 36
    ensures IsDigit36(c) && DigitValue(c) == d
  {
    if d < 10 then ('0' as int + d) as char else ('a' as int + (d - 10)) as char
  }

  /** `alphabet[d]`. */
  method AlphabetAt(d: nat) returns (c: char)
    requires d < 36
    ensures c == Digit36(d)
  {
    c := ALPHABET[d];
    if d < 10 {
      NumeralAt(d);
      assert ALPHABET[d] == NUMERALS[d];
    } else {
      LetterAt(d - 10);
      assert ALPHABET[d] == LETTERS[d - 10];
    }
  }

  predicate IsNumeral36(s: string) {
    forall c :: c in s ==> IsDigit36(c)
  }

  /** Positional value of a base-36 numeral. */
  function Decode36(s: string): nat
    requires IsNumeral36(s)
  {
    if s == "" then 0 else 36 * Decode36(s[..|s| - 1]) + DigitValue(s[|s| - 1])
  }

  function Digits36(v: nat): string {
    if v == 0 then "" else Digits36(v / 36) + [Digit36(v % 36)]
  }

  function Base36(v: nat): string {
    if v == 0 then "0" else Digits36(v)
  }

  function Pow36(n: nat): nat {
    if n == 0 then 1 else 36 * Pow36(n - 1)
  }

  /** The digits decode back, and their number is the magnitude of the value. */
  lemma {:induction false} DigitsExact(v: nat)
    ensures IsNumeral36(Digits36(v)) && Decode36(Digits36(v)) == v
    ensures forall n: nat :: |Digits36(v)| > n <==> v >= Pow36(n)
  {
    if v > 0 {
      DigitsExact(v / 36);
      var s := Digits36(v);
      assert s[..|s| - 1] == Digits36(v / 36);
      forall n: nat ensures |s| > n <==> v >= Pow36(n) {
        if n > 0 {
          assert |Digits36(v / 36)| > n - 1 <==> v / 36 >= Pow36(n - 1);
        }
      }
    } else {
      forall n: nat ensures v < Pow36(n) { Pow36Positive(n); }
    }
  }

  lemma {:induction false} Pow36Positive(n: nat)
    ensures Pow36(n) > 0
  {
    if n > 0 { Pow36Positive(n - 1); }
  }

  lemma Pow36Values()
    ensures Pow36(9) == 101559956668416
    ensures Pow36(13) > TWO64
  {
    assert Pow36(3) == 46656;
    assert Pow36(6) == 46656 * 46656 by { assert Pow36(5) == 36 * Pow36(4); }
    assert Pow36(9) == 46656 * 46656 * 46656 by { assert Pow36(8) == 36 * Pow36(7); }
    assert Pow36(12) == 36 * 36 * 36 * Pow36(9) by { assert Pow36(11) == 36 * Pow36(10); }
  }

  /** base36u64 is exact and bounded for every 64-bit value, and long enough for the
      `[:10]` slices exactly from 36^9 on. */
  lemma Base36Exact(v: uint64)
    ensures IsNumeral36(Base36(v)) && Decode36(Base36(v)) == v
    ensures 1 <= |Base36(v)| <= 13
    ensures |Base36(v)| >= 10 <==> v >= 101559956668416
  {
    DigitsExact(v);
    Pow36Values();
    if v == 0 {
      assert "0"[..0] == "";
    } else {
      assert |Digits36(v)| > 0;
      assert !(|Digits36(v)| > 13);
      assert |Digits36(v)| > 9 <==> v >= Pow36(9);
    }
  }

  lemma Base36Injective(v: uint64, w: uint64)
    requires Base36(v) == Base36(w)
    ensures v == w
  {
    Base36Exact(v);
    Base36Exact(w);
  }

  /** The in-place loop: fill a 13-byte buffer from the right. That the index stays in
      the buffer is part of what is verified. */
  method EncodeBase36(value: uint64) returns (s: string)
    ensures s == Base36(value)
  {
    if value == 0 { return "0"; }
    ghost var digits, q := Places(value);
    Base36Exact(value);
    var b := new char[13];
    var i, v := 13, value as int;
    while v > 0
      invariant 13 - |digits| <= i <= 13 && v == q[13 - i]
      invariant forall k :: i <= k < 13 ==> b[k] == digits[|digits| - 13 + k]
    {
      i := i - 1;
      b[i] := AlphabetAt(v % 36);
      v := v / 36;
    }
    assert b[i..] == digits;
    return b[i..];
  }

  /** The digits, from the last one on, are those of the quotients by 36. */
  lemma {:induction false} Places(v: nat) returns (digits: string, q: seq<nat>)
    ensures digits == Digits36(v) && |q| == |digits| + 1 && q[0] == v && q[|digits|] == 0
    ensures forall j :: 0 <= j < |digits| ==> q[j] > 0 && q[j + 1] == q[j] / 36 && digits[|digits| - 1 - j] == Digit36(q[j] % 36)
  {
    if v == 0 {
      digits, q := "", [0];
    } else {
      var front, rest := Places(v / 36);
      digits, q := front + [Digit36(v % 36)], [v] + rest;
    }
  }

  /** FNV-1a is not modelled: the hash is any function from text to 64 bits. */
  type Hash = string -> uint64

  /** `base36u64(h(s))[:10]`; None is the slice-bounds panic. */
  function ShortHash(h: Hash, s: string): Option<string> {
    var t := Base36(h(s));
    if |t| >= 10 then Some(t[..10]) else None
  }

  lemma ShortHashSound(h: Hash, s: string)
    ensures ShortHash(h, s).Some? <==> h(s) >= 101559956668416
    ensures ShortHash(h, s).Some? ==> |ShortHash(h, s).value| == 10 && IsNumeral36(ShortHash(h, s).value)
  {
    Base36Exact(h(s));
  }

  /** The cut keeps the leading digits: it is the value without its last digits. */
  lemma ShortHashLeads(h: Hash, s: string) returns (e: nat)
    requires ShortHash(h, s).Some?
    ensures IsNumeral36(ShortHash(h, s).value)
    ensures Decode36(ShortHash(h, s).value) * Pow36(e) <= h(s) < (Decode36(ShortHash(h, s).value) + 1) * Pow36(e)
  {
    e := CutLeads(h(s), 10);
  }

  lemma {:induction false} CutLeads(v: nat, k: nat) returns (e: nat)
    requires 0 < k <= |Digits36(v)|
    ensures IsNumeral36(Digits36(v)[..k])
    ensures Decode36(Digits36(v)[..k]) * Pow36(e) <= v < (Decode36(Digits36(v)[..k]) + 1) * Pow36(e)
  {
    if k == |Digits36(v)| {
      e := 0;
      DigitsExact(v);
      assert Digits36(v)[..k] == Digits36(v);
    } else {
      var d := CutLeads(v / 36, k);
      assert Digits36(v)[..k] == Digits36(v / 36)[..k];
      OneMoreDigit(v, Decode36(Digits36(v)[..k]), Pow36(d));
      e := d + 1;
    }
  }

  lemma OneMoreDigit(v: nat, n: nat, p: nat)
    requires n * p <= v / 36 < (n + 1) * p
    ensures n * (36 * p) <= v < (n + 1) * (36 * p)
  {
    assert n * (36 * p) == 36 * (n * p) && (n + 1) * (36 * p) == 36 * ((n + 1) * p);
  }

  // ---------------------------------------------------------------- decimal

  /** `%d` of a non-negative number. */
  function Decimal(n: nat): string {
    if n < 10 then [('0' as int + n) as char]
    else Decimal(n / 10) + [('0' as int + n % 10) as char]
  }

  lemma {:induction false} DecimalDigits(n: nat)
    ensures Decimal(n) != "" && forall c :: c in Decimal(n) ==> '0' <= c <= '9'
  {
    if n >= 10 { DecimalDigits(n / 10); }
  }

  /** Positional value of a decimal numeral. */
  function Decode10(s: string): int {
    if s == "" then 0 else 10 * Decode10(s[..|s| - 1]) + (s[|s| - 1] as int - '0' as int)
  }

  lemma {:induction false} DecimalExact(n: nat)
    ensures Decode10(Decimal(n)) == n
  {
    var s := Decimal(n);
    if n < 10 {
      assert s[..0] == "";
    } else {
      DecimalExact(n / 10);
      assert s[..|s| - 1] == Decimal(n / 10);
    }
  }

  lemma {:induction false} DecimalInjective(m: nat, n: nat)
    requires Decimal(m) == Decimal(n)
    ensures m == n
  {
    var s := Decimal(m);
    assert s[|s| - 1] == ('0' as int + m % 10) as char == ('0' as int + n % 10) as char;
    if m >= 10 || n >= 10 {
      if m >= 10 { DecimalDigits(m / 10); }
      if n >= 10 { DecimalDigits(n / 10); }
      assert s[..|s| - 1] == Decimal(m / 10) == Decimal(n / 10);
      DecimalInjective(m / 10, n / 10);
    }
  }

  // ---------------------------------------------------------------- sanitizeName

  function MapChars(s: string, f: char -> char): (r: string)
    ensures |r| == |s| && forall i :: 0 <= i < |s| ==> r[i] == f(s[i])
  {
    seq(|s|, i requires 0 <= i < |s| => f(s[i]))
  }

  function TrimLeft(s: string, drop: char -> bool): string {
    if s != "" && drop(s[0]) then TrimLeft(s[1..], drop) else s
  }

  function TrimRight(s: string, drop: char -> bool): string {
    if s != "" && drop(s[|s| - 1]) then TrimRight(s[..|s| - 1], drop) else s
  }

  function Trim(s: string, drop: char -> bool): string {
    TrimRight(TrimLeft(s, drop), drop)
  }

  predicate IsSpace(c: char) { c == ' ' || '\t' <= c <= '\r' }
  predicate IsDash(c: char) { c == '-' }

  function ToLower(c: char): char {
    if 'A' <= c <= 'Z' then (c as int + 32) as char else c
  }

  function Safe(c: char): char {
    if IsDigit36(c) || c == '-' then c else '-'
  }

  function TrimSpace(s: string): string { Trim(s, IsSpace) }

  function Replace(s: string, from: char, to: char): string {
    MapChars(s, c => if c == from then to else c)
  }

  function SanitizeName(s: string): string {
    var lowered := MapChars(TrimSpace(s), ToLower);
    var dashed := Replace(Replace(lowered, '_', '-'), ' ', '-');
    var t := Trim(MapChars(dashed, Safe), IsDash);
    if t == "" then "x" else t
  }

  /** What a DNS label may look like apart from its length (section 2.3.1 of RFC 1035):
      lower-case letters, digits and inner dashes. */
  ghost predicate IsLabelText(s: string) {
    && s != "" && IsDigit36(s[0]) && IsDigit36(s[|s| - 1])
    && forall c :: c in s ==> IsDigit36(c) || c == '-'
  }

  lemma {:induction false} TrimLeftSound(s: string, drop: char -> bool)
    ensures var r := TrimLeft(s, drop); r == "" || !drop(r[0])
    ensures forall c :: c in TrimLeft(s, drop) ==> c in s
    ensures s != "" && !drop(s[0]) ==> TrimLeft(s, drop) == s
  {
    if s != "" && drop(s[0]) { TrimLeftSound(s[1..], drop); }
  }

  lemma {:induction false} TrimRightSound(s: string, drop: char -> bool)
    ensures var r := TrimRight(s, drop);
      && (r != "" ==> !drop(r[|r| - 1]) && s != "" && r[0] == s[0])
      && (forall c :: c in r ==> c in s)
      && (s != "" && !drop(s[|s| - 1]) ==> r == s)
  {
    if s != "" && drop(s[|s| - 1]) { TrimRightSound(s[..|s| - 1], drop); }
  }

  lemma TrimSound(s: string, drop: char -> bool)
    ensures var r := Trim(s, drop);
      && (r != "" ==> !drop(r[0]) && !drop(r[|r| - 1]))
      && (forall c :: c in r ==> c in s)
    ensures s != "" && !drop(s[0]) && !drop(s[|s| - 1]) ==> Trim(s, drop) == s
  {
    TrimLeftSound(s, drop);
    TrimRightSound(TrimLeft(s, drop), drop);
  }

  /** Every result is label text, and label text is exactly what is left alone;
      so sanitizeName is idempotent. */
  lemma SanitizeSound(s: string)
    ensures IsLabelText(SanitizeName(s))
    ensures SanitizeName(s) == s <==> IsLabelText(s)
    ensures SanitizeName(SanitizeName(s)) == SanitizeName(s)
  {
    SanitizeYieldsLabel(s);
    SanitizeKeepsLabel(SanitizeName(s));
    if IsLabelText(s) { SanitizeKeepsLabel(s); }
  }

  lemma SanitizeYieldsLabel(s: string)
    ensures IsLabelText(SanitizeName(s))
  {
    var lowered := MapChars(TrimSpace(s), ToLower);
    var dashed := Replace(Replace(lowered, '_', '-'), ' ', '-');
    var safe := MapChars(dashed, Safe);
    TrimSound(safe, IsDash);
    assert forall c :: c in safe ==> IsDigit36(c) || c == '-';
    var t := Trim(safe, IsDash);
    if t != "" {
      assert t[0] in t && t[|t| - 1] in t;
    }
  }

  lemma SanitizeKeepsLabel(s: string)
    requires IsLabelText(s)
    ensures SanitizeName(s) == s
  {
    TrimSound(s, IsSpace);
    assert forall i :: 0 <= i < |s| ==> s[i] in s;
    assert TrimSpace(s) == s;
    assert MapChars(s, ToLower) == s;
    assert Replace(s, '_', '-') == s && Replace(s, ' ', '-') == s;
    assert MapChars(s, Safe) == s;
    TrimSound(s, IsDash);
  }

  predicate IsAlnum(c: char) { 'a' <= c <= 'z' || 'A' <= c <= 'Z' || '0' <= c <= '9' }

  function Slugged(c: char): char {
    if 'A' <= c <= 'Z' then (c as int + 32) as char else if IsAlnum(c) then c else '-'
  }

  lemma {:induction false} TrimLeftTo(pre: string, rest: string, drop: char -> bool) returns (left: string)
    requires rest != "" && !drop(rest[0])
    ensures TrimLeft(pre + rest, drop) == left + rest && forall c :: c in left ==> c in pre
    ensures (forall c :: c in pre ==> drop(c)) ==> left == ""
    decreases pre
  {
    if pre == "" || !drop(pre[0]) {
      left := pre;
      assert pre == "" ==> pre + rest == rest;
    } else {
      assert (pre + rest)[1..] == pre[1..] + rest;
      left := TrimLeftTo(pre[1..], rest, drop);
    }
  }

  lemma {:induction false} TrimRightTo(rest: string, post: string, drop: char -> bool) returns (left: string)
    requires rest != "" && !drop(rest[|rest| - 1])
    ensures TrimRight(rest + post, drop) == rest + left && forall c :: c in left ==> c in post
    ensures (forall c :: c in post ==> drop(c)) ==> left == ""
    decreases post
  {
    if post == "" || !drop(post[|post| - 1]) {
      left := post;
      assert post == "" ==> rest + post == rest;
    } else {
      var front := post[..|post| - 1];
      assert (rest + post)[..|rest + post| - 1] == rest + front;
      left := TrimRightTo(rest, front, drop);
    }
  }

  lemma TrimTo(pre: string, m: string, post: string, drop: char -> bool) returns (x: string, y: string)
    requires m != "" && !drop(m[0]) && !drop(m[|m| - 1])
    ensures Trim(pre + m + post, drop) == x + m + y && (forall c :: c in x ==> c in pre) && (forall c :: c in y ==> c in post)
    ensures (forall c :: c in pre ==> drop(c)) ==> x == ""
    ensures (forall c :: c in post ==> drop(c)) ==> y == ""
  {
    assert pre + m + post == pre + (m + post);
    x := TrimLeftTo(pre, m + post, drop);
    assert x + (m + post) == (x + m) + post;
    y := TrimRightTo(x + m, post, drop);
  }

  function Dashed(s: string): string {
    MapChars(Replace(Replace(MapChars(s, ToLower), '_', '-'), ' ', '-'), Safe)
  }

  lemma DashedPointwise(s: string)
    ensures |Dashed(s)| == |s| && forall i :: 0 <= i < |s| ==> Dashed(s)[i] == Slugged(s[i])
  {
  }

  lemma SanitizeByDashes(s: string)
    ensures var t := Trim(Dashed(TrimSpace(s)), IsDash); SanitizeName(s) == if t == "" then "x" else t
  {
  }

  lemma DashedParts(x: string, m: string, y: string)
    ensures Dashed(x + m + y) == Dashed(x) + MapChars(m, Slugged) + Dashed(y)
  {
    DashedPointwise(x + m + y);
    DashedPointwise(x);
    DashedPointwise(y);
  }

  lemma AllDashes(s: string)
    requires forall c :: c in s ==> !IsAlnum(c)
    ensures forall c :: c in Dashed(s) ==> c == '-'
  {
    DashedPointwise(s);
    assert forall i :: 0 <= i < |s| ==> s[i] in s;
  }

  /** Character by character: what lies between the first and the last letter or digit is
      lower-cased, with a dash for everything else. */
  lemma SanitizeExact(pre: string, m: string, post: string)
    requires (forall c :: c in pre || c in post ==> !IsAlnum(c)) && m != "" && IsAlnum(m[0]) && IsAlnum(m[|m| - 1])
    ensures SanitizeName(pre + m + post) == MapChars(m, Slugged)
  {
    var x, y := TrimTo(pre, m, post, IsSpace);
    DashesTrimmed(x, m, y);
    SanitizeByDashes(pre + m + post);
  }

  lemma DashesTrimmed(x: string, m: string, y: string)
    requires (forall c :: c in x || c in y ==> !IsAlnum(c)) && m != "" && IsAlnum(m[0]) && IsAlnum(m[|m| - 1])
    ensures Trim(Dashed(x + m + y), IsDash) == MapChars(m, Slugged) && MapChars(m, Slugged) != ""
  {
    var core := MapChars(m, Slugged);
    DashedParts(x, m, y);
    AllDashes(x);
    AllDashes(y);
    var u, v := TrimTo(Dashed(x), core, Dashed(y), IsDash);
    NothingAround(core);
  }

  lemma NothingAround(s: string)
    ensures "" + s + "" == s
  {
  }

  /** And a name without letters or digits is `x`. */
  lemma SanitizeNothing(s: string)
    requires forall c :: c in s ==> !IsAlnum(c)
    ensures SanitizeName(s) == "x"
  {
    TrimSound(s, IsSpace);
    AllDashes(TrimSpace(s));
    TrimLeftAll(Dashed(TrimSpace(s)), IsDash);
    SanitizeByDashes(s);
  }

  lemma {:induction false} TrimLeftAll(s: string, drop: char -> bool)
    requires forall c :: c in s ==> drop(c)
    ensures TrimLeft(s, drop) == ""
  {
    if s != "" { TrimLeftAll(s[1..], drop); }
  }

  /** safeLabelValue: the slug, or its first 52 characters and a hash. */
  function SafeLabelValue(h: Hash, s: string): Option<string> {
    var slug := SanitizeName(s);
    if |slug| <= 63 then Some(slug)
    else match ShortHash(h, slug)
      case None => None
      case Some(t) => Some(slug[..52] + "-" + t)
  }

  lemma SafeLabelSound(h: Hash, s: string)
    ensures var r := SafeLabelValue(h, s); r.Some? ==> IsLabelText(r.value) && |r.value| <= 63
    ensures SafeLabelValue(h, s).None? <==> |SanitizeName(s)| > 63 && h(SanitizeName(s)) < 101559956668416
  {
    SanitizeYieldsLabel(s);
    ShortHashSound(h, SanitizeName(s));
  }

  /** Two short slugs share a label only if they are one, and two long ones exactly when
      they agree on 52 characters and on the hash. */
  lemma SafeLabelTells(h: Hash, s: string, t: string)
    requires SafeLabelValue(h, s).Some? && SafeLabelValue(h, t).Some?
    ensures var x, y := SanitizeName(s), SanitizeName(t);
      && (|x| <= 63 && |y| <= 63 ==> (SafeLabelValue(h, s) == SafeLabelValue(h, t) <==> x == y))
      && (|x| > 63 && |y| > 63 ==> (SafeLabelValue(h, s) == SafeLabelValue(h, t) <==> x[..52] == y[..52] && ShortHash(h, x) == ShortHash(h, y)))
  {
    var x, y := SanitizeName(s), SanitizeName(t);
    if |x| > 63 && |y| > 63 {
      var a, b := x[..52] + "-" + ShortHash(h, x).value, y[..52] + "-" + ShortHash(h, y).value;
      assert a[..52] == x[..52] && b[..52] == y[..52];
      assert a[53..] == ShortHash(h, x).value && b[53..] == ShortHash(h, y).value;
    }
  }

  // ---------------------------------------------------------------- keys

  function JoinKey(ns: string, name: string): string { ns + "/" + name }

  /** `strings.SplitN(k, "/", 2)`. */
  function SplitKey(k: string): (string, string) {
    if '/' in k then SplitAtSlash(k) else ("", k)
  }

  function SplitAtSlash(k: string): (string, string)
    requires '/' in k
  {
    if k[0] == '/' then ("", k[1..])
    else var (a, b) := SplitAtSlash(k[1..]); ([k[0]] + a, b)
  }

  /** A key splits back into its parts exactly when the namespace holds no slash. */
  lemma SplitJoin(ns: string, name: string)
    ensures SplitKey(JoinKey(ns, name)) == (ns, name) <==> '/' !in ns
  {
    assert JoinKey(ns, name)[|ns|] == '/';
    SplitFirst(JoinKey(ns, name));
    if '/' !in ns { SplitJoinSlashFree(ns, name); }
  }

  lemma {:induction false} SplitFirst(k: string)
    requires '/' in k
    ensures '/' !in SplitAtSlash(k).0
  {
    if k[0] != '/' { SplitFirst(k[1..]); }
  }

  lemma {:induction false} SplitJoinSlashFree(ns: string, name: string)
    requires '/' !in ns
    ensures '/' in JoinKey(ns, name) && SplitAtSlash(JoinKey(ns, name)) == (ns, name)
  {
    var k := JoinKey(ns, name);
    assert k[|ns|] == '/';
    if ns == "" {
      assert k[1..] == name;
    } else {
      assert k[1..] == JoinKey(ns[1..], name);
      SplitJoinSlashFree(ns[1..], name);
      assert ns == [ns[0]] + ns[1..];
    }
  }

  // ---------------------------------------------------------------- uniqueAppend

  function Self(s: string): string { s }

  function SetOf(s: seq<string>): set<string> { set x | x in s }

  /** uniqueAppend: collect what `base` already holds, append what is new, sort. */
  method UniqueAppend(base: seq<string>, add: seq<string>) returns (r: seq<string>)
    ensures r == UniqueMerge(base, add)
  {
    var known: set<string> := {};
    for i := 0 to |base|
      invariant known == SetOf(base[..i])
    {
      known := known + {base[i]};
    }
    assert base[..|base|] == base;
    r := base;
    for i := 0 to |add|
      invariant known == SetOf(r)
      invariant AppendNew(base, add) == AppendNew(r, add[i..])
    {
      assert add[i..][0] == add[i] && add[i..][1..] == add[i + 1..];
      if add[i] !in known {
        r := r + [add[i]];
        known := known + {add[i]};
      }
    }
    r := StableSort(r, Self);
  }

  function AppendNew(base: seq<string>, add: seq<string>): seq<string>
    decreases add
  {
    if add == [] then base
    else AppendNew(if add[0] in base then base else base + [add[0]], add[1..])
  }

  function UniqueMerge(base: seq<string>, add: seq<string>): seq<string> {
    StableSort(AppendNew(base, add), Self)
  }

  lemma {:induction false} AppendNewSound(base: seq<string>, add: seq<string>)
    ensures base <= AppendNew(base, add)
    ensures DistinctKeys(base, Self) ==> DistinctKeys(AppendNew(base, add), Self)
    ensures SetOf(AppendNew(base, add)) == SetOf(base) + SetOf(add)
    decreases add
  {
    if add != [] {
      assert SetOf(add) == {add[0]} + SetOf(add[1..]);
      AppendNewSound(if add[0] in base then base else base + [add[0]], add[1..]);
    }
  }

  /** The result lists base and add together, sorted. It is free of duplicates exactly
      when base was: repeats inside base itself survive. */
  lemma UniqueMergeSound(base: seq<string>, add: seq<string>)
    ensures var r := UniqueMerge(base, add);
      && SetOf(r) == SetOf(base) + SetOf(add)
      && SortedBy(r, Self)
      && (DistinctKeys(r, Self) <==> DistinctKeys(base, Self))
  {
    AppendNewSound(base, add);
    var unsorted := AppendNew(base, add);
    var r := UniqueMerge(base, add);
    StableSortSound(unsorted, Self);
    if DistinctKeys(unsorted, Self) { DistinctKeysPermuted(unsorted, r, Self); }
    if DistinctKeys(r, Self) { DistinctKeysPermuted(r, unsorted, Self); }
    assert forall x :: x in r <==> x in multiset(r);
    assert forall x :: x in unsorted <==> x in multiset(unsorted);
  }
}
