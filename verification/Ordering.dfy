/** Byte-wise string order and the two library sorts the controller relies on
    (`sort.Strings`, `sort.SliceStable`), with what callers may assume of them. */
module Ordering {

  /** Strict lexicographic order on strings (Go's `<`). */
  predicate Before(a: string, b: string) {
    b != "" && (a == "" || a[0] < b[0] || (a[0] == b[0] && Before(a[1..], b[1..])))
  }

  lemma {:induction false} BeforeIrreflexive(a: string)
    ensures !Before(a, a)
  {
    if a != "" { BeforeIrreflexive(a[1..]); }
  }

  lemma {:induction false} BeforeTransitive(a: string, b: string, c: string)
    requires Before(a, b) && Before(b, c)
    ensures Before(a, c)
  {
    if a != "" && a[0] == b[0] == c[0] { BeforeTransitive(a[1..], b[1..], c[1..]); }
  }

  lemma {:induction false} BeforeTotal(a: string, b: string)
    ensures a == b || Before(a, b) || Before(b, a)
  {
    if a != "" && b != "" && a[0] == b[0] {
      BeforeTotal(a[1..], b[1..]);
      assert a == [a[0]] + a[1..] && b == [b[0]] + b[1..];
    }
  }

  lemma BeforeAsymmetric(a: string, b: string)
    requires Before(a, b)
    ensures !Before(b, a)
  {
    if Before(b, a) {
      BeforeTransitive(a, b, a);
      BeforeIrreflexive(a);
    }
  }

  /** `a <= b < c` and `a < b <= c` both give `a < c`; used to chase sortedness. */
  lemma BeforeMixed(a: string, b: string, c: string)
    ensures !Before(b, a) && Before(b, c) ==> Before(a, c)
    ensures Before(a, b) && !Before(c, b) ==> Before(a, c)
    ensures !Before(b, a) && !Before(c, b) ==> !Before(c, a)
  {
    BeforeTotal(a, b);
    BeforeTotal(b, c);
    BeforeTotal(a, c);
    forall x, y, z | x in {a, b, c} && y in {a, b, c} && z in {a, b, c} && Before(x, y) && Before(y, z)
      ensures Before(x, z)
    {
      BeforeTransitive(x, y, z);
    }
    BeforeIrreflexive(a);
    BeforeIrreflexive(b);
    BeforeIrreflexive(c);
  }

  ghost predicate SortedBy<T>(s: seq<T>, key: T -> string) {
    forall i, j :: 0 <= i < j < |s| ==> !Before(key(s[j]), key(s[i]))
  }

  /** Put `x` in front of the first element that is not smaller. */
  function Insert<T>(x: T, s: seq<T>, key: T -> string): seq<T> {
    if s == [] || !Before(key(s[0]), key(x)) then [x] + s
    else [s[0]] + Insert(x, s[1..], key)
  }

  function StableSort<T>(s: seq<T>, key: T -> string): seq<T> {
    if s == [] then [] else Insert(s[0], StableSort(s[1..], key), key)
  }

  /** The subsequence of elements whose key is `k`. */
  function WithKey<T>(s: seq<T>, key: T -> string, k: string): seq<T> {
    if s == [] then []
    else (if key(s[0]) == k then [s[0]] else []) + WithKey(s[1..], key, k)
  }

  lemma {:induction false} InsertPermutes<T>(x: T, s: seq<T>, key: T -> string)
    ensures multiset(Insert(x, s, key)) == multiset{x} + multiset(s)
  {
    if s == [] || !Before(key(s[0]), key(x)) {
    } else {
      InsertPermutes(x, s[1..], key);
      assert s == [s[0]] + s[1..];
    }
  }

  lemma {:induction false} InsertSorted<T>(x: T, s: seq<T>, key: T -> string)
    requires SortedBy(s, key)
    ensures SortedBy(Insert(x, s, key), key)
  {
    var r := Insert(x, s, key);
    if s == [] {
    } else if !Before(key(s[0]), key(x)) {
      forall j | 1 <= j < |r| ensures !Before(key(r[j]), key(x)) {
        BeforeMixed(key(x), key(s[0]), key(s[j - 1]));
      }
    } else {
      InsertSorted(x, s[1..], key);
      var rest := Insert(x, s[1..], key);
      InsertPermutes(x, s[1..], key);
      forall j | 1 <= j < |r| ensures !Before(key(r[j]), key(r[0])) {
        assert r[j] == rest[j - 1] && rest[j - 1] in multiset(rest);
        if r[j] == x {
          BeforeAsymmetric(key(s[0]), key(x));
        } else {
          assert r[j] in s[1..];
        }
      }
    }
  }

  lemma WithKeyCons<T>(x: T, s: seq<T>, key: T -> string, k: string)
    ensures WithKey([x] + s, key, k) == (if key(x) == k then [x] else []) + WithKey(s, key, k)
  {
    assert ([x] + s)[1..] == s;
  }

  lemma {:induction false} InsertKeepsGroups<T>(x: T, s: seq<T>, key: T -> string, k: string)
    ensures WithKey(Insert(x, s, key), key, k) == WithKey([x] + s, key, k)
  {
    WithKeyCons(x, s, key, k);
    if s != [] && Before(key(s[0]), key(x)) {
      var tail := Insert(x, s[1..], key);
      InsertKeepsGroups(x, s[1..], key, k);
      WithKeyCons(x, s[1..], key, k);
      WithKeyCons(s[0], tail, key, k);
      BeforeIrreflexive(k);
    }
  }

  /** What every caller of a library sort relies on: same elements, ordered, and
      elements with equal keys keep their relative order. */
  lemma {:induction false} StableSortSound<T>(s: seq<T>, key: T -> string)
    ensures multiset(StableSort(s, key)) == multiset(s)
    ensures SortedBy(StableSort(s, key), key)
    ensures forall k :: WithKey(StableSort(s, key), key, k) == WithKey(s, key, k)
  {
    if s != [] {
      StableSortSound(s[1..], key);
      var rest := StableSort(s[1..], key);
      InsertPermutes(s[0], rest, key);
      InsertSorted(s[0], rest, key);
      assert s == [s[0]] + s[1..];
      forall k ensures WithKey(StableSort(s, key), key, k) == WithKey(s, key, k) {
        InsertKeepsGroups(s[0], rest, key, k);
        WithKeyCons(s[0], rest, key, k);
      }
    }
  }

  ghost predicate DistinctKeys<T>(s: seq<T>, key: T -> string) {
    forall i, j :: 0 <= i < j < |s| ==> key(s[i]) != key(s[j])
  }

  /** With distinct keys there is only one way to be sorted, so no sort's choice among
      equal elements, nor the order it was given, can show in the result. */
  lemma {:induction false} SortedUnique<T>(a: seq<T>, b: seq<T>, key: T -> string)
    requires multiset(a) == multiset(b)
    requires SortedBy(a, key) && SortedBy(b, key) && DistinctKeys(a, key)
    ensures a == b
  {
    SameLength(a, b);
    if a != [] {
      assert a[0] == b[0] by { FirstUnique(a, b, key); }
      assert a[1..] == b[1..] by {
        TailFacts(a, key);
        TailFacts(b, key);
        SortedUnique(a[1..], b[1..], key);
      }
      assert a == [a[0]] + a[1..] && b == [b[0]] + b[1..];
    }
  }

  lemma SameLength<T>(a: seq<T>, b: seq<T>)
    requires multiset(a) == multiset(b)
    ensures |a| == |b|
  {
    assert |b| == |multiset(b)| == |multiset(a)|;
  }

  lemma TailFacts<T>(a: seq<T>, key: T -> string)
    requires a != [] && SortedBy(a, key)
    ensures SortedBy(a[1..], key)
    ensures DistinctKeys(a, key) ==> DistinctKeys(a[1..], key)
    ensures multiset(a[1..]) == multiset(a) - multiset{a[0]}
  {
    assert a == [a[0]] + a[1..];
  }

  lemma FirstUnique<T>(a: seq<T>, b: seq<T>, key: T -> string)
    requires multiset(a) == multiset(b) && a != [] && b != []
    requires SortedBy(a, key) && SortedBy(b, key) && DistinctKeys(a, key)
    ensures a[0] == b[0]
  {
    assert a[0] in multiset(b) && b[0] in multiset(a);
    var i :| 0 <= i < |a| && a[i] == b[0];
    var j :| 0 <= j < |b| && b[j] == a[0];
    BeforeTotal(key(a[0]), key(b[0]));
  }

  function DropAt<T>(s: seq<T>, m: nat): seq<T>
    requires m < |s|
  {
    s[..m] + s[m + 1..]
  }

  lemma DistinctKeysDropAt<T>(a: seq<T>, m: nat, key: T -> string)
    requires m < |a| && DistinctKeys(a, key)
    ensures DistinctKeys(DropAt(a, m), key)
    ensures forall x :: x in DropAt(a, m) ==> key(x) != key(a[m])
    ensures multiset(DropAt(a, m)) == multiset(a) - multiset{a[m]}
  {
    assert a == a[..m] + [a[m]] + a[m + 1..];
    forall x | x in DropAt(a, m) ensures key(x) != key(a[m]) {
      var n :| 0 <= n < |DropAt(a, m)| && DropAt(a, m)[n] == x;
      assert x == a[if n < m then n else n + 1];
    }
  }

  lemma {:induction false} DistinctKeysPermuted<T>(a: seq<T>, b: seq<T>, key: T -> string)
    requires multiset(a) == multiset(b) && DistinctKeys(a, key)
    ensures DistinctKeys(b, key)
  {
    if b != [] {
      assert b[0] in multiset(a);
      var m :| 0 <= m < |a| && a[m] == b[0];
      DistinctKeysDropAt(a, m, key);
      assert b == [b[0]] + b[1..];
      assert multiset(DropAt(a, m)) == multiset(b[1..]);
      DistinctKeysPermuted(DropAt(a, m), b[1..], key);
      DistinctKeysCons(a, m, b, key);
    }
  }

  lemma DistinctKeysCons<T>(a: seq<T>, m: nat, b: seq<T>, key: T -> string)
    requires b != [] && DistinctKeys(b[1..], key)
    requires m < |a| && multiset(DropAt(a, m)) == multiset(b[1..]) && a[m] == b[0]
    requires forall x :: x in DropAt(a, m) ==> key(x) != key(a[m])
    ensures DistinctKeys(b, key)
  {
    var rest := b[1..];
    forall i, j | 0 <= i < j < |b| ensures key(b[i]) != key(b[j]) {
      assert b[j] == rest[j - 1] && rest[j - 1] in multiset(DropAt(a, m));
      if i > 0 { assert b[i] == rest[i - 1]; }
    }
  }
}
