/** Helpers shared by every page model: optional values, JavaScript's
    `Math.round`, clamping, decimal rendering of integers, the ordering that
    JavaScript's `<` and `>` give to strings, and the key sort used by the
    statistics page. */
module Common {

  datatype Option<+T> = None | Some(value: T)

  /** `x || 0` on an optional number: a missing value reads as zero. */
  function OrZero(x: Option<real>): (r: real)
    ensures x.Some? ==> r == x.value
    ensures x.None? ==> r == 0.0
  {
    if x.Some? then x.value else 0.0
  }

  // ---------------------------------------------------------------------------
  // Arithmetic

  /** JavaScript's `Math.round`: the nearest integer, a half rounded up. */
  function Round(x: real): (r: int)
    ensures x - 0.5 < r as real <= x + 0.5
  {
    (x + 0.5).Floor
  }

  lemma RoundWithin(x: real, lo: int, hi: int)
    requires lo as real <= x <= hi as real
    ensures lo <= Round(x) <= hi
  {
  }

  lemma RoundMonotone(x: real, y: real)
    requires x <= y
    ensures Round(x) <= Round(y)
  {
  }

  /** A quotient of a value in [lo * n, hi * n] by a positive n lies in [lo, hi]. */
  lemma DivWithin(t: real, n: real, lo: real, hi: real)
    requires n > 0.0 && lo * n <= t <= hi * n
    ensures lo <= t / n <= hi
  {
    var q := t / n;
    assert q * n == t;
    assert (q - lo) * n == t - lo * n;
    assert (hi - q) * n == hi * n - t;
    NonNegativeFactor(q - lo, n);
    NonNegativeFactor(hi - q, n);
  }

  lemma NonNegativeFactor(a: real, n: real)
    requires n > 0.0 && a * n >= 0.0
    ensures a >= 0.0
  {
  }

  /** `Math.max(lo, Math.min(hi, v))`. */
  function Clamp(lo: real, hi: real, v: real): (r: real)
    requires lo <= hi
    ensures lo <= r <= hi
    ensures lo <= v <= hi ==> r == v
    ensures v < lo ==> r == lo
    ensures hi < v ==> r == hi
  {
    if v < lo then lo else if hi < v then hi else v
  }

  // ---------------------------------------------------------------------------
  // Decimal rendering (`${n}` in a template literal, for an integer n)

  predicate IsDigit(c: char) { '0' <= c <= '9' }

  predicate AllDigits(s: string) { forall i :: 0 <= i < |s| ==> IsDigit(s[i]) }

  function DigitChar(d: nat): (c: char)
    requires d < 10
    ensures IsDigit(c) && (c as int) - ('0' as int) == d
  {
    (('0' as int) + d) as char
  }

  function NatToString(n: nat): (s: string)
    ensures |s| >= 1 && AllDigits(s)
    decreases n
  {
    if n < 10 then [DigitChar(n)] else NatToString(n / 10) + [DigitChar(n % 10)]
  }

  function IntToString(i: int): (s: string)
    ensures |s| >= 1
    ensures forall k :: 0 < k < |s| ==> IsDigit(s[k])
    ensures i >= 0 <==> IsDigit(s[0])
  {
    if i < 0 then "-" + NatToString(-i) else NatToString(i)
  }

  /** The number a string of decimal digits denotes. */
  function DigitsValue(s: string): nat
    requires AllDigits(s)
  {
    if s == [] then 0
    else DigitsValue(s[..|s| - 1]) * 10 + ((s[|s| - 1] as int) - ('0' as int))
  }

  lemma {:induction false} DigitsValueOfNatToString(n: nat)
    ensures DigitsValue(NatToString(n)) == n
    decreases n
  {
    var s := NatToString(n);
    if n >= 10 {
      DigitsValueOfNatToString(n / 10);
      assert s[..|s| - 1] == NatToString(n / 10);
    }
  }

  lemma NatToStringInjective(m: nat, n: nat)
    ensures NatToString(m) == NatToString(n) <==> m == n
  {
    if NatToString(m) == NatToString(n) {
      DigitsValueOfNatToString(m);
      DigitsValueOfNatToString(n);
    }
  }

  lemma IntToStringInjective(i: int, j: int)
    ensures IntToString(i) == IntToString(j) <==> i == j
  {
    if IntToString(i) == IntToString(j) {
      if i < 0 && j < 0 {
        assert IntToString(i)[1..] == NatToString(-i);
        assert IntToString(j)[1..] == NatToString(-j);
        NatToStringInjective(-i, -j);
      } else if i >= 0 && j >= 0 {
        NatToStringInjective(i, j);
      }
    }
  }

  /** A decimal rendering has one digit exactly when the number is below ten. */
  lemma NatToStringLength(n: nat)
    ensures |NatToString(n)| == 1 <==> n < 10
  {
  }

  // ---------------------------------------------------------------------------
  // The order JavaScript gives strings with `<` and `>` (character by character,
  // comparing code points; a proper prefix is smaller)

  predicate LexLess(a: string, b: string)
    decreases |a|
  {
    if |a| == 0 then |b| > 0
    else if |b| == 0 then false
    else if a[0] != b[0] then a[0] < b[0]
    else LexLess(a[1..], b[1..])
  }

  lemma {:induction false} LexLessIrreflexive(a: string)
    ensures !LexLess(a, a)
    decreases |a|
  {
    if |a| > 0 { LexLessIrreflexive(a[1..]); }
  }

  lemma {:induction false} LexLessAsymmetric(a: string, b: string)
    requires LexLess(a, b)
    ensures !LexLess(b, a)
    decreases |a|
  {
    if |a| > 0 && |b| > 0 && a[0] == b[0] { LexLessAsymmetric(a[1..], b[1..]); }
  }

  lemma {:induction false} LexLessTransitive(a: string, b: string, c: string)
    requires LexLess(a, b) && LexLess(b, c)
    ensures LexLess(a, c)
    decreases |a|
  {
    if |a| > 0 && |b| > 0 && |c| > 0 && a[0] == b[0] && b[0] == c[0] {
      LexLessTransitive(a[1..], b[1..], c[1..]);
    }
  }

  lemma {:induction false} LexLessTotal(a: string, b: string)
    requires a != b
    ensures LexLess(a, b) || LexLess(b, a)
    decreases |a|
  {
    if |a| > 0 && |b| > 0 && a[0] == b[0] {
      assert a == [a[0]] + a[1..] && b == [b[0]] + b[1..];
      LexLessTotal(a[1..], b[1..]);
    }
  }

  /** Two strings with a common prefix compare as their remainders do. */
  lemma {:induction false} LexLessCommonPrefix(p: string, a: string, b: string)
    ensures LexLess(p + a, p + b) <==> LexLess(a, b)
    decreases |p|
  {
    if |p| > 0 {
      assert (p + a)[0] == p[0] == (p + b)[0];
      assert (p + a)[1..] == p[1..] + a && (p + b)[1..] == p[1..] + b;
      LexLessCommonPrefix(p[1..], a, b);
    } else {
      assert p + a == a && p + b == b;
    }
  }

  // ---------------------------------------------------------------------------
  // Sorting distinct keys with JavaScript's string order

  predicate Distinct<T(==)>(s: seq<T>) {
    forall i, j :: 0 <= i < j < |s| ==> s[i] != s[j]
  }

  /** The distinct elements of `xs` in order of first appearance: what
      `[...new Set(xs)]` gives, and the key order of a `Map` filled from `xs`. */
  function Dedup<T(==,!new)>(xs: seq<T>): (r: seq<T>)
    ensures Distinct(r)
    ensures forall x :: x in r <==> x in xs
  {
    if xs == [] then []
    else
      var r0 := Dedup(xs[..|xs| - 1]);
      assert xs == xs[..|xs| - 1] + [xs[|xs| - 1]];
      if xs[|xs| - 1] in r0 then r0 else r0 + [xs[|xs| - 1]]
  }

  /** The position of the first occurrence of `x` in `xs`. */
  function FirstIndex<T(==)>(xs: seq<T>, x: T): (i: nat)
    requires x in xs
    ensures i < |xs| && xs[i] == x
    ensures forall k :: 0 <= k < i ==> xs[k] != x
  {
    if xs[0] == x then 0 else 1 + FirstIndex(xs[1..], x)
  }

  lemma FirstIndexInPrefix<T>(init: seq<T>, last: T, y: T)
    requires y in init
    ensures y in init + [last] && FirstIndex(init + [last], y) == FirstIndex(init, y)
  {
    var a, b := FirstIndex(init, y), FirstIndex(init + [last], y);
    assert (init + [last])[a] == y;
  }

  /** `Dedup` lists the elements in the order of their first occurrence. */
  lemma {:induction false} DedupFirstSeen<T(!new)>(xs: seq<T>)
    ensures forall i, j :: 0 <= i < j < |Dedup(xs)| ==>
      FirstIndex(xs, Dedup(xs)[i]) < FirstIndex(xs, Dedup(xs)[j])
  {
    if xs != [] {
      var init, last := xs[..|xs| - 1], xs[|xs| - 1];
      assert xs == init + [last];
      DedupFirstSeen(init);
      var r0, r := Dedup(init), Dedup(xs);
      forall i, j | 0 <= i < j < |r|
        ensures FirstIndex(xs, r[i]) < FirstIndex(xs, r[j])
      {
        FirstIndexInPrefix(init, last, r[i]);
        if j < |r0| {
          FirstIndexInPrefix(init, last, r[j]);
        } else {
          assert r[j] == last && last !in init;
        }
      }
    }
  }

  predicate StrictlyAscending(s: seq<string>) {
    forall i, j :: 0 <= i < j < |s| ==> LexLess(s[i], s[j])
  }

  lemma StrictlyAscendingIsDistinct(s: seq<string>)
    requires StrictlyAscending(s)
    ensures Distinct(s)
  {
    forall i, j | 0 <= i < j < |s| ensures s[i] != s[j] {
      if s[i] == s[j] { LexLessIrreflexive(s[i]); }
    }
  }

  lemma InsertKeepsAscending(sorted: seq<string>, j: nat, k: string)
    requires StrictlyAscending(sorted) && j <= |sorted|
    requires forall t :: 0 <= t < j ==> LexLess(sorted[t], k)
    requires forall t :: j <= t < |sorted| ==> LexLess(k, sorted[t])
    ensures StrictlyAscending(sorted[..j] + [k] + sorted[j..])
  {
    var r := sorted[..j] + [k] + sorted[j..];
    assert forall a :: 0 <= a < j ==> r[a] == sorted[a];
    assert r[j] == k;
    assert forall a :: j < a < |r| ==> r[a] == sorted[a - 1];
  }

  /** One step of the sort: `k` placed before the first key above it. */
  method InsertKey(sorted: seq<string>, k: string) returns (r: seq<string>)
    requires StrictlyAscending(sorted) && k !in sorted
    ensures multiset(r) == multiset(sorted) + multiset{k}
    ensures StrictlyAscending(r)
  {
    var j := 0;
    while j < |sorted| && LexLess(sorted[j], k)
      invariant 0 <= j <= |sorted|
      invariant forall t :: 0 <= t < j ==> LexLess(sorted[t], k)
    {
      j := j + 1;
    }
    if j < |sorted| {
      LexLessTotal(sorted[j], k);
      forall t | j < t < |sorted| ensures LexLess(k, sorted[t]) {
        LexLessTransitive(k, sorted[j], sorted[t]);
      }
    }
    InsertKeepsAscending(sorted, j, k);
    assert sorted == sorted[..j] + sorted[j..];
    r := sorted[..j] + [k] + sorted[j..];
  }

  /** `Array.prototype.sort` on distinct strings, either with no comparator
      or with `(a, b) => (a > b ? 1 : -1)`: both order the keys by `<`. */
  method SortKeys(keys: seq<string>) returns (sorted: seq<string>)
    requires Distinct(keys)
    ensures multiset(sorted) == multiset(keys)
    ensures StrictlyAscending(sorted)
  {
    sorted := [];
    var i := 0;
    while i < |keys|
      invariant 0 <= i <= |keys|
      invariant multiset(sorted) == multiset(keys[..i])
      invariant StrictlyAscending(sorted)
    {
      var k := keys[i];
      assert k !in keys[..i];
      assert k !in sorted by { assert k !in multiset(sorted); }
      sorted := InsertKey(sorted, k);
      assert keys[..i + 1] == keys[..i] + [k];
      i := i + 1;
    }
    assert keys[..i] == keys;
  }

  // ---------------------------------------------------------------------------
  // `Array.prototype.filter`

  /** The elements of `xs` that `keep` accepts, in their order. */
  function Filter<T(==,!new)>(xs: seq<T>, keep: T -> bool): (r: seq<T>)
    ensures |r| <= |xs|
    ensures forall x :: x in r <==> x in xs && keep(x)
  {
    if xs == [] then []
    else
      var x := xs[|xs| - 1];
      assert xs == xs[..|xs| - 1] + [x];
      var init := Filter(xs[..|xs| - 1], keep);
      if keep(x) then init + [x] else init
  }

  /** Filtering distributes over concatenation: what is kept keeps its
      relative order. */
  lemma {:induction false} FilterConcat<T(!new)>(a: seq<T>, b: seq<T>, keep: T -> bool)
    ensures Filter(a + b, keep) == Filter(a, keep) + Filter(b, keep)
    decreases |b|
  {
    if b == [] {
      assert a + b == a;
    } else {
      FilterConcat(a, b[..|b| - 1], keep);
      FilterConcatStep(a, b, keep);
    }
  }

  lemma FilterConcatStep<T(!new)>(a: seq<T>, b: seq<T>, keep: T -> bool)
    requires b != [] && Filter(a + b[..|b| - 1], keep) == Filter(a, keep) + Filter(b[..|b| - 1], keep)
    ensures Filter(a + b, keep) == Filter(a, keep) + Filter(b, keep)
  {
    var init, last := b[..|b| - 1], b[|b| - 1];
    SplitLast(a, b);
    FilterSnoc(a + init, last, keep);
    FilterSnoc(init, last, keep);
    ConcatAssociative(Filter(a, keep), Filter(init, keep), if keep(last) then [last] else []);
  }

  lemma FilterSnoc<T(!new)>(xs: seq<T>, x: T, keep: T -> bool)
    ensures Filter(xs + [x], keep) == Filter(xs, keep) + (if keep(x) then [x] else [])
  {
    assert (xs + [x])[..|xs|] == xs;
  }

  /** Appending the next element of `xs` to a prefix of it. */
  lemma PrefixSnoc<T>(before: seq<T>, xs: seq<T>, j: nat)
    requires j < |xs|
    ensures before + xs[..j + 1] == (before + xs[..j]) + [xs[j]]
  {
    assert xs[..j + 1] == xs[..j] + [xs[j]];
  }

  /** `a + b` with the last element of `b` split off. */
  lemma SplitLast<T>(a: seq<T>, b: seq<T>)
    requires b != []
    ensures a + b == (a + b[..|b| - 1]) + [b[|b| - 1]]
    ensures b == b[..|b| - 1] + [b[|b| - 1]]
  {
  }

  lemma ConcatAssociative<T>(x: seq<T>, y: seq<T>, z: seq<T>)
    ensures (x + y) + z == x + (y + z)
  {
  }

  /** When every element is accepted nothing is dropped. */
  lemma {:induction false} FilterKeepsAll<T(!new)>(xs: seq<T>, keep: T -> bool)
    requires forall x :: x in xs ==> keep(x)
    ensures Filter(xs, keep) == xs
  {
    if xs != [] {
      var init := xs[..|xs| - 1];
      assert forall x :: x in init ==> x in xs;
      FilterKeepsAll(init, keep);
      assert xs == init + [xs[|xs| - 1]];
    }
  }
}
