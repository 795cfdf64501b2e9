/**
 The pieces of Python's `str` semantics the scripts rely on: the ordering
 used by `sorted`, `sorted` itself on a list of names (duplicates kept) and
 on a set of names (duplicates gone), and `int()` applied to a form field.
 */
module Strings {
  import opened Outcomes

  /** Python's `a < b` on `str`: lexicographic by code point, a proper
      prefix sorting first. */
  predicate Less(a: string, b: string)
    decreases |a|
  {
    if |a| == 0 then |b| > 0
    else if |b| == 0 then false
    else if a[0] == b[0] then Less(a[1..], b[1..])
    else a[0] < b[0]
  }

  predicate LessEq(a: string, b: string) {
    a == b || Less(a, b)
  }

  lemma {:induction false} LessIrreflexive(a: string)
    ensures !Less(a, a)
    decreases |a|
  {
    if |a| > 0 {
      LessIrreflexive(a[1..]);
    }
  }

  lemma {:induction false} LessAsymmetric(a: string, b: string)
    requires Less(a, b)
    ensures !Less(b, a)
    decreases |a|
  {
    if |a| > 0 && |b| > 0 && a[0] == b[0] {
      LessAsymmetric(a[1..], b[1..]);
    }
  }

  lemma {:induction false} LessTransitive(a: string, b: string, c: string)
    requires Less(a, b) && Less(b, c)
    ensures Less(a, c)
    decreases |a|
  {
    if |a| > 0 && a[0] == b[0] && b[0] == c[0] {
      LessTransitive(a[1..], b[1..], c[1..]);
    }
  }

  /** Any two strings are equal or ordered one way or the other. */
  lemma {:induction false} LessTotal(a: string, b: string)
    ensures a == b || Less(a, b) || Less(b, a)
    decreases |a|
  {
    if |a| > 0 && |b| > 0 && a[0] == b[0] {
      LessTotal(a[1..], b[1..]);
      if a[1..] == b[1..] {
        assert a == [a[0]] + a[1..] && b == [b[0]] + b[1..];
      }
    }
  }

  lemma LessEqTransitive(a: string, b: string, c: string)
    requires LessEq(a, b) && LessEq(b, c)
    ensures LessEq(a, c)
  {
    if a != b && b != c {
      LessTransitive(a, b, c);
    }
  }

  lemma LessEqAntisymmetric(a: string, b: string)
    requires LessEq(a, b) && LessEq(b, a)
    ensures a == b
  {
    if a != b {
      LessAsymmetric(a, b);
    }
  }

  // ---------------------------------------------------------------------
  // sorted(list): ascending, duplicates kept

  ghost predicate Sorted(s: seq<string>) {
    forall i, j :: 0 <= i < j < |s| ==> LessEq(s[i], s[j])
  }

  function Insert(s: seq<string>, x: string): (r: seq<string>)
    requires Sorted(s)
    ensures Sorted(r)
    ensures multiset(r) == multiset(s) + multiset{x}
  {
    if |s| == 0 then [x]
    else if LessEq(x, s[0]) then
      assert forall j :: 0 <= j < |s| ==> LessEq(x, s[j]) by {
        forall j | 0 <= j < |s| ensures LessEq(x, s[j]) {
          LessEqTransitive(x, s[0], s[j]);
        }
      }
      [x] + s
    else
      var rest := Insert(s[1..], x);
      LessTotal(x, s[0]);
      assert s == [s[0]] + s[1..];
      assert forall y :: y in multiset(rest) ==> LessEq(s[0], y);
      [s[0]] + rest
  }

  /** Python's `sorted(xs)` on a list of strings. */
  function Sort(xs: seq<string>): (r: seq<string>)
    ensures Sorted(r)
    ensures multiset(r) == multiset(xs)
  {
    if |xs| == 0 then []
    else
      assert xs == xs[..|xs| - 1] + [xs[|xs| - 1]];
      Insert(Sort(xs[..|xs| - 1]), xs[|xs| - 1])
  }

  /** A sorted list is determined by its elements: any two sorted
      arrangements of the same multiset are the same list. */
  lemma {:induction false} SortedUnique(s: seq<string>, t: seq<string>)
    requires Sorted(s) && Sorted(t)
    requires multiset(s) == multiset(t)
    ensures s == t
    decreases |s|
  {
    if |s| == 0 {
      assert |t| == |multiset(t)| == 0;
    } else {
      assert |t| == |multiset(t)| == |multiset(s)| == |s|;
      SortedHeads(s, t);
      assert s == [s[0]] + s[1..] && t == [t[0]] + t[1..];
      assert multiset(s[1..]) == multiset(s) - multiset{s[0]};
      assert multiset(t[1..]) == multiset(t) - multiset{t[0]};
      SortedUnique(s[1..], t[1..]);
    }
  }

  /** Two sorted arrangements of one multiset start with the same name. */
  lemma SortedHeads(s: seq<string>, t: seq<string>)
    requires Sorted(s) && Sorted(t)
    requires multiset(s) == multiset(t)
    requires |s| > 0 && |t| > 0
    ensures s[0] == t[0]
  {
    assert s[0] in multiset(t);
    var k :| 0 <= k < |t| && t[k] == s[0];
    assert t[0] in multiset(s);
    var m :| 0 <= m < |s| && s[m] == t[0];
    assert LessEq(t[0], s[0]) by { assert k == 0 || LessEq(t[0], t[k]); }
    assert LessEq(s[0], t[0]) by { assert m == 0 || LessEq(s[0], s[m]); }
    LessEqAntisymmetric(s[0], t[0]);
  }

  /** `Sort` agrees with any sorted permutation of its input, which is
      what Python's `sorted` returns. */
  lemma SortIsSorted(xs: seq<string>, t: seq<string>)
    requires Sorted(t) && multiset(t) == multiset(xs)
    ensures Sort(xs) == t
  {
    SortedUnique(Sort(xs), t);
  }

  // ---------------------------------------------------------------------
  // sorted(set(xs)): strictly ascending, no duplicates

  ghost predicate StrictlySorted(s: seq<string>) {
    forall i, j :: 0 <= i < j < |s| ==> Less(s[i], s[j])
  }

  function InsertUnique(s: seq<string>, x: string): (r: seq<string>)
    requires StrictlySorted(s)
    ensures StrictlySorted(r)
    ensures forall y :: y in r <==> y in s || y == x
  {
    if |s| == 0 then [x]
    else if x == s[0] then s
    else if Less(x, s[0]) then
      assert forall j :: 0 <= j < |s| ==> Less(x, s[j]) by {
        forall j | 0 < j < |s| ensures Less(x, s[j]) {
          LessTransitive(x, s[0], s[j]);
        }
      }
      [x] + s
    else
      var rest := InsertUnique(s[1..], x);
      LessTotal(x, s[0]);
      assert s == [s[0]] + s[1..];
      assert forall y :: y in rest ==> Less(s[0], y) by {
        forall y | y in rest ensures Less(s[0], y) {
          if y != x {
            var i :| 1 <= i < |s| && s[i] == y;
          }
        }
      }
      [s[0]] + rest
  }

  /** Python's `sorted(set(xs))`. */
  function SortedSet(xs: seq<string>): (r: seq<string>)
    ensures StrictlySorted(r)
    ensures forall y :: y in r <==> y in xs
  {
    if |xs| == 0 then []
    else
      var r := InsertUnique(SortedSet(xs[..|xs| - 1]), xs[|xs| - 1]);
      assert forall y :: y in xs <==> y in xs[..|xs| - 1] || y == xs[|xs| - 1] by {
        assert xs == xs[..|xs| - 1] + [xs[|xs| - 1]];
      }
      r
  }

  /** A strictly sorted list is determined by the set of its elements. */
  lemma {:induction false} StrictlySortedUnique(s: seq<string>, t: seq<string>)
    requires StrictlySorted(s) && StrictlySorted(t)
    requires forall y :: y in s <==> y in t
    ensures s == t
    decreases |s| + |t|
  {
    if |s| > 0 { assert s[0] in s; }
    if |t| > 0 { assert t[0] in t; }
    if |s| > 0 && |t| > 0 {
      assert s[0] in t;
      assert t[0] in s;
      var k :| 0 <= k < |t| && t[k] == s[0];
      var m :| 0 <= m < |s| && s[m] == t[0];
      if s[0] != t[0] {
        assert Less(t[0], s[0]);
        assert Less(s[0], t[0]);
        LessAsymmetric(s[0], t[0]);
      }
      forall y ensures y in s[1..] <==> y in t[1..] {
        if y in s[1..] {
          var i :| 1 <= i < |s| && s[i] == y;
          assert Less(s[0], y);
          LessIrreflexive(y);
          assert y in t && y != t[0];
          var j :| 0 <= j < |t| && t[j] == y;
          assert t[1..][j - 1] == y;
        }
        if y in t[1..] {
          var i :| 1 <= i < |t| && t[i] == y;
          assert Less(t[0], y);
          LessIrreflexive(y);
          assert y in s && y != s[0];
          var j :| 0 <= j < |s| && s[j] == y;
          assert s[1..][j - 1] == y;
        }
      }
      StrictlySortedUnique(s[1..], t[1..]);
      assert s == [s[0]] + s[1..] && t == [t[0]] + t[1..];
    }
  }

  // ---------------------------------------------------------------------
  // int(s) and str(n)

  predicate IsDigit(c: char) {
    '0' <= c <= '9'
  }

  predicate AllDigits(s: string) {
    forall i :: 0 <= i < |s| ==> IsDigit(s[i])
  }

  function DigitValue(c: char): nat
    requires IsDigit(c)
  {
    (c as int) - ('0' as int)
  }

  /** The number a run of decimal digits denotes, most significant first. */
  function DigitsValue(s: string): nat
    requires AllDigits(s)
  {
    if |s| == 0 then 0
    else DigitsValue(s[..|s| - 1]) * 10 + DigitValue(s[|s| - 1])
  }

  /** `str(n)` for a natural number: decimal digits, no leading zeros. */
  function ShowNat(n: nat): (s: string)
    ensures |s| > 0 && AllDigits(s)
  {
    var d := ['0' + ((n % 10) as char)];
    if n < 10 then d else ShowNat(n / 10) + d
  }

  /** `str(n)` for any integer. */
  function ShowInt(n: int): string {
    if n < 0 then "-" + ShowNat(-n) else ShowNat(n)
  }

  /** The optional leading sign of a numeral. */
  function SignOf(s: string): int {
    if |s| > 0 && s[0] == '-' then -1 else 1
  }

  /** A numeral without its optional leading sign. */
  function Unsigned(s: string): string {
    if |s| > 0 && (s[0] == '-' || s[0] == '+') then s[1..] else s
  }

  /** An optional sign and at least one decimal digit. */
  predicate WellFormedInt(s: string) {
    |Unsigned(s)| > 0 && AllDigits(Unsigned(s))
  }

  function Pow10(k: nat): nat {
    if k == 0 then 1 else 10 * Pow10(k - 1)
  }

  /** The positional reading of a digit string: the sum of each digit
      times ten to the number of digits after it. */
  function PositionalValue(s: string): nat
    requires AllDigits(s)
  {
    if |s| == 0 then 0 else DigitValue(s[0]) * Pow10(|s| - 1) + PositionalValue(s[1..])
  }

  /** Python's `int(s)` on an optional form field: `None` raises
      TypeError, anything other than an optional sign followed by decimal
      digits raises ValueError. Leading zeros and a `+` sign are accepted,
      and "-0" is 0. */
  function ParseInt(v: Option<string>): (r: Result<int>)
    ensures v.None? ==> r == Halted(Raise(TypeError))
    ensures r.Ok? <==> v.Some? && WellFormedInt(v.value)
    ensures r.Halted? && v.Some? ==> r.halt == Raise(ValueError)
    ensures r.Ok? ==> r.value == SignOf(v.value) * PositionalValue(Unsigned(v.value))
  {
    match v
    case None => Halted(Raise(TypeError))
    case Some(s) =>
      if |s| > 0 && (s[0] == '-' || s[0] == '+') && |s[1..]| > 0 && AllDigits(s[1..]) then
        var magnitude: int := DigitsValue(s[1..]);
        DigitsPositional(s[1..]);
        Ok(if s[0] == '-' then -magnitude else magnitude)
      else if |s| > 0 && AllDigits(s) then
        DigitsPositional(s);
        Ok(DigitsValue(s))
      else Halted(Raise(ValueError))
  }

  /** Reading the digits left to right and multiplying by ten at each step
      gives the leading digit times its place value plus the rest. */
  lemma {:induction false} DigitsValueFront(s: string)
    requires AllDigits(s) && |s| > 0
    ensures DigitsValue(s) == DigitValue(s[0]) * Pow10(|s| - 1) + DigitsValue(s[1..])
  {
    var n := |s|;
    if n > 1 {
      var init, rest := s[..n - 1], s[1..];
      var d0, dl := DigitValue(s[0]), DigitValue(s[n - 1]);
      var p := Pow10(n - 2);
      var b := DigitsValue(init[1..]);
      assert DigitsValue(init) == d0 * p + b by {
        DigitsValueFront(init);
      }
      assert DigitsValue(rest) == b * 10 + dl by {
        assert init[1..] == rest[..n - 2];
      }
      Regroup(d0, p, b, dl);
    }
  }

  lemma Regroup(d: int, p: int, b: int, e: int)
    ensures (d * p + b) * 10 + e == d * (10 * p) + (b * 10 + e)
  {
  }

  /** The left-to-right accumulation and the positional sum agree. */
  lemma {:induction false} DigitsPositional(s: string)
    requires AllDigits(s)
    ensures DigitsValue(s) == PositionalValue(s)
  {
    if |s| > 0 {
      DigitsValueFront(s);
      DigitsPositional(s[1..]);
    }
  }

  /** `int()` accepts a plus sign, leading zeros and a negative zero. */
  lemma ParseIntForms()
    ensures ParseInt(Some("+5")) == Ok(5)
    ensures ParseInt(Some("007")) == Ok(7)
    ensures ParseInt(Some("-0")) == Ok(0)
    ensures ParseInt(Some("5 5")) == Halted(Raise(ValueError))
  {
    assert "+5"[1..] == "5";
    assert "-0"[1..] == "0";
    assert "5 5"[1] == ' ';
  }

  lemma {:induction false} ShowNatValue(n: nat)
    ensures DigitsValue(ShowNat(n)) == n
  {
    var s := ShowNat(n);
    if n >= 10 {
      ShowNatValue(n / 10);
      assert s[..|s| - 1] == ShowNat(n / 10);
    }
  }

  /** `int(str(n)) == n`. */
  lemma ParseShowInt(n: int)
    ensures ParseInt(Some(ShowInt(n))) == Ok(n)
  {
    if n < 0 {
      ShowNatValue(-n);
      assert ShowInt(n)[1..] == ShowNat(-n);
    } else {
      ShowNatValue(n);
    }
  }
}
