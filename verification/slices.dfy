/**
 Python and NumPy sequence primitives used by the windowing and the
 forecast code: `np.arange(n)`, `s[start:stop]` with Python's clamping and
 negative-index rules, boolean-mask indexing `a[mask]`, and `enumerate`
 turned into a name-to-position dict.
 */
module Slices {
  import opened Outcomes

  function Max(a: int, b: int): int { if a >= b then a else b }

  /** `np.arange(n)`: 0, 1, ..., n - 1, empty when n <= 0. */
  function Arange(n: int): (r: seq<int>)
    ensures |r| == Max(n, 0)
    ensures forall i :: 0 <= i < |r| ==> r[i] == i
  {
    seq(Max(n, 0), i => i)
  }

  /** `np.arange(lo, hi)` on integers (and on day-resolution dates). */
  function ArangeFrom(lo: int, hi: int): (r: seq<int>)
    ensures |r| == Max(hi - lo, 0)
    ensures forall i :: 0 <= i < |r| ==> r[i] == lo + i
  {
    seq(Max(hi - lo, 0), i => lo + i)
  }

  /** Where a slice bound lands in a sequence of length `len`: a negative
      bound counts from the end, and the result is clamped to [0, len]. */
  function SliceBound(len: nat, bound: Option<int>, default: nat): (k: nat)
    requires default <= len
    ensures k <= len
    ensures bound.Some? && 0 <= bound.value <= len ==> k == bound.value
    ensures bound.Some? && 0 <= len as int + bound.value && bound.value < 0 ==> k == len as int + bound.value
    ensures bound.Some? && bound.value > len ==> k == len
    ensures bound.Some? && len as int + bound.value < 0 ==> k == 0
    ensures bound.None? ==> k == default
  {
    match bound
    case None => default
    case Some(b) =>
      if b < 0 then Max(b + len, 0)
      else if b > len then len
      else b
  }

  /** `s[start:stop]` with step 1; `None` stands for an omitted bound. */
  function Slice<T>(s: seq<T>, start: Option<int>, stop: Option<int>): (r: seq<T>)
    ensures var lo, hi := SliceBound(|s|, start, 0), SliceBound(|s|, stop, |s|);
      && |r| == Max(hi - lo, 0)
      && forall i :: 0 <= i < |r| ==> r[i] == s[lo + i]
  {
    var lo, hi := SliceBound(|s|, start, 0), SliceBound(|s|, stop, |s|);
    if lo < hi then s[lo..hi] else []
  }

  /** How many entries of a mask are set. */
  function CountTrue(mask: seq<bool>): nat {
    if |mask| == 0 then 0 else (if mask[0] then 1 else 0) + CountTrue(mask[1..])
  }

  /** Boolean-mask indexing `a[mask]`: the elements whose mask entry is
      true, in order. The order is pinned down by `SelectConcat`. */
  function Select<T(!new)>(xs: seq<T>, mask: seq<bool>): (r: seq<T>)
    requires |mask| == |xs|
    ensures |r| == CountTrue(mask)
    ensures forall i :: 0 <= i < |xs| && mask[i] ==> xs[i] in r
    ensures forall y :: y in r ==> exists i :: 0 <= i < |xs| && mask[i] && xs[i] == y
  {
    if |xs| == 0 then []
    else
      var rest := Select(xs[1..], mask[1..]);
      assert forall i :: 1 <= i < |xs| ==> xs[i] == xs[1..][i - 1] && mask[i] == mask[1..][i - 1];
      (if mask[0] then [xs[0]] else []) + rest
  }

  /** Masking a concatenation masks each part: `a[mask]` keeps the selected
      elements in their original order. */
  lemma {:induction false} SelectConcat<T(!new)>(xs: seq<T>, ys: seq<T>, m1: seq<bool>, m2: seq<bool>)
    requires |m1| == |xs| && |m2| == |ys|
    ensures Select(xs + ys, m1 + m2) == Select(xs, m1) + Select(ys, m2)
  {
    if |xs| > 0 {
      assert (xs + ys)[1..] == xs[1..] + ys;
      assert (m1 + m2)[1..] == m1[1..] + m2;
      SelectConcat(xs[1..], ys, m1[1..], m2);
    } else {
      assert xs + ys == ys && m1 + m2 == m2;
    }
  }

  /** Element-wise image of a sequence. */
  function MapSeq<T, U>(f: T -> U, xs: seq<T>): (r: seq<U>)
    ensures |r| == |xs|
    ensures forall i :: 0 <= i < |xs| ==> r[i] == f(xs[i])
  {
    seq(|xs|, i requires 0 <= i < |xs| => f(xs[i]))
  }

  /** `[x for x in xs if p(x)]`: the elements satisfying p, in order. The
      multiplicities are stated by `FilterCounts`, the order by
      `FilterConcat`. */
  function Filter<T(!new)>(p: T -> bool, xs: seq<T>): (r: seq<T>)
    ensures |r| <= |xs|
    ensures forall y :: y in r <==> y in xs && p(y)
  {
    if |xs| == 0 then []
    else
      assert xs == [xs[0]] + xs[1..];
      (if p(xs[0]) then [xs[0]] else []) + Filter(p, xs[1..])
  }

  /** A filter keeps every occurrence of an element satisfying p, and
      none of the others. */
  lemma {:induction false} FilterCounts<T(!new)>(p: T -> bool, xs: seq<T>)
    ensures forall y :: multiset(Filter(p, xs))[y] == if p(y) then multiset(xs)[y] else 0
  {
    if |xs| > 0 {
      assert xs == [xs[0]] + xs[1..];
      FilterCounts(p, xs[1..]);
    }
  }

  /** Filtering a concatenation filters each part. */
  lemma {:induction false} FilterConcat<T(!new)>(p: T -> bool, xs: seq<T>, ys: seq<T>)
    ensures Filter(p, xs + ys) == Filter(p, xs) + Filter(p, ys)
  {
    if |xs| > 0 {
      assert (xs + ys)[1..] == xs[1..] + ys;
      FilterConcat(p, xs[1..], ys);
    } else {
      assert xs + ys == ys;
    }
  }

  /** A filter keeps the relative order of what it keeps: a relation that
      holds between every earlier and later element of xs still holds
      between every earlier and later element kept. */
  lemma {:induction false} FilterPairwise<T(!new)>(p: T -> bool, R: (T, T) -> bool, xs: seq<T>)
    requires forall i, j :: 0 <= i < j < |xs| ==> R(xs[i], xs[j])
    ensures forall i, j :: 0 <= i < j < |Filter(p, xs)| ==> R(Filter(p, xs)[i], Filter(p, xs)[j])
  {
    if |xs| > 0 {
      var tail := xs[1..];
      forall i, j | 0 <= i < j < |tail| ensures R(tail[i], tail[j]) {
        assert tail[i] == xs[i + 1] && tail[j] == xs[j + 1];
      }
      FilterPairwise(p, R, tail);
      var rest := Filter(p, tail);
      if p(xs[0]) {
        var r := [xs[0]] + rest;
        assert Filter(p, xs) == r;
        forall i, j | 0 <= i < j < |r| ensures R(r[i], r[j]) {
          if i == 0 {
            assert r[j] == rest[j - 1] && rest[j - 1] in tail;
            var k :| 0 <= k < |tail| && tail[k] == rest[j - 1];
            assert tail[k] == xs[k + 1];
          } else {
            assert r[i] == rest[i - 1] && r[j] == rest[j - 1];
          }
        }
      } else {
        assert Filter(p, xs) == rest;
      }
    }
  }

  /** Nothing is kept when no element satisfies p. */
  lemma {:induction false} FilterNone<T(!new)>(p: T -> bool, xs: seq<T>)
    requires forall y :: y in xs ==> !p(y)
    ensures Filter(p, xs) == []
  {
    if |xs| > 0 {
      assert xs[0] in xs;
      assert forall y :: y in xs[1..] ==> y in xs;
      FilterNone(p, xs[1..]);
    }
  }

  /** The last element a filter keeps is the last element of xs that
      satisfies p. */
  lemma FilterLast<T(!new)>(p: T -> bool, xs: seq<T>, j: nat)
    requires j < |xs| && p(xs[j])
    requires forall k :: j < k < |xs| ==> !p(xs[k])
    ensures |Filter(p, xs)| > 0 && Filter(p, xs)[|Filter(p, xs)| - 1] == xs[j]
  {
    var head, tail := xs[..j], xs[j + 1..];
    assert xs == (head + [xs[j]]) + tail;
    FilterConcat(p, head + [xs[j]], tail);
    FilterConcat(p, head, [xs[j]]);
    assert Filter(p, [xs[j]]) == [xs[j]] by {
      assert [xs[j]][1..] == [];
    }
    forall y | y in tail ensures !p(y) {
      var k :| 0 <= k < |tail| && tail[k] == y;
      assert xs[j + 1 + k] == y;
    }
    FilterNone(p, tail);
    assert Filter(p, xs) == Filter(p, head) + [xs[j]];
  }

  /** `{name: i for i, name in enumerate(names)}`: every name maps to its
      position; when a name repeats, the later position overwrites the
      earlier one, so each name maps to its last position. */
  function IndexMap(names: seq<string>): (m: map<string, nat>)
    ensures forall n :: n in m <==> n in names
    ensures forall n :: n in m ==> m[n] < |names| && names[m[n]] == n
    ensures forall n, j :: n in m && m[n] < j < |names| ==> names[j] != n
  {
    if |names| == 0 then map[]
    else
      var prefix := names[..|names| - 1];
      var last := names[|names| - 1];
      assert names == prefix + [last];
      IndexMap(prefix)[last := |names| - 1]
  }

  /** With distinct names, the dict inverts the list. */
  lemma IndexMapDistinct(names: seq<string>, i: nat)
    requires forall a, b :: 0 <= a < b < |names| ==> names[a] != names[b]
    requires i < |names|
    ensures names[i] in IndexMap(names) && IndexMap(names)[names[i]] == i
  {
    var m := IndexMap(names);
    assert names[i] in m;
    assert names[m[names[i]]] == names[i];
  }
}
