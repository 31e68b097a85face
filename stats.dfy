/** The plain statistics the analyzers need: sum, mean, sorting, the
    linear-interpolation quantile that pandas uses by default, and idxmax. */
module Stats {

  function Abs(x: real): (r: real)
    ensures r >= 0.0 && (r == x || r == -x)
  {
    if x < 0.0 then -x else x
  }

  function Sum(xs: seq<real>): real
    decreases |xs|
  {
    if xs == [] then 0.0 else Sum(xs[..|xs| - 1]) + xs[|xs| - 1]
  }

  function Mean(xs: seq<real>): real
    requires |xs| > 0
  {
    Sum(xs) / |xs| as real
  }

  /** A sum of values that all lie in [lo, hi] lies in [n lo, n hi]. */
  lemma {:induction false} SumWithin(xs: seq<real>, lo: real, hi: real)
    requires forall i :: 0 <= i < |xs| ==> lo <= xs[i] <= hi
    ensures |xs| as real * lo <= Sum(xs) <= |xs| as real * hi
    decreases |xs|
  {
    if xs != [] {
      SumWithin(xs[..|xs| - 1], lo, hi);
    }
  }

  /** The mean of values that all lie in [lo, hi] lies there too. */
  lemma MeanWithin(xs: seq<real>, lo: real, hi: real)
    requires |xs| > 0 && forall i :: 0 <= i < |xs| ==> lo <= xs[i] <= hi
    ensures lo <= Mean(xs) <= hi
  {
    SumWithin(xs, lo, hi);
    var n := |xs| as real;
    assert n * lo / n == lo && n * hi / n == hi;
  }

  /** A count out of a positive whole, as a percentage, lies in [0, 100],
      and is positive when the count is. */
  lemma PercentOfWhole(part: nat, whole: nat)
    requires part <= whole && whole > 0
    ensures 0.0 <= part as real / whole as real * 100.0 <= 100.0
    ensures part > 0 ==> part as real / whole as real * 100.0 > 0.0
  {
    assert part as real / whole as real <= 1.0;
  }

  predicate Sorted(xs: seq<real>) {
    forall i, j :: 0 <= i < j < |xs| ==> xs[i] <= xs[j]
  }

  /** x is no larger than any element of s. */
  predicate AtMost(x: real, s: seq<real>) {
    forall j :: 0 <= j < |s| ==> x <= s[j]
  }

  lemma ConsSorted(x: real, s: seq<real>)
    requires Sorted(s) && AtMost(x, s)
    ensures Sorted([x] + s)
  {
    forall i, j | 0 <= i < j < |[x] + s| ensures ([x] + s)[i] <= ([x] + s)[j] {
      if i > 0 { assert ([x] + s)[i] == s[i - 1]; }
      assert ([x] + s)[j] == s[j - 1];
    }
  }

  function Insert(x: real, s: seq<real>): (r: seq<real>)
    requires Sorted(s)
    ensures Sorted(r) && |r| == |s| + 1
    ensures multiset(r) == multiset(s) + multiset{x}
    ensures forall y :: AtMost(y, s) && y <= x ==> AtMost(y, r)
    decreases |s|
  {
    if s == [] || x <= s[0] then
      ConsSorted(x, s);
      [x] + s
    else
      var rest := Insert(x, s[1..]);
      assert AtMost(s[0], s[1..]);
      ConsSorted(s[0], rest);
      InsertAfterHead(x, s, rest);
      [s[0]] + rest
  }

  /** The facts `Insert` needs when x goes after the head of s. */
  lemma InsertAfterHead(x: real, s: seq<real>, rest: seq<real>)
    requires |s| > 0 && s[0] < x
    requires multiset(rest) == multiset(s[1..]) + multiset{x}
    requires forall y :: AtMost(y, s[1..]) && y <= x ==> AtMost(y, rest)
    ensures multiset([s[0]] + rest) == multiset(s) + multiset{x}
    ensures forall y :: AtMost(y, s) && y <= x ==> AtMost(y, [s[0]] + rest)
  {
    assert s == [s[0]] + s[1..];
    forall y | AtMost(y, s) && y <= x ensures AtMost(y, [s[0]] + rest) {
      assert AtMost(y, s[1..]);
      assert AtMost(y, rest);
    }
  }

  /** Ascending order of the same values (insertion sort). */
  function Sort(xs: seq<real>): (r: seq<real>)
    ensures Sorted(r) && |r| == |xs|
    ensures multiset(r) == multiset(xs)
    decreases |xs|
  {
    if xs == [] then []
    else
      assert xs == [xs[0]] + xs[1..];
      Insert(xs[0], Sort(xs[1..]))
  }

  /** The ends of the sorted values are values, and bound every value. */
  lemma SortBounds(xs: seq<real>)
    requires |xs| > 0
    ensures var s := Sort(xs);
      && s[0] in xs && s[|s| - 1] in xs
      && forall i :: 0 <= i < |xs| ==> s[0] <= xs[i] <= s[|s| - 1]
  {
    OrderedPermutationBounds(Sort(xs), xs);
  }

  /** The same, for any sorted sequence with the values of xs. */
  lemma OrderedPermutationBounds(s: seq<real>, xs: seq<real>)
    requires Sorted(s) && |s| > 0 && multiset(s) == multiset(xs)
    ensures s[0] in xs && s[|s| - 1] in xs
    ensures forall i :: 0 <= i < |xs| ==> s[0] <= xs[i] <= s[|s| - 1]
  {
    assert s[0] in multiset(s) && s[|s| - 1] in multiset(s);
    forall i | 0 <= i < |xs| ensures s[0] <= xs[i] <= s[|s| - 1] {
      assert xs[i] in multiset(xs);
      var k :| 0 <= k < |s| && s[k] == xs[i];
    }
  }

  /** Sorting a sequence that is already in order changes nothing. */
  lemma {:induction false} SortOfSorted(xs: seq<real>)
    requires Sorted(xs)
    ensures Sort(xs) == xs
    decreases |xs|
  {
    if xs != [] {
      SortOfSorted(xs[1..]);
      assert xs == [xs[0]] + xs[1..];
    }
  }

  /** Multiplying by a non-negative factor keeps the order. */
  lemma MulMonotone(a: real, b: real, c: real)
    requires a <= b && 0.0 <= c
    ensures a * c <= b * c
  {
    assert b * c - a * c == (b - a) * c;
  }
  /** The point a fraction f of the way from a to b. */
  function Lerp(a: real, b: real, f: real): real {
    a + f * (b - a)
  }
  /** Lerp stays between its ends and grows with the fraction. */
  lemma LerpMonotone(a: real, b: real, f1: real, f2: real)
    requires a <= b && 0.0 <= f1 <= f2 <= 1.0
    ensures a <= Lerp(a, b, f1) <= Lerp(a, b, f2) <= b
  {
    MulMonotone(0.0, f1, b - a);
    MulMonotone(f1, f2, b - a);
    MulMonotone(f2, 1.0, b - a);
  }
  /** Value at fractional position `pos` of a sorted sequence, interpolating
      linearly between its two neighbours. */
  function Interpolate(xs: seq<real>, pos: real): (v: real)
    requires Sorted(xs) && 0.0 <= pos <= (|xs| - 1) as real
    ensures xs[0] <= v <= xs[|xs| - 1]
  {
    var lo := pos.Floor;
    if lo + 1 < |xs| then
      LerpMonotone(xs[lo], xs[lo + 1], pos - lo as real, pos - lo as real);
      Lerp(xs[lo], xs[lo + 1], pos - lo as real)
    else
      xs[lo]
  }
  /** A later position never gives a smaller value. */
  lemma InterpolateMonotone(xs: seq<real>, pos1: real, pos2: real)
    requires Sorted(xs) && 0.0 <= pos1 <= pos2 <= (|xs| - 1) as real
    ensures Interpolate(xs, pos1) <= Interpolate(xs, pos2)
  {
    var lo1, lo2 := pos1.Floor, pos2.Floor;
    if lo1 == lo2 {
      if lo1 + 1 < |xs| {
        LerpMonotone(xs[lo1], xs[lo1 + 1], pos1 - lo1 as real, pos2 - lo2 as real);
      }
    } else {
      LerpMonotone(xs[lo1], xs[lo1 + 1], pos1 - lo1 as real, pos1 - lo1 as real);
      assert xs[lo1 + 1] <= xs[lo2];
      if lo2 + 1 < |xs| {
        LerpMonotone(xs[lo2], xs[lo2 + 1], pos2 - lo2 as real, pos2 - lo2 as real);
      }
    }
  }
  /** Where level p falls among n sorted values, counted from 0. */
  function Position(p: real, n: nat): (pos: real)
    requires 0.0 <= p <= 1.0 && n > 0
    ensures 0.0 <= pos <= (n - 1) as real
  {
    var m: real := (n - 1) as real;
    var pos := p * m;
    assert 0.0 <= pos by {
      MulMonotone(0.0, p, m);
    }
    assert pos <= m by {
      MulMonotone(p, 1.0, m);
    }
    pos
  }
  /** A larger level never gives an earlier position. */
  lemma PositionMonotone(p1: real, p2: real, n: nat)
    requires 0.0 <= p1 <= p2 <= 1.0 && n > 0
    ensures Position(p1, n) <= Position(p2, n)
  {
    MulMonotone(p1, p2, (n - 1) as real);
  }
  /** pandas' `Series.quantile(p)` (linear interpolation) over the sorted values. */
  function Quantile(xs: seq<real>, p: real): (q: real)
    requires Sorted(xs) && |xs| > 0 && 0.0 <= p <= 1.0
    ensures xs[0] <= q <= xs[|xs| - 1]
  {
    Interpolate(xs, Position(p, |xs|))
  }
  /** A larger quantile level never gives a smaller quantile. */
  lemma QuantileMonotone(xs: seq<real>, p1: real, p2: real)
    requires Sorted(xs) && |xs| > 0 && 0.0 <= p1 <= p2 <= 1.0
    ensures Quantile(xs, p1) <= Quantile(xs, p2)
  {
    PositionMonotone(p1, p2, |xs|);
    InterpolateMonotone(xs, Position(p1, |xs|), Position(p2, |xs|));
  }

  /** pandas' `idxmax`: the position of the FIRST largest element. */
  function ArgMax(xs: seq<real>): (k: nat)
    requires |xs| > 0
    ensures k < |xs|
    ensures forall i :: 0 <= i < |xs| ==> xs[i] <= xs[k]
    ensures forall i :: 0 <= i < k ==> xs[i] < xs[k]
    decreases |xs|
  {
    if |xs| == 1 then 0
    else
      var k := ArgMax(xs[..|xs| - 1]);
      if xs[|xs| - 1] > xs[k] then |xs| - 1 else k
  }
}
