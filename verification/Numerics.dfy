/** The engine's rational numbers as the daemon uses them: 64-bit numerator and denominator,
    added over the least common denominator, with an error value on overflow. */
module Numerics {
  import opened Options

  const INT64_MAX: int := 0x7fff_ffff_ffff_ffff
  const INT64_MIN: int := -0x8000_0000_0000_0000

  predicate InInt64(x: int) {
    INT64_MIN <= x <= INT64_MAX
  }

  type int64 = x: int | InInt64(x)
  type pos = x: int | 0 < x witness 1

  /** A number as it arrives on the wire; only a positive denominator makes it a value. */
  datatype Numeric = Numeric(num: int64, denom: int64)

  type Value = v: Numeric | 0 < v.denom witness Numeric(0, 1)

  const ZERO: Value := Numeric(0, 1)

  predicate Divides(d: pos, m: int) {
    m % d == 0
  }

  // ---- division facts

  lemma MultipleDivides(d: pos, k: int)
    ensures Divides(d, k * d)
    ensures (k * d) / d == k
  {
    var q := (k * d) / d;
    assert (k - q) * d == (k * d) % d;
    MultipleGrows(k - q, d);
  }

  lemma MultipleGrows(x: int, d: pos)
    ensures x >= 1 ==> x * d >= d
    ensures x <= -1 ==> x * d <= 0 - d
  {
  }

  lemma Quotient(d: pos, m: pos)
    requires Divides(d, m)
    ensures 0 < m / d && (m / d) * d == m
  {
  }

  lemma DividesSum(d: pos, a: int, b: int)
    requires Divides(d, a) && Divides(d, b)
    ensures Divides(d, a + b) && Divides(d, a - b)
  {
    assert a == (a / d) * d && b == (b / d) * d;
    MultipleDivides(d, a / d + b / d);
    MultipleDivides(d, a / d - b / d);
    assert (a / d + b / d) * d == a + b;
    assert (a / d - b / d) * d == a - b;
  }

  lemma DividesTransitive(d: pos, l: pos, m: int)
    requires Divides(d, l) && Divides(l, m)
    ensures Divides(d, m)
  {
    assert m == (m / l) * l && l == (l / d) * d;
    MultipleDivides(d, (m / l) * (l / d));
    assert (m / l) * (l / d) * d == (m / l) * ((l / d) * d);
  }

  lemma QuotientChain(d: pos, l: pos, m: pos)
    requires Divides(d, l) && Divides(l, m)
    ensures Divides(d, m) && m / d == (m / l) * (l / d)
  {
    DividesTransitive(d, l, m);
    assert m == (m / l) * l && l == (l / d) * d;
    MultipleDivides(d, (m / l) * (l / d));
    assert (m / l) * (l / d) * d == (m / l) * ((l / d) * d) == m;
  }

  // ---- least common multiple

  function LcmFrom(a: pos, b: pos, m: pos): (l: pos)
    requires m <= a * b
    ensures m <= l && Divides(a, l) && Divides(b, l)
    ensures forall k: pos :: m <= k < l ==> !(Divides(a, k) && Divides(b, k))
    decreases a * b - m
  {
    MultipleDivides(b, a);
    MultipleDivides(a, b);
    if Divides(a, m) && Divides(b, m) then m else LcmFrom(a, b, m + 1)
  }

  function Lcm(a: pos, b: pos): (l: pos)
    ensures Divides(a, l) && Divides(b, l)
    ensures forall k: pos :: k < l ==> !(Divides(a, k) && Divides(b, k))
  {
    assert 1 <= a * b;
    LcmFrom(a, b, 1)
  }

  /** The least common multiple divides exactly the common multiples. */
  lemma LcmDivides(a: pos, b: pos, m: pos)
    ensures Divides(Lcm(a, b), m) <==> Divides(a, m) && Divides(b, m)
  {
    var l := Lcm(a, b);
    if Divides(l, m) {
      DividesTransitive(a, l, m);
      DividesTransitive(b, l, m);
    }
    if Divides(a, m) && Divides(b, m) {
      var q, r := m / l, m % l;
      assert m == q * l + r;
      MultipleDivides(l, q);
      DividesTransitive(a, l, q * l);
      DividesTransitive(b, l, q * l);
      DividesSum(a, m, q * l);
      DividesSum(b, m, q * l);
      assert Divides(a, r) && Divides(b, r);
    }
  }

  // ---- engine addition

  /** The numerator of v over denominator m, a multiple of v's own denominator. */
  function Scale(v: Value, m: pos): int {
    v.num * (m / v.denom)
  }

  /** Engine addition over the least common denominator; None is the engine's error value. */
  function AddLcd(a: Value, b: Value): Option<Value> {
    var l := Lcm(a.denom, b.denom);
    var n := Scale(a, l) + Scale(b, l);
    if InInt64(l) && InInt64(n) then Some(Numeric(n, l)) else None
  }

  /** Whole units add up as integers do, up to the ends of 64 bits. */
  lemma AddUnits(a: Value, b: Value)
    requires a.denom == 1 && b.denom == 1
    ensures AddLcd(a, b) ==
            if -9223372036854775808 <= a.num + b.num <= 9223372036854775807 then Some(Numeric(a.num + b.num, 1)) else None
  {
    assert Divides(1, 1);
    assert Lcm(1, 1) == 1;
  }

  /** Adding to the error value yields the error value. */
  function AddSticky(a: Option<Value>, b: Value): Option<Value> {
    if a.None? then None else AddLcd(a.value, b)
  }

  /** The running sum that planning, the trial balance and the startup gate all keep. */
  function RunningSum(vs: seq<Value>): Option<Value> {
    if vs == [] then Some(ZERO)
    else AddSticky(RunningSum(vs[..|vs| - 1]), vs[|vs| - 1])
  }

  // ---- the exact reference: sums of reals

  function RealOf(v: Value): real {
    v.num as real / v.denom as real
  }

  function RealSum(vs: seq<Value>): real {
    if vs == [] then 0.0 else RealSum(vs[..|vs| - 1]) + RealOf(vs[|vs| - 1])
  }

  ghost function LcmAll(vs: seq<Value>): pos {
    if vs == [] then 1 else Lcm(LcmAll(vs[..|vs| - 1]), vs[|vs| - 1].denom)
  }

  ghost function ScaledSum(vs: seq<Value>, m: pos): int {
    if vs == [] then 0 else ScaledSum(vs[..|vs| - 1], m) + Scale(vs[|vs| - 1], m)
  }

  ghost predicate CommonMultiple(vs: seq<Value>, m: pos) {
    forall i :: 0 <= i < |vs| ==> Divides(vs[i].denom, m)
  }

  /** The exact sum of vs, written over the least common denominator, is representable. */
  ghost predicate Fits(vs: seq<Value>) {
    InInt64(LcmAll(vs)) && InInt64(ScaledSum(vs, LcmAll(vs)))
  }

  ghost predicate AllPrefixesFit(vs: seq<Value>) {
    forall k :: 0 <= k <= |vs| ==> Fits(vs[..k])
  }

  lemma {:induction false} LcmAllDivides(vs: seq<Value>, m: pos)
    ensures Divides(LcmAll(vs), m) <==> CommonMultiple(vs, m)
  {
    if vs != [] {
      var front := vs[..|vs| - 1];
      LcmAllDivides(front, m);
      LcmDivides(LcmAll(front), vs[|vs| - 1].denom, m);
      assert CommonMultiple(vs, m) <==> CommonMultiple(front, m) && Divides(vs[|vs| - 1].denom, m);
    }
  }

  lemma LcmAllCommon(vs: seq<Value>)
    ensures CommonMultiple(vs, LcmAll(vs))
  {
    LcmAllDivides(vs, LcmAll(vs));
  }

  lemma ScaleRescale(v: Value, l: pos, m: pos)
    requires Divides(v.denom, l) && Divides(l, m)
    ensures Scale(v, m) == Scale(v, l) * (m / l)
  {
    QuotientChain(v.denom, l, m);
    Reassociate(v.num, m / l, l / v.denom);
  }

  lemma Reassociate(x: int, j: int, k: int)
    ensures x * (j * k) == x * k * j
  {
  }

  lemma Distribute(x: int, y: int, k: int)
    ensures (x + y) * k == x * k + y * k
  {
  }

  /** Rescaling a sum from one common denominator to a larger one. */
  lemma {:induction false} ScaledSumRescale(vs: seq<Value>, l: pos, m: pos)
    requires CommonMultiple(vs, l) && Divides(l, m)
    ensures ScaledSum(vs, m) == ScaledSum(vs, l) * (m / l)
  {
    if vs != [] {
      var front, v := vs[..|vs| - 1], vs[|vs| - 1];
      ScaledSumRescale(front, l, m);
      ScaleRescale(v, l, m);
      Distribute(ScaledSum(front, l), Scale(v, l), m / l);
    }
  }

  /** x is the rational n / m. */
  ghost predicate IsRatio(x: real, n: int, m: pos) {
    x * m as real == n as real
  }

  lemma ScaleReal(v: Value, m: pos)
    requires Divides(v.denom, m)
    ensures IsRatio(RealOf(v), Scale(v, m), m)
  {
    var k := m / v.denom;
    assert m == k * v.denom;
    assert m as real == k as real * v.denom as real;
    assert RealOf(v) * v.denom as real == v.num as real;
    assert RealOf(v) * (k as real * v.denom as real) == RealOf(v) * v.denom as real * k as real;
  }

  lemma {:induction false} ScaledSumReal(vs: seq<Value>, m: pos)
    requires CommonMultiple(vs, m)
    ensures IsRatio(RealSum(vs), ScaledSum(vs, m), m)
  {
    if vs != [] {
      ScaledSumReal(vs[..|vs| - 1], m);
      ScaleReal(vs[|vs| - 1], m);
    }
  }

  lemma PrefixesExtend(vs: seq<Value>)
    requires vs != []
    ensures AllPrefixesFit(vs) <==> AllPrefixesFit(vs[..|vs| - 1]) && Fits(vs)
  {
    var front := vs[..|vs| - 1];
    assert forall k :: 0 <= k <= |front| ==> front[..k] == vs[..k];
    assert vs[..|vs|] == vs;
  }

  /** The running sum, when it exists, is the exact sum over the lcm of the denominators seen. */
  lemma {:induction false} RunningSumScaled(vs: seq<Value>)
    ensures RunningSum(vs).Some? <==> AllPrefixesFit(vs)
    ensures RunningSum(vs).Some? ==>
              RunningSum(vs).value.denom == LcmAll(vs) && RunningSum(vs).value.num == ScaledSum(vs, LcmAll(vs))
  {
    if vs == [] {
      assert vs[..0] == [];
    } else {
      var front, v := vs[..|vs| - 1], vs[|vs| - 1];
      RunningSumScaled(front);
      PrefixesExtend(vs);
      LcmAllCommon(front);
      ScaledSumRescale(front, LcmAll(front), LcmAll(vs));
    }
  }

  lemma PrefixFits(vs: seq<Value>, front: seq<Value>)
    requires AllPrefixesFit(vs) && front <= vs
    ensures AllPrefixesFit(front)
  {
    forall k | 0 <= k <= |front|
      ensures Fits(front[..k])
    {
      assert front[..k] == vs[..k];
    }
  }

  /** The running sum is exact: it exists exactly when every prefix's exact sum is
      representable, and then it equals the sum of the values as real numbers. */
  lemma RunningSumExact(vs: seq<Value>)
    ensures RunningSum(vs).Some? <==> AllPrefixesFit(vs)
    ensures RunningSum(vs).Some? ==>
              && RunningSum(vs).value.denom == LcmAll(vs)
              && RealOf(RunningSum(vs).value) == RealSum(vs)
              && (RunningSum(vs).value.num == 0 <==> RealSum(vs) == 0.0)
  {
    RunningSumScaled(vs);
    if RunningSum(vs).Some? {
      RealQuotient(vs, RunningSum(vs).value);
    }
  }

  lemma RealQuotient(vs: seq<Value>, s: Value)
    requires s.denom == LcmAll(vs) && s.num == ScaledSum(vs, LcmAll(vs))
    ensures RealOf(s) == RealSum(vs)
    ensures s.num == 0 <==> RealSum(vs) == 0.0
  {
    LcmAllCommon(vs);
    ScaledSumReal(vs, LcmAll(vs));
    QuotientOf(RealSum(vs), s);
  }

  lemma QuotientOf(x: real, s: Value)
    requires IsRatio(x, s.num, s.denom)
    ensures RealOf(s) == x
    ensures s.num == 0 <==> x == 0.0
  {
    DivideOut(x, s.num as real, s.denom as real);
  }

  lemma DivideOut(x: real, n: real, d: real)
    requires d > 0.0 && x * d == n
    ensures n / d == x
    ensures n == 0.0 <==> x == 0.0
  {
  }

  // ---- order independence

  lemma {:induction false} RealSumConcat(a: seq<Value>, b: seq<Value>)
    ensures RealSum(a + b) == RealSum(a) + RealSum(b)
  {
    if b == [] {
      assert a + b == a;
    } else {
      RealSumConcat(a, b[..|b| - 1]);
      assert (a + b)[..|a + b| - 1] == a + b[..|b| - 1];
    }
  }

  lemma Remove(a: seq<Value>, v: Value, m: pos) returns (i: nat)
    requires v in multiset(a)
    ensures i < |a| && a[i] == v
    ensures multiset(a[..i] + a[i + 1..]) == multiset(a) - multiset{v}
    ensures RealSum(a) == RealSum(a[..i] + a[i + 1..]) + RealOf(v)
    ensures Magnitude(a, m) == Magnitude(a[..i] + a[i + 1..], m) + Abs(Scale(v, m))
  {
    assert v in a;
    i :| 0 <= i < |a| && a[i] == v;
    var front, back := a[..i], a[i + 1..];
    assert a == front + ([v] + back);
    RealSumConcat(front, [v] + back);
    RealSumConcat([v], back);
    RealSumConcat(front, back);
    MagnitudeConcat(front, [v] + back, m);
    MagnitudeConcat([v], back, m);
    MagnitudeConcat(front, back, m);
    assert [v][..0] == [];
  }

  /** Neither the exact sum nor the sum of magnitudes depends on the order of the splits. */
  lemma {:induction false} RealSumPermutation(a: seq<Value>, b: seq<Value>, m: pos)
    requires multiset(a) == multiset(b)
    ensures RealSum(a) == RealSum(b)
    ensures Magnitude(a, m) == Magnitude(b, m)
  {
    if a == [] {
      assert |multiset(b)| == |b|;
    } else {
      var front, v := a[..|a| - 1], a[|a| - 1];
      assert a == front + [v];
      assert v in multiset(a);
      var i := Remove(b, v, m);
      RealSumPermutation(front, b[..i] + b[i + 1..], m);
    }
  }

  /** Reordering can only turn a verdict into overflow or back: two orders that both avoid
      overflow give the same verdict, so an unbalanced list is never accepted in any order. */
  lemma PermutationChangesOnlyOverflow(a: seq<Value>, b: seq<Value>)
    requires multiset(a) == multiset(b)
    requires RunningSum(a).Some? && RunningSum(b).Some?
    ensures RunningSum(a).value.num == 0 <==> RunningSum(b).value.num == 0
  {
    RunningSumExact(a);
    RunningSumExact(b);
    RealSumPermutation(a, b, 1);
  }

  // ---- a bound under which no order overflows

  function Abs(x: int): nat { if x < 0 then -x else x }

  ghost function Magnitude(vs: seq<Value>, m: pos): int {
    if vs == [] then 0 else Magnitude(vs[..|vs| - 1], m) + Abs(Scale(vs[|vs| - 1], m))
  }

  /** Some common denominator m of the values is representable, and so is the sum of their
      magnitudes written over it. */
  ghost predicate WithinBound(vs: seq<Value>, m: pos) {
    CommonMultiple(vs, m) && m <= INT64_MAX && Magnitude(vs, m) <= INT64_MAX
  }

  lemma {:induction false} MagnitudeConcat(a: seq<Value>, b: seq<Value>, m: pos)
    ensures Magnitude(a + b, m) == Magnitude(a, m) + Magnitude(b, m)
  {
    if b == [] {
      assert a + b == a;
    } else {
      MagnitudeConcat(a, b[..|b| - 1], m);
      assert (a + b)[..|a + b| - 1] == a + b[..|b| - 1];
    }
  }

  lemma {:induction false} MagnitudeBoundsSum(vs: seq<Value>, m: pos)
    ensures Abs(ScaledSum(vs, m)) <= Magnitude(vs, m)
  {
    if vs != [] {
      MagnitudeBoundsSum(vs[..|vs| - 1], m);
    }
  }

  /** A value that is small over m is small over every divisor of m. */
  lemma SmallerScale(x: int, k: pos)
    ensures Abs(x) <= Abs(x * k)
  {
  }

  lemma BoundFits(vs: seq<Value>, m: pos)
    requires WithinBound(vs, m)
    ensures Fits(vs)
  {
    var l := LcmAll(vs);
    LcmAllDivides(vs, m);
    Quotient(l, m);
    LcmAllCommon(vs);
    ScaledSumRescale(vs, l, m);
    MagnitudeBoundsSum(vs, m);
    SmallerScale(ScaledSum(vs, l), m / l);
    SmallerScale(l, m / l);
  }

  /** Within the bound, no order of the values makes a running sum overflow. */
  lemma BoundedNeverOverflows(vs: seq<Value>, m: pos)
    requires WithinBound(vs, m)
    ensures RunningSum(vs).Some?
  {
    RunningSumScaled(vs);
    forall k | 0 <= k <= |vs|
      ensures Fits(vs[..k])
    {
      assert vs == vs[..k] + vs[k..];
      MagnitudeConcat(vs[..k], vs[k..], m);
      MagnitudeBoundsSum(vs[k..], m);
      BoundFits(vs[..k], m);
    }
  }

  /** The bound is a property of the values alone, so it covers every order at once. */
  lemma BoundedInEveryOrder(vs: seq<Value>, m: pos, order: seq<Value>)
    requires WithinBound(vs, m) && multiset(order) == multiset(vs)
    ensures RunningSum(order).Some?
  {
    RealSumPermutation(vs, order, m);
    forall i | 0 <= i < |order|
      ensures Divides(order[i].denom, m)
    {
      assert order[i] in multiset(order);
      assert order[i] in vs;
    }
    BoundedNeverOverflows(order, m);
  }
}
