/** Values shared by the backtest and the signal generator: float64 columns that
    may hold NaN, the discrete trading signal, and sums over price sequences. */
module Values {

  datatype Option<+T> = None | Some(value: T)

  /** A float64 cell as pandas and numpy see it: `Some(x)` is the number x and
      `None` is NaN (a rolling mean during warm-up, a shifted-in first row). */
  type Num = Option<real>

  /** The per-bar trading signal: 1 long, -1 short, 0 none. */
  type Signal = s: int | -1 <= s <= 1

  /** IEEE comparisons: every comparison involving NaN is false. */
  predicate Lt(a: Num, b: Num) { a.Some? && b.Some? && a.value < b.value }
  predicate Le(a: Num, b: Num) { a.Some? && b.Some? && a.value <= b.value }
  predicate Gt(a: Num, b: Num) { Lt(b, a) }
  predicate Ge(a: Num, b: Num) { Le(b, a) }

  /** IEEE arithmetic: NaN in, NaN out. */
  function Add(a: Num, b: Num): Num {
    if a.Some? && b.Some? then Some(a.value + b.value) else None
  }
  function Sub(a: Num, b: Num): Num {
    if a.Some? && b.Some? then Some(a.value - b.value) else None
  }
  function Mul(a: Num, b: Num): Num {
    if a.Some? && b.Some? then Some(a.value * b.value) else None
  }

  /** Python's built-in `max(a, b)`: keeps `a` unless `b > a`, so a NaN first
      argument always survives and a NaN second argument is always dropped. */
  function PyMax(a: Num, b: Num): (r: Num)
    ensures a.Some? && b.Some? ==>
              r.Some? && r.value >= a.value && r.value >= b.value && (r.value == a.value || r.value == b.value)
    ensures a.None? ==> r.None?
    ensures b.None? ==> r == a
  {
    if Gt(b, a) then b else a
  }

  /** Python's built-in `min(a, b)`: keeps `a` unless `b < a`. */
  function PyMin(a: Num, b: Num): (r: Num)
    ensures a.Some? && b.Some? ==>
              r.Some? && r.value <= a.value && r.value <= b.value && (r.value == a.value || r.value == b.value)
    ensures a.None? ==> r.None?
    ensures b.None? ==> r == a
  {
    if Lt(b, a) then b else a
  }

  /** Python's `max`/`min` on two defined floats. */
  function Max(a: real, b: real): real { if b > a then b else a }
  function Min(a: real, b: real): real { if b < a then b else a }

  /** On defined values `Max` and `Min` are `PyMax` and `PyMin`. */
  lemma MaxMinArePy(a: real, b: real)
    ensures PyMax(Some(a), Some(b)) == Some(Max(a, b))
    ensures PyMin(Some(a), Some(b)) == Some(Min(a, b))
  {
  }

  /** The sum of a sequence, accumulated from the front. */
  function Sum(xs: seq<real>): real
  {
    if xs == [] then 0.0 else xs[0] + Sum(xs[1..])
  }

  /** Appending one element adds it to the sum. */
  lemma {:induction false} SumSnoc(xs: seq<real>, x: real)
    ensures Sum(xs + [x]) == Sum(xs) + x
  {
    if xs != [] {
      assert (xs + [x])[1..] == xs[1..] + [x];
      SumSnoc(xs[1..], x);
    }
  }

  /** Summing a prefix one element longer adds that element. */
  lemma SumPrefix(xs: seq<real>, k: nat)
    requires k < |xs|
    ensures Sum(xs[..k + 1]) == Sum(xs[..k]) + xs[k]
  {
    assert xs[..k + 1] == xs[..k] + [xs[k]];
    SumSnoc(xs[..k], xs[k]);
  }

  /** Every element lies in [lo, hi], so the sum lies in [n * lo, n * hi]. */
  lemma {:induction false} SumBounds(xs: seq<real>, lo: real, hi: real)
    requires forall k :: 0 <= k < |xs| ==> lo <= xs[k] <= hi
    ensures |xs| as real * lo <= Sum(xs) <= |xs| as real * hi
  {
    if xs != [] {
      SumBounds(xs[1..], lo, hi);
      assert |xs| as real * lo == lo + (|xs| - 1) as real * lo;
      assert |xs| as real * hi == hi + (|xs| - 1) as real * hi;
    }
  }

  /** Dividing by a nonzero n and multiplying back gives the original value. */
  lemma DivThenMul(x: real, n: real)
    requires n != 0.0
    ensures (x / n) * n == x
  {
  }

  /** n * lo <= total <= n * hi gives lo <= total / n <= hi. */
  lemma MeanBetween(total: real, n: real, lo: real, hi: real)
    requires n > 0.0 && n * lo <= total <= n * hi
    ensures lo <= total / n <= hi
  {
    DivThenMul(total, n);
    Scale(lo, total / n, n);
    Scale(total / n, hi, n);
  }

  /** Multiplying both sides by a positive n preserves and reflects order. */
  lemma Scale(a: real, b: real, n: real)
    requires n > 0.0
    ensures a * n <= b * n <==> a <= b
  {
  }
}
