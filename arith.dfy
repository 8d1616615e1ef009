/**
 * Facts about multiplication, division and rounding down that the grid
 * geometry rests on, kept apart from the model so that the solver proves
 * each of them with nothing else in scope.
 */
module Arith {

  lemma MulLeftMono(a: real, b: real, w: real)
    requires a <= b && 0.0 < w
    ensures a * w <= b * w
  {
  }

  lemma MulStrictMono(a: real, b: real, w: real)
    requires a < b && 0.0 < w
    ensures a * w < b * w
  {
  }

  lemma MulCancelLt(a: real, b: real, w: real)
    requires a * w < b * w && 0.0 < w
    ensures a < b
  {
  }

  /** A point between `a * w` and `b * w` shows `a < b`. */
  lemma MulCancelAround(a: real, t: real, b: real, w: real)
    requires 0.0 < w && a * w <= t < b * w
    ensures a < b
  {
    MulCancelLt(a, b, w);
  }

  lemma IntMulMono(a: int, b: int, n: int)
    requires a <= b && 0 <= n
    ensures a * n <= b * n
  {
  }

  lemma IntMulCancelLt(a: int, b: int, n: int)
    requires a * n < b * n && 0 < n
    ensures a < b
  {
  }

  /** Row `r`, column `c` sits at position `r * n + c` of a row-major listing with `n` columns. */
  lemma RowMajorIndex(r: int, c: int, n: int)
    requires 0 <= r && 0 <= c < n
    ensures (r * n + c) / n == r && (r * n + c) % n == c
  {
    var i := r * n + c;
    var q, m := i / n, i % n;
    assert i == q * n + m && 0 <= m < n;
    var d := r - q;
    assert d * n == m - c;
    IntMulCancelLt(d, 1, n);
    IntMulCancelLt(-1, d, n);
  }

  /** A position of `r` rows of `n` columns, `r < rows`, lies inside a `rows` x `n` listing. */
  lemma RowMajorBound(r: int, c: int, n: int, rows: int)
    requires 0 <= r < rows && 0 <= c < n
    ensures 0 <= r * n + c < rows * n
  {
    IntMulMono(0, r, n);
    IntMulMono(r + 1, rows, n);
    assert r * n + c < (r + 1) * n;
  }

  /** Position `i` of a row-major listing of `rows` rows of `n` is row `i / n`, column `i % n`. */
  lemma RowMajorSplit(i: int, n: int, rows: int)
    requires 1 <= n && 0 <= i < rows * n
    ensures 0 <= i / n < rows && 0 <= i % n < n && i == (i / n) * n + i % n
  {
    assert (i / n) * n <= i;
    IntMulCancelLt(i / n, rows, n);
    IntMulMono(0, i / n, n);
  }

  lemma FloorBounds(q: real)
    ensures q.Floor as real <= q < (q.Floor + 1) as real
  {
  }

  /** `t` lies in the `k`-th interval of width `w`, for `k` the floor of `t / w`. */
  lemma FloorInterval(t: real, w: real)
    requires 0.0 < w
    ensures (t / w).Floor as real * w <= t
    ensures t < ((t / w).Floor + 1) as real * w
  {
    var q := t / w;
    assert q * w == t;
    FloorBounds(q);
    MulLeftMono(q.Floor as real, q, w);
    var m := (q.Floor + 1) as real;
    MulStrictMono(q, m, w);
    assert t < m * w;
  }

  /** Two intervals `[k * w, (k + 1) * w)` holding the same point have the same index. */
  lemma IntervalUnique(t: real, w: real, k1: int, k2: int)
    requires 0.0 < w
    requires k1 as real * w <= t < (k1 + 1) as real * w
    requires k2 as real * w <= t < (k2 + 1) as real * w
    ensures k1 == k2
  {
    MulCancelAround(k1 as real, t, (k2 + 1) as real, w);
    MulCancelAround(k2 as real, t, (k1 + 1) as real, w);
  }

  /** `n` parts of `size / n` make up `size`. */
  lemma PartsMakeWhole(size: real, n: real)
    requires 0.0 < n
    ensures n * (size / n) == size
  {
  }

  lemma MulSuccessor(k: int, w: real)
    ensures (k + 1) as real * w == k as real * w + w
    ensures (k - 1) as real * w == k as real * w - w
  {
  }

  /** `n` intervals of width `w` cover exactly `[0, n * w)`. */
  lemma IntervalIndexBounds(t: real, w: real, n: int, k: int)
    requires 0.0 < w && 1 <= n
    requires 0.0 <= t < n as real * w
    requires k as real * w <= t < (k + 1) as real * w
    ensures 0 <= k < n
  {
    MulCancelAround(0.0, t, (k + 1) as real, w);
    MulCancelAround(k as real, t, n as real, w);
  }

  /** Interval `k` of the `n` equal parts of `[0, size]` lies inside `[0, size]`. */
  lemma IntervalInside(k: int, n: int, size: real)
    requires 1 <= n && 0.0 < size
    ensures 0 <= k < n ==>
      var w := size / n as real; 0.0 <= k as real * w && k as real * w + w <= size
  {
    if 0 <= k < n {
      var w := size / n as real;
      MulSuccessor(k, w);
      MulLeftMono(0.0, k as real, w);
      MulLeftMono((k + 1) as real, n as real, w);
      PartsMakeWhole(size, n as real);
    }
  }

  lemma MulCancelLe(a: real, b: real, w: real)
    requires a * w <= b * w && 0.0 < w
    ensures a <= b
  {
  }

  /**
   * When `[0, size]` is cut into `n <= size` parts, each at least one unit
   * wide, the part holding `size - 1` is the last one.
   */
  lemma LastIntervalReached(size: int, n: int, k: int)
    requires 1 <= n <= size && k < n
    requires (size - 1) as real < (k + 1) as real * (size as real / n as real)
    ensures k == n - 1
  {
    var w := size as real / n as real;
    PartsMakeWhole(size as real, n as real);
    MulCancelLe(1.0, w, n as real);
    MulSuccessor(n, w);
    MulCancelAround((n - 1) as real, (size - 1) as real, (k + 1) as real, w);
  }
}
