/** `measure_error`, identical in both aligners: the mean squared difference
    between the reference and a cyclically rolled copy of the rendition, over
    the common prefix of the two series. */
module ErrorScan {

  /** `np.roll(v, k)`: entry i of the result is entry (i - k) mod n of `v`
      (Python's modulo, which for a positive modulus is Dafny's). */
  function Roll(v: seq<real>, k: int): (r: seq<real>)
    ensures |r| == |v|
  {
    seq(|v|, i requires 0 <= i < |v| => v[(i - k) % |v|])
  }

  /** Rolling by `k` moves entry `i` to position `(i + k) mod n`. */
  lemma RollMoves(v: seq<real>, k: int, i: int)
    requires 0 <= i < |v|
    ensures Roll(v, k)[(i + k) % |v|] == v[i]
  {
    var n := |v|;
    ModSum(i + k, -k, n);
    ModUnique(i, n, 0, i);
    assert ((i + k) % n - k) % n == i;
  }

  /** Euclidean division is unique: a quotient and an in-range remainder that
      rebuild `a` are the ones `/` and `%` give. */
  lemma ModUnique(a: int, n: int, q: int, r: int)
    requires n > 0 && 0 <= r < n && a == q * n + r
    ensures a % n == r
  {
    var q0, r0 := a / n, a % n;
    assert (q - q0) * n == r0 - r;
    if q > q0 {
      assert (q - q0) * n >= n by { MulAtLeast(q - q0, n); }
    } else if q < q0 {
      assert (q0 - q) * n >= n by { MulAtLeast(q0 - q, n); }
    }
  }

  lemma MulAtLeast(d: int, n: int)
    requires d >= 1 && n > 0
    ensures d * n >= n
  {
    assert d * n == (d - 1) * n + n;
    assert (d - 1) * n >= 0;
  }

  lemma ModSum(a: int, b: int, n: int)
    requires n > 0
    ensures (a % n + b) % n == (a + b) % n
  {
    var Q, R := (a + b) / n, (a + b) % n;
    assert a == (a / n) * n + a % n;
    assert a % n + b == (Q - a / n) * n + R;
    ModUnique(a % n + b, n, Q - a / n, R);
  }

  lemma ModMultiple(x: int, q: int, n: int)
    requires n > 0
    ensures (x + q * n) % n == x % n
  {
    assert x == (x / n) * n + x % n;
    assert x + q * n == (x / n + q) * n + x % n;
    ModUnique(x + q * n, n, x / n + q, x % n);
  }

  /** Rolling by `a` and then by `b` is rolling by `a + b`. */
  lemma RollCompose(v: seq<real>, a: int, b: int)
    ensures Roll(Roll(v, a), b) == Roll(v, a + b)
  {
    var n := |v|;
    if n > 0 {
      forall i | 0 <= i < n ensures Roll(Roll(v, a), b)[i] == Roll(v, a + b)[i] {
        ModSum(i - b, -a, n);
      }
    }
  }

  /** Rolling by zero changes nothing. */
  lemma RollZero(v: seq<real>)
    ensures Roll(v, 0) == v
  {
    forall i | 0 <= i < |v| ensures Roll(v, 0)[i] == v[i] {
      ModUnique(i, |v|, 0, i);
    }
  }

  lemma RollInverseAt(v: seq<real>, k: int, i: int)
    requires 0 <= i < |v|
    ensures Roll(Roll(v, k), -k)[i] == v[i]
  {
    var n := |v|;
    var j := (i + k) % n;
    assert i - -k == i + k;
    assert Roll(Roll(v, k), -k)[i] == Roll(v, k)[j];
    ModSum(i + k, -k, n);
    ModUnique(i, n, 0, i);
    assert (j - k) % n == i;
  }

  /** Rolling back by the same amount restores the series. */
  lemma RollInverse(v: seq<real>, k: int)
    ensures Roll(Roll(v, k), -k) == v
  {
    forall i | 0 <= i < |v| ensures Roll(Roll(v, k), -k)[i] == v[i] {
      RollInverseAt(v, k, i);
    }
  }

  /** A roll by the full length is no roll at all. */
  lemma RollPeriodic(v: seq<real>, k: int)
    requires |v| > 0
    ensures Roll(v, k + |v|) == Roll(v, k)
  {
    forall i | 0 <= i < |v| ensures Roll(v, k + |v|)[i] == Roll(v, k)[i] {
      ModMultiple(i - k, -1, |v|);
    }
  }

  // ---------------------------------------------------------------------------
  // The error measure

  function CommonLength(x0: seq<real>, x1: seq<real>): nat {
    if |x0| <= |x1| then |x0| else |x1|
  }

  function Diff(a: seq<real>, b: seq<real>): (d: seq<real>)
    requires |a| == |b|
    ensures |d| == |a| && forall i :: 0 <= i < |a| ==> d[i] == a[i] - b[i]
  {
    seq(|a|, i requires 0 <= i < |a| => a[i] - b[i])
  }

  function Square(x: real): real { x * x }

  function SumSq(s: seq<real>): real {
    if |s| == 0 then 0.0 else Square(s[0]) + SumSq(s[1..])
  }

  /** `measure_error(x0, x1, k)`. With an empty common prefix the source divides
      0 by 0 and gets NaN; callers check for that case first. */
  function MeasureError(x0: seq<real>, x1: seq<real>, k: int): real
    requires CommonLength(x0, x1) > 0
  {
    var m := CommonLength(x0, x1);
    SumSq(Diff(x0[..m], Roll(x1[..m], k))) / (m as real)
  }

  /** `r` is strictly positive; a fact about a product stated through this
      predicate reaches the solver as it is, not rewritten. */
  predicate Positive(r: real) { r > 0.0 }

  lemma ProductPositive(x: real)
    requires x != 0.0
    ensures Positive(x * x)
  {
    if x > 0.0 {
      assert x * x > 0.0;
    } else {
      var y := -x;
      assert y * y > 0.0;
      assert x * x == y * y;
    }
  }

  lemma SquarePositive(x: real)
    requires x != 0.0
    ensures Positive(Square(x))
  {
    ProductPositive(x);
  }

  lemma SquareNonNegative(x: real)
    ensures Square(x) >= 0.0
  {
    if x != 0.0 {
      SquarePositive(x);
      assert Square(x) > 0.0;
    }
  }

  lemma {:induction false} SumSqNonNegative(s: seq<real>)
    ensures SumSq(s) >= 0.0
  {
    if |s| > 0 {
      SumSqNonNegative(s[1..]);
      SquareNonNegative(s[0]);
    }
  }

  /** A sum of squares is zero exactly when every term is zero. */
  lemma {:induction false} SumSqZero(s: seq<real>)
    ensures SumSq(s) == 0.0 <==> forall i :: 0 <= i < |s| ==> s[i] == 0.0
  {
    if |s| > 0 {
      SumSqZero(s[1..]);
      SumSqNonNegative(s[1..]);
      if s[0] != 0.0 {
        SquarePositive(s[0]);
      } else {
        assert SumSq(s) == SumSq(s[1..]);
        assert forall i :: 1 <= i < |s| ==> s[i] == s[1..][i - 1];
      }
    }
  }

  /** The error is never negative. */
  lemma MeasureErrorNonNegative(x0: seq<real>, x1: seq<real>, k: int)
    requires CommonLength(x0, x1) > 0
    ensures MeasureError(x0, x1, k) >= 0.0
  {
    var m := CommonLength(x0, x1);
    SumSqNonNegative(Diff(x0[..m], Roll(x1[..m], k)));
  }

  /** The error is zero exactly when the rolled prefix of the rendition equals
      the prefix of the reference. */
  lemma MeasureErrorZero(x0: seq<real>, x1: seq<real>, k: int)
    requires CommonLength(x0, x1) > 0
    ensures var m := CommonLength(x0, x1);
      MeasureError(x0, x1, k) == 0.0 <==> Roll(x1[..m], k) == x0[..m]
  {
    var m := CommonLength(x0, x1);
    var d := Diff(x0[..m], Roll(x1[..m], k));
    SumSqZero(d);
    if Roll(x1[..m], k) == x0[..m] {
      assert forall i :: 0 <= i < m ==> d[i] == 0.0;
    }
    if SumSq(d) == 0.0 {
      assert forall i :: 0 <= i < m ==> Roll(x1[..m], k)[i] == x0[..m][i];
    }
  }

  /** Only the common prefix is compared: frames past it do not matter. */
  lemma MeasureErrorPrefix(x0: seq<real>, x1: seq<real>, k: int)
    requires CommonLength(x0, x1) > 0
    ensures var m := CommonLength(x0, x1);
      MeasureError(x0[..m], x1[..m], k) == MeasureError(x0, x1, k)
  {
    var m := CommonLength(x0, x1);
    assert x0[..m][..m] == x0[..m] && x1[..m][..m] == x1[..m];
  }

  /** Shifting by the prefix length gives the same error. */
  lemma MeasureErrorPeriodic(x0: seq<real>, x1: seq<real>, k: int)
    requires CommonLength(x0, x1) > 0
    ensures MeasureError(x0, x1, k + CommonLength(x0, x1)) == MeasureError(x0, x1, k)
  {
    var m := CommonLength(x0, x1);
    RollPeriodic(x1[..m], k);
  }

  /** Shift 0 compares the unshifted prefixes. */
  lemma MeasureErrorShiftZero(x0: seq<real>, x1: seq<real>)
    requires CommonLength(x0, x1) > 0
    ensures var m := CommonLength(x0, x1);
      MeasureError(x0, x1, 0) == SumSq(Diff(x0[..m], x1[..m])) / (m as real)
  {
    var m := CommonLength(x0, x1);
    RollZero(x1[..m]);
  }
}
