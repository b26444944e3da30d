/** Small facts about Euclidean division and multiplication used by the ramp proofs. */
module Arith {

  /** The larger of two integers. */
  function Max(a: int, b: int): int {
    if a < b then b else a
  }

  /** Dafny's division: quotient and a remainder that is never negative. */
  lemma DivMod(a: int, inc: int)
    requires inc >= 1
    ensures a == (a / inc) * inc + a % inc && 0 <= a % inc < inc
  {}

  /** A positive number of steps covers at least one step. */
  lemma {:induction false} MulAtLeast(x: int, inc: int)
    requires x >= 1 && inc >= 1
    ensures x * inc >= inc
    decreases x
  {
    if x > 1 {
      MulAtLeast(x - 1, inc);
      assert x * inc == (x - 1) * inc + inc;
    }
  }

  /** The only multiple of `inc` strictly inside (-inc, inc) is 0. */
  lemma MulSmall(x: int, inc: int)
    requires inc >= 1 && -inc < x * inc < inc
    ensures x == 0
  {
    if x >= 1 {
      MulAtLeast(x, inc);
    } else if x <= -1 {
      assert (-x) * inc == -(x * inc);
      MulAtLeast(-x, inc);
    }
  }

  /** Quotient and remainder are determined by any decomposition with a remainder in [0, inc). */
  lemma ModUnique(a: int, inc: int, q: int, r: int)
    requires inc >= 1 && a == q * inc + r && 0 <= r < inc
    ensures a / inc == q && a % inc == r
  {
    DivMod(a, inc);
    var q0 := a / inc;
    assert (q - q0) * inc == q * inc - q0 * inc;
    MulSmall(q - q0, inc);
  }

  /** Moving by one step keeps the remainder. */
  lemma ShiftMod(a: int, inc: int)
    requires inc >= 1
    ensures (a - inc) % inc == a % inc
    ensures (a + inc) % inc == a % inc
  {
    DivMod(a, inc);
    var q, r := a / inc, a % inc;
    assert a - inc == (q - 1) * inc + r;
    assert a + inc == (q + 1) * inc + r;
    ModUnique(a - inc, inc, q - 1, r);
    ModUnique(a + inc, inc, q + 1, r);
  }

  /** The negation of a multiple is a multiple. */
  lemma NegMod(a: int, inc: int)
    requires inc >= 1 && a % inc == 0
    ensures (-a) % inc == 0
  {
    DivMod(a, inc);
    var q := a / inc;
    assert -a == (-q) * inc + 0;
    ModUnique(-a, inc, -q, 0);
  }

  /** A positive multiple of `inc` is at least `inc`. */
  lemma MultipleAtLeastStep(d: int, inc: int)
    requires inc >= 1 && d > 0 && d % inc == 0
    ensures d >= inc
  {
    DivMod(d, inc);
    var q := d / inc;
    if q >= 1 {
      MulAtLeast(q, inc);
    }
  }

  /** A multiple of `inc` that exceeds `n` steps exceeds them by at least one more step. */
  lemma GapAtLeastStep(d: int, n: nat, inc: int)
    requires inc >= 1 && d % inc == 0 && d > n * inc
    ensures d >= n * inc + inc
  {
    DivMod(d, inc);
    var m := d / inc;
    assert d - n * inc == (m - n) * inc + 0;
    ModUnique(d - n * inc, inc, m - n, 0);
    MultipleAtLeastStep(d - n * inc, inc);
  }

  /** One more step adds `inc`. */
  lemma MulSucc(n: int, inc: int)
    ensures (n + 1) * inc == n * inc + inc
  {
  }

  /** Multiplying by a positive step preserves order both ways. */
  lemma MulLeIff(m: int, n: int, inc: int)
    requires inc >= 1
    ensures m * inc <= n * inc <==> m <= n
  {
    if m > n {
      assert m * inc - n * inc == (m - n) * inc;
      MulAtLeast(m - n, inc);
    } else {
      assert n * inc - m * inc == (n - m) * inc;
      if n > m {
        MulAtLeast(n - m, inc);
      }
    }
  }

  /** For a multiple `w` of `inc`, max(1, w / inc) steps cover max(inc, w). */
  lemma CountTimesStep(w: nat, inc: int)
    requires inc >= 1 && w % inc == 0
    ensures Max(1, w / inc) * inc == Max(inc, w)
  {
    DivMod(w, inc);
    var m := w / inc;
    if m >= 1 {
      MulAtLeast(m, inc);
    }
  }

  /** Euclidean division by a positive divisor is monotone in the dividend. */
  lemma DivMonotone(a: int, b: int, d: int)
    requires d >= 1 && a <= b
    ensures a / d <= b / d
  {
    DivMod(a, d);
    DivMod(b, d);
    if a / d > b / d {
      MulLeIff(b / d + 1, a / d, d);
      MulSucc(b / d, d);
    }
  }
}
