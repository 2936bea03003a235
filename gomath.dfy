/** Go's integer operators where they differ from Dafny's.
  * Dafny's `/` and `%` are Euclidean; Go's truncate toward zero, and Go's
  * conversion `int(x)` of a float truncates as well. */
module GoMath {
  /** Go's `a % b` for a positive modulus: the remainder takes the sign of `a`
    * and is smaller than `b` in magnitude. */
  function GoRem(a: int, b: int): (r: int)
    requires b > 0
    ensures -b < r < b
    ensures 0 <= a ==> 0 <= r
    ensures a < 0 ==> r <= 0
  {
    if a >= 0 then a % b else -((-a) % b)
  }
  /** Go's `a / b` for a positive divisor: the quotient truncated toward zero,
    * the partner of GoRem. */
  function GoQuo(a: int, b: int): (q: int)
    requires b > 0
    ensures a == b * q + GoRem(a, b)
  {
    if a >= 0 then a / b else -((-a) / b)
  }

  /** `a` and Go's `a % b` differ by a multiple of `b`, and the Go idiom
    * `((a % b) + b) % b` is the Euclidean remainder for every `a`. */
  lemma GoRemAgrees(a: int, b: int)
    requires b > 0
    ensures (a - GoRem(a, b)) % b == 0
    ensures GoRem(GoRem(a, b) + b, b) == a % b
  {
    var q := a / b;
    var m := a % b;
    assert a == b * q + m;
    if a < 0 {
      var x := -a;
      var q' := x / b;
      var m' := x % b;
      assert x == b * q' + m' && 0 <= m' < b;
      EuclidUnique(a - GoRem(a, b), b, -q', 0);
      if m' == 0 {
        EuclidUnique(a, b, -q', 0);
        EuclidUnique(GoRem(a, b) + b, b, 1, 0);
      } else {
        EuclidUnique(a, b, -q' - 1, b - m');
        EuclidUnique(GoRem(a, b) + b, b, 0, b - m');
      }
    } else {
      EuclidUnique(a - GoRem(a, b), b, q, 0);
      EuclidUnique(GoRem(a, b) + b, b, 1, m);
    }
  }

  /** Euclidean division is unique: a quotient and a remainder in range are the ones `/` and `%` give. */
  lemma EuclidUnique(a: int, b: int, q: int, r: int)
    requires b > 0 && 0 <= r < b && a == b * q + r
    ensures a % b == r && a / b == q
  {
    var q0, r0 := a / b, a % b;
    assert a == b * q0 + r0 && 0 <= r0 < b;
    assert b * (q - q0) == r0 - r;
    if q > q0 {
      MulAtLeast(b, q - q0);
    } else if q < q0 {
      MulAtLeast(b, q0 - q);
    }
  }

  /** Adding a multiple of the modulus leaves the remainder unchanged. */
  lemma ModShift(x: int, k: int, m: int)
    requires m > 0
    ensures (x + m * k) % m == x % m
  {
    assert x == m * (x / m) + x % m;
    EuclidUnique(x + m * k, m, x / m + k, x % m);
  }

  lemma {:induction false} MulAtLeast(b: int, d: int)
    requires b > 0 && d >= 1
    ensures b * d >= b
    decreases d
  {
    if d > 1 {
      MulAtLeast(b, d - 1);
      assert b * d == b * (d - 1) + b;
    }
  }

  /** Division of an integer by a positive divisor, as `math.Floor` of the
    * floating-point quotient computes it. */
  function FloorDiv(a: int, b: int): (q: int)
    requires b > 0
    ensures q == ((a as real) / (b as real)).Floor
  {
    var q := a / b;
    var r := a % b;
    assert a == b * q + r && 0 <= r < b;
    assert (a as real) / (b as real) == (q as real) + (r as real) / (b as real);
    assert 0.0 <= (r as real) / (b as real) < 1.0;
    q
  }

  /** Go's conversion `int(x)` of a float64: truncation toward zero. */
  function Trunc(x: real): (n: int)
    ensures 0.0 <= x ==> n as real <= x < n as real + 1.0
    ensures x < 0.0 ==> n as real - 1.0 < x <= n as real
  {
    if x >= 0.0 then x.Floor else -((-x).Floor)
  }

  /** On a whole number `int(x)` is exact. */
  lemma TruncWhole(n: int)
    ensures Trunc(n as real) == n
  {
  }
}
