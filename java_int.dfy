/** Java's fixed-width integer arithmetic, written out over Dafny's unbounded `int`.
    Java `int` is 32-bit two's complement and wraps on overflow; Java `/` and `%`
    truncate toward zero, where Dafny's are Euclidean. */
module JavaInt {

  const TWO_32: int := 0x1_0000_0000
  const INT_MIN: int := -0x8000_0000
  const INT_MAX: int := 0x7fff_ffff
  const LONG_MIN: int := -0x8000_0000_0000_0000
  const LONG_MAX: int := 0x7fff_ffff_ffff_ffff

  predicate IsInt(x: int) { INT_MIN <= x <= INT_MAX }

  predicate IsLong(x: int) { LONG_MIN <= x <= LONG_MAX }

  /** The 32-bit value a Java `int` expression evaluates to when the exact result is `x`. */
  function Wrap32(x: int): (r: int)
    ensures IsInt(r)
    ensures (x - r) % TWO_32 == 0
    ensures IsInt(x) ==> r == x
  {
    var m := x % TWO_32;
    if m <= INT_MAX then m else m - TWO_32
  }

  const TWO_64: int := 0x1_0000_0000_0000_0000

  /** The 64-bit value a Java `long` expression evaluates to when the exact result is `x`. */
  function Wrap64(x: int): (r: int)
    ensures IsLong(r)
    ensures (x - r) % TWO_64 == 0
    ensures IsLong(x) ==> r == x
  {
    var m := x % TWO_64;
    if m <= LONG_MAX then m else m - TWO_64
  }

  /** Wrapping is insensitive to multiples of 2^32 added before it. */
  lemma Wrap32Congruent(x: int, y: int)
    requires (x - y) % TWO_32 == 0
    ensures Wrap32(x) == Wrap32(y)
  {
    assert x % TWO_32 == y % TWO_32 by {
      var q := (x - y) / TWO_32;
      assert x == y + q * TWO_32;
    }
  }

  /** An accumulator that wraps at each step ends where one final wrap would. */
  lemma Wrap32AddWrapped(acc: int, v: int)
    ensures Wrap32(Wrap32(acc) + v) == Wrap32(acc + v)
  {
    var r := Wrap32(acc);
    var k := (acc - r) / TWO_32;
    assert acc - r == k * TWO_32;
    assert (r + v) - (acc + v) == (-k) * TWO_32;
    Wrap32Congruent(r + v, acc + v);
  }

  /** Dafny's division of a non-negative value counts the whole divisors it holds. */
  lemma WholeDivisors(n: int, b: int)
    requires n >= 0 && b > 0
    ensures 0 <= n / b && (n / b) * b <= n < (n / b) * b + b
  {
    var q, r := n / b, n % b;
    assert n == q * b + r && 0 <= r < b;
    if q < 0 {
      MulMono(q, -1, b);
    }
  }

  /** Java integer division by a positive divisor: the quotient has the sign of `a` (or is 0)
      and its magnitude is the number of whole divisors in `|a|`, so it truncates toward zero. */
  function Quot(a: int, b: int): (q: int)
    requires b > 0
    ensures a >= 0 ==> 0 <= q && q * b <= a < q * b + b
    ensures a < 0 ==> q <= 0 && q * b - b < a <= q * b
  {
    if a >= 0 then
      WholeDivisors(a, b);
      a / b
    else
      var m := -a / b;
      WholeDivisors(-a, b);
      assert -m * b == -(m * b);
      -m
  }

  /** Java remainder: `a == Quot(a, b) * b + Rem(a, b)`. */
  function Rem(a: int, b: int): (r: int)
    requires b > 0
    ensures a == Quot(a, b) * b + r
    ensures a >= 0 ==> r == a % b
  {
    a - Quot(a, b) * b
  }

  lemma MulMono(a: int, b: int, n: int)
    requires n > 0 && a <= b
    ensures a * n <= b * n
  {
    assert b * n - a * n == (b - a) * n;
  }

  /** Floor division of a non-negative value bracketed by multiples of n stays between the factors. */
  lemma DivBetween(s: int, n: int, lo: int, hi: int)
    requires n > 0 && s >= 0 && lo * n <= s <= hi * n
    ensures lo <= s / n <= hi
  {
    var q := s / n;
    var r := s % n;
    assert s == q * n + r && 0 <= r < n;
    if q > hi {
      MulMono(hi + 1, q, n);
      assert false;
    }
    if q < lo {
      MulMono(q + 1, lo, n);
      assert false;
    }
  }

  /** Truncating division of a value inside [lo*n, hi*n] by positive n stays in [lo, hi]. */
  lemma QuotBetween(s: int, n: int, lo: int, hi: int)
    requires n > 0 && lo * n <= s <= hi * n
    ensures lo <= Quot(s, n) <= hi
  {
    if s >= 0 {
      if lo < 0 {
        assert 0 * n <= s;
        DivBetween(s, n, 0, hi);
      } else {
        DivBetween(s, n, lo, hi);
      }
    } else {
      assert (-hi) * n == -(hi * n);
      assert (-lo) * n == -(lo * n);
      if hi > 0 {
        assert -s <= (-lo) * n;
        assert 0 * n <= -s;
        DivBetween(-s, n, 0, -lo);
      } else {
        DivBetween(-s, n, -hi, -lo);
      }
    }
  }
}
