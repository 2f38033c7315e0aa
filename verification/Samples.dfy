/** What the audio conversions share: samples, the division of C, and the arithmetic behind positions, frame counts and
  channel indices.

  Samples are 16-bit PCM. A quotient of two integers is truncated towards zero where the source divides; counts of
  frames are rounded down or up.

  The lemmas about products and quotients are stated once here, each for what a caller needs of it: comparing two
  products with a common factor, and moving between `k <= x / d` and `k * d <= x`.

  Greatest common divisors decide which channels the 8-bit index of a downmix can reach.

  The index of a downmix is taken modulo 256. Its values after so many turns, the classes that they stay in and the last
  index of a class are stated here as plain arithmetic.

  None of this is particular to one of the conversions.
*/
module Samples {

  type Sample = x: int | -32768 <= x <= 32767

  /** Sample rates, strides and divisors. */
  type Positive = x: int | x > 0 witness 1

  // ---------------------------------------------------------------------------------------------
  // Arithmetic

  /** Division as C does it: towards zero. */
  function TruncDiv(x: int, d: Positive): int
  {
    if x >= 0 then x / d else -((-x) / d)
  }

  lemma MulMonotone(a: int, b: int, d: nat)
    requires a <= b && 0 <= d
    ensures a * d <= b * d
  {
  }

  lemma CancelAtMost(a: int, b: int, d: Positive)
    requires a * d <= b * d
    ensures a <= b
  {
    if b < a {
      MulMonotone(b + 1, a, d);
    }
  }

  lemma Cancel(a: int, b: int, d: Positive)
    requires a * d < b * d
    ensures a < b
  {
    if b <= a {
      MulMonotone(b, a, d);
    }
  }

  /** What TruncDiv means: the integer nearest to `x / d` on the side of zero. */
  lemma TruncDivMeaning(x: int, d: Positive)
    ensures x >= 0 ==> TruncDiv(x, d) * d <= x < TruncDiv(x, d) * d + d
    ensures x <= 0 ==> TruncDiv(x, d) * d - d < x <= TruncDiv(x, d) * d
  {
  }

  /** If `lo <= x / d <= hi` as fractions, the truncated quotient lies between them too. */
  lemma TruncDivBetween(lo: int, hi: int, x: int, d: Positive)
    requires lo * d <= x <= hi * d
    ensures lo <= TruncDiv(x, d) <= hi
  {
    var q := TruncDiv(x, d);
    TruncDivMeaning(x, d);
    assert (q + 1) * d == q * d + d && (q - 1) * d == q * d - d;
    if x >= 0 {
      Cancel(lo, q + 1, d);
      CancelAtMost(q, hi, d);
    } else {
      CancelAtMost(lo, q, d);
      Cancel(q - 1, hi, d);
    }
  }

  function CeilDiv(x: nat, d: Positive): nat
  {
    (x + d - 1) / d
  }

  lemma DivMeaning(x: nat, d: Positive, k: nat)
    ensures k <= x / d <==> k * d <= x
  {
    var q := x / d;
    assert q * d <= x < q * d + d;
    if k <= q {
      MulMonotone(k, q, d);
    } else {
      MulMonotone(q + 1, k, d);
      assert (q + 1) * d == q * d + d;
    }
  }

  function Quotient(x: nat, d: Positive): nat
  {
    x / d
  }

  /** How often `d` fits into `x`. */
  lemma QuotientFits(x: nat, d: Positive)
    ensures Quotient(x, d) * d <= x && forall k: nat :: k * d <= x ==> k <= Quotient(x, d)
  {
    DivMeaning(x, d, Quotient(x, d));
    forall k: nat | k * d <= x ensures k <= Quotient(x, d) { DivMeaning(x, d, k); }
  }

  lemma CeilDivMeaning(x: nat, d: Positive, k: nat)
    ensures k < CeilDiv(x, d) <==> k * d < x
  {
    DivMeaning(x + d - 1, d, k + 1);
    assert (k + 1) * d == k * d + d;
  }

  lemma Multiple(k: int, d: Positive)
    ensures k * d % d == 0 && k * d / d == k
  {
    var q, r := k * d / d, k * d % d;
    assert k * d == q * d + r && (k - q) * d == r;
    if k - q > 0 { MulMonotone(1, k - q, d); } else if k - q < 0 { MulMonotone(k - q, -1, d); }
  }

  lemma SmallModulus(x: nat, d: Positive)
    requires x < d
    ensures x % d == x
  {
  }

  lemma ModuloSame(x: int, y: int, k: int, g: Positive)
    requires x == y + k * g
    ensures x % g == y % g
  {
    var p, q := x / g, y / g + k;
    assert q * g == y / g * g + k * g;
    assert (p - q) * g == y % g - x % g;
    if p - q > 0 { MulMonotone(1, p - q, g); } else if p - q < 0 { MulMonotone(p - q, -1, g); }
  }

  lemma SameResidue(x: nat, d: Positive)
    ensures (x + d) % d == x % d
  {
    ModuloSame(x + d, x, 1, d);
  }

  lemma TailKept<T>(before: seq<T>, after: seq<T>, first: seq<T>, start: nat, count: nat)
    requires |after| == |before| == |first| && start + count <= |before|
    requires after[start + count..] == before[start + count..] && before[start..] == first[start..]
    ensures after[start + count..] == first[start + count..]
  {
    assert before[start + count..] == before[start..][count..];
    assert first[start + count..] == first[start..][count..];
  }

  // ---------------------------------------------------------------------------------------------
  // Greatest common divisors

  function Gcd(a: nat, b: nat): (g: nat)
    ensures a + b > 0 ==> g > 0
    decreases b
  {
    if b == 0 then a else Gcd(b, a % b)
  }

  /** It divides both numbers. */
  lemma {:induction false} GcdDivides(a: nat, b: nat) returns (p: nat, q: nat)
    requires a + b > 0
    ensures a == p * Gcd(a, b) && b == q * Gcd(a, b)
    decreases b
  {
    if b == 0 {
      p, q := 1, 0;
    } else {
      var u, v := GcdDivides(b, a % b);
      p, q := (a / b) * u + v, u;
      DivideWithRest(a, b, u, v, Gcd(a, b));
    }
  }

  lemma DivideWithRest(a: nat, b: Positive, u: nat, v: nat, g: nat)
    requires b == u * g && a % b == v * g
    ensures a == ((a / b) * u + v) * g
  {
    assert (a / b) * b == (a / b) * u * g;
    assert ((a / b) * u + v) * g == (a / b) * u * g + v * g;
  }

  /** The greatest common divisor is a combination of the two numbers. */
  lemma {:induction false} Bezout(a: nat, b: nat) returns (x: int, y: int)
    requires a + b > 0
    ensures x * a + y * b == Gcd(a, b)
    decreases b
  {
    if b == 0 {
      x, y := 1, 0;
    } else {
      var u, v := Bezout(b, a % b);
      x, y := v, u - (a / b) * v;
      assert a == (a / b) * b + a % b;
      assert v * a == v * ((a / b) * b) + v * (a % b);
      assert y * b == u * b - (a / b) * v * b;
    }
  }

  lemma GcdIsSmall(a: Positive, b: nat)
    ensures Gcd(a, b) <= a
  {
    var p, q := GcdDivides(a, b);
    if p > 0 { MulMonotone(1, p, Gcd(a, b)); }
  }

  // ---------------------------------------------------------------------------------------------
  // 8-bit indices: `channel + n * step` modulo 256

  lemma OneMore(x: int, n: nat)
    ensures x * (n + 1) == x * n + x
  {
  }

  lemma ByteInClass(x: nat, channel: nat, k: int, q: int, g: Positive)
    requires x == channel + k * g && 256 == q * g
    ensures x % 256 % g == channel % g
  {
    var m := x / 256;
    assert (k - m * q) * g == k * g - m * (q * g);
    ModuloSame(x % 256, channel, k - m * q, g);
  }

  lemma Combination(channel: int, step: int, target: int, d: int, x: int, y: int, g: int, n: int, q: int)
    requires x * step + y * 256 == g && target == channel + d * g && n == d * x - 256 * q
    ensures channel + n * step == target + (-(d * y) - q * step) * 256
  {
    assert d * (x * step + y * 256) == d * (x * step) + d * (y * 256);
    assert d * (x * step) == d * x * step && d * (y * 256) == d * y * 256;
    assert (d * x - 256 * q) * step == d * x * step - 256 * (q * step);
  }

  lemma ClassEnd(channel: nat, g: Positive, q: int)
    requires 256 == q * g
    ensures 256 - g + channel % g == channel + (q - 1 - channel / g) * g
  {
    assert (q - 1 - channel / g) * g == q * g - g - channel / g * g;
  }

  lemma LastInClass(x: nat, g: Positive, q: nat)
    requires x < 256 == q * g
    ensures x <= 256 - g + x % g
  {
    Cancel(x / g, q, g);
    MulMonotone(x / g, q - 1, g);
    assert (q - 1) * g == q * g - g;
  }

  lemma Rounds(n: nat, k: nat, step: nat)
    ensures (256 * k + n) * step == n * step + k * step * 256
  {
  }
}
