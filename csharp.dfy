/**
 * The semantics of C#'s 32-bit `int` that the analyser's arithmetic relies on:
 * the range of the type, unchecked wrap-around, and the truncating `/` and `%`
 * operators (Dafny's own `/` and `%` are Euclidean).
 */
module CSharp {
  const MinValue: int := -0x8000_0000
  const MaxValue: int := 0x7FFF_FFFF
  const Modulus: int := 0x1_0000_0000

  predicate InInt32(x: int) { MinValue <= x <= MaxValue }

  /** The values a C# `int` can hold. */
  type Int32 = x: int | MinValue <= x <= MaxValue

  const LongMinValue: int := -0x8000_0000_0000_0000
  const LongMaxValue: int := 0x7FFF_FFFF_FFFF_FFFF

  predicate InInt64(x: int) { LongMinValue <= x <= LongMaxValue }

  /** The values a C# `long` can hold. */
  type Int64 = x: int | -0x8000_0000_0000_0000 <= x <= 0x7FFF_FFFF_FFFF_FFFF

  function Abs(x: int): nat { if x < 0 then -x else x }

  function Max(a: int, b: int): (r: int)
    ensures r >= a && r >= b && (r == a || r == b)
  {
    if a >= b then a else b
  }

  function Min(a: int, b: int): (r: int)
    ensures r <= a && r <= b && (r == a || r == b)
  {
    if a <= b then a else b
  }

  /** The value unchecked 32-bit arithmetic produces when the exact result is `x`. */
  function Wrap32(x: int): (r: Int32)
    ensures (x - r) % Modulus == 0
    ensures InInt32(x) ==> r == x
  {
    (x - MinValue) % Modulus + MinValue
  }

  /** The value unchecked 64-bit arithmetic produces when the exact result is `x`. */
  function Wrap64(x: int): (r: Int64)
    ensures (x - r) % 0x1_0000_0000_0000_0000 == 0
    ensures InInt64(x) ==> r == x
  {
    (x - LongMinValue) % 0x1_0000_0000_0000_0000 + LongMinValue
  }

  /** C#'s integer division, which truncates toward zero. */
  function TDiv(a: int, b: int): int
    requires b != 0
  {
    if (a >= 0) == (b > 0) then Abs(a) / Abs(b) else -(Abs(a) / Abs(b))
  }

  /** C#'s remainder, whose sign follows the dividend. */
  function TMod(a: int, b: int): int
    requires b != 0
  {
    if a >= 0 then Abs(a) % Abs(b) else -(Abs(a) % Abs(b))
  }

  /** C#'s bitwise complement `~x` on a two's-complement integer. */
  function BitNot(x: int): int { -x - 1 }

  /** Truncating division and remainder recompose the dividend. */
  lemma DivisionIdentity(a: int, b: int)
    requires b != 0
    ensures TDiv(a, b) * b + TMod(a, b) == a
  {
    var q: int, m: int := Abs(a) / Abs(b), Abs(a) % Abs(b);
    var ab: int := Abs(b);
    assert Abs(a) == q * ab + m;
    if a >= 0 && b > 0 {
    } else if a >= 0 {
      assert b == -ab;
      assert TDiv(a, b) * b == q * ab;
    } else if b > 0 {
      assert TDiv(a, b) * b == -(q * ab);
    } else {
      assert b == -ab;
      assert TDiv(a, b) * b == -(q * ab);
    }
  }

  /** The remainder has the sign of the dividend and is smaller than the divisor in magnitude. */
  lemma RemainderBounds(a: int, b: int)
    requires b != 0
    ensures Abs(TMod(a, b)) < Abs(b)
    ensures a >= 0 ==> 0 <= TMod(a, b)
    ensures a <= 0 ==> TMod(a, b) <= 0
  {
  }

  /** The remainder does not depend on the sign of the divisor. */
  lemma RemainderIgnoresDivisorSign(a: int, b: int)
    requires b != 0
    ensures TMod(a, b) == TMod(a, -b)
  {
  }

  /** A positive multiple of a positive number is at least that number. */
  lemma MultipleAtLeast(k: int, r: int)
    requires k >= 1 && r > 0
    ensures k * r >= r
  {
    var j: nat := k - 1;
    assert k * r == j * r + r;
    assert j * r >= 0;
  }

  /** The quotient and remainder of Euclidean division are the only ones. */
  lemma DivisionUnique(x: int, r: int, q: int, m: int)
    requires 0 < r && 0 <= m < r && x == q * r + m
    ensures x / r == q && x % r == m
  {
    var q': int, m': int := x / r, x % r;
    assert x == q' * r + m';
    assert (q - q') * r == m' - m;
    if q > q' {
      MultipleAtLeast(q - q', r);
    } else if q < q' {
      MultipleAtLeast(q' - q, r);
    }
  }

  /** A dividend smaller than the divisor in magnitude is its own remainder. */
  lemma RemainderOfSmallDividend(a: int, b: int)
    requires b != 0 && Abs(a) < Abs(b)
    ensures TMod(a, b) == a
  {
    DivisionUnique(Abs(a), Abs(b), 0, Abs(a));
  }

  /** The remainder is never larger than the dividend in magnitude. */
  lemma RemainderAtMostDividend(a: int, b: int)
    requires b != 0
    ensures Abs(TMod(a, b)) <= Abs(a)
  {
    var n: int, d: int := Abs(a), Abs(b);
    var q: int, m: int := n / d, n % d;
    assert n == q * d + m;
    assert q * d >= 0 by {
      if q >= 1 { MultipleAtLeast(q, d); }
    }
  }

  /**
   * Dividing by a divisor no larger than the dividend leaves at most half the
   * dividend, and at most the dividend minus the divisor.
   */
  lemma RemainderAtMostHalf(a: int, b: int)
    requires b != 0 && Abs(b) <= Abs(a)
    ensures Abs(TMod(a, b)) <= Abs(a) - Abs(b)
    ensures Abs(TMod(a, b)) <= (Abs(a) - 1) / 2
  {
    var n: int, d: int := Abs(a), Abs(b);
    var q: int, m: int := n / d, n % d;
    assert n == q * d + m;
    assert q >= 1;
    MultipleAtLeast(q, d);
    assert Abs(TMod(a, b)) == m;
  }

  /**
   * A run of naturals shorter than the divisor whose end remainders are in order
   * does not wrap around: every remainder of the run lies between them.
   */
  lemma RemainderRunWithoutWrap(a: int, b: int, c: int, r: int)
    requires 0 <= a <= c <= b && 0 < r && b - a < r && a % r <= b % r
    ensures a % r <= c % r <= b % r
  {
    var q: int, qb: int := a / r, b / r;
    assert a == q * r + a % r;
    assert b == qb * r + b % r;
    assert (qb - q) * r == (b - a) - (b % r - a % r);
    assert qb == q by {
      if qb > q {
        MultipleAtLeast(qb - q, r);
      } else if qb < q {
        MultipleAtLeast(q - qb, r);
      }
    }
    var m := c - q * r;
    assert a % r <= m <= b % r < r;
    DivisionUnique(c, r, q, m);
  }

  /** Multiplying by a positive number keeps the order. */
  lemma MulMonotone(x: int, y: int, b: int)
    requires x <= y && b > 0
    ensures x * b <= y * b
  {
    if x < y {
      MultipleAtLeast(y - x, b);
      assert y * b - x * b == (y - x) * b;
    }
  }

  /** For a non-negative bound `m`, `x <= m / b` (truncating) says exactly that `x * b <= m`. */
  lemma UpperQuotient(x: int, m: int, b: int)
    requires m >= 0 && b > 0
    ensures x <= TDiv(m, b) <==> x * b <= m
  {
    var q := m / b;
    assert TDiv(m, b) == q;
    assert m == q * b + m % b;
    if x <= q {
      MulMonotone(x, q, b);
    } else {
      MulMonotone(q + 1, x, b);
      assert (q + 1) * b == q * b + b;
    }
  }

  /** For a non-positive bound `m`, `x >= m / b` (truncating) says exactly that `x * b >= m`. */
  lemma LowerQuotient(x: int, m: int, b: int)
    requires m <= 0 && b > 0
    ensures x >= TDiv(m, b) <==> x * b >= m
  {
    UpperQuotient(-x, -m, b);
    assert TDiv(m, b) == -TDiv(-m, b);
    assert (-x) * b == -(x * b);
  }

  predicate IsDigit(c: char) {
    '0' <= c <= '9'
  }

  /** `ToString()` of a non-negative integer: its decimal digits, with no leading zero. */
  function NatToString(n: nat): (r: string)
    ensures |r| > 0 && forall i :: 0 <= i < |r| ==> IsDigit(r[i])
    decreases n
  {
    var digit := ['0' + ((n % 10) as char)];
    if n < 10 then digit else NatToString(n / 10) + digit
  }

  /** Different numbers have different decimal texts. */
  lemma {:induction false} NatToStringInjective(a: nat, b: nat)
    requires NatToString(a) == NatToString(b)
    ensures a == b
    decreases a
  {
    var ta, tb := NatToString(a), NatToString(b);
    assert ta[|ta| - 1] == '0' + ((a % 10) as char);
    assert tb[|tb| - 1] == '0' + ((b % 10) as char);
    assert a % 10 == b % 10;
    assert |ta| == 1 <==> a < 10;
    assert |tb| == 1 <==> b < 10;
    if a >= 10 {
      assert NatToString(a / 10) == ta[..|ta| - 1] == tb[..|tb| - 1] == NatToString(b / 10);
      NatToStringInjective(a / 10, b / 10);
    }
  }

  // The messages of the .NET exceptions the analyser's code lets escape, and the names of the ones it reports.

  const NullReferenceMessage := "Object reference not set to an instance of an object."
  const IndexOutsideBoundsMessage := "Index was outside the bounds of the array."
  const IndexOutOfRangeMessage := "Index was out of range."
  const KeyNotFoundMessage := "The given key was not present in the dictionary."
  const NoElementsMessage := "Sequence contains no elements"
  const OverflowExceptionName := "OverflowException"
  const DivideByZeroExceptionName := "DivideByZeroException"
  const ArgumentOutOfRangeExceptionName := "ArgumentOutOfRangeException"
}
