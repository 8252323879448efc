/**
 * The C integer and character semantics the library relies on, written out:
 * signed `char` bytes, narrowing casts, unsigned-to-int casts, and C's
 * truncating `/` and `%` (Dafny's own are Euclidean). Also the exact ratio
 * that stands in for the library's float quotients (UVs, scale factors).
 */
module CTypes {

  /** One byte of a C string as it sits in memory. */
  type Byte = b: int | 0 <= b < 256

  /** The bytes of a non-null C string before its terminating NUL. */
  type CString = s: seq<Byte> | 0 !in s

  const SPACE: Byte := 32

  const TWO_31: int := 0x8000_0000
  const TWO_32: int := 0x1_0000_0000
  const TWO_64: int := 0x1_0000_0000_0000_0000
  const UINT32_MAX: int := 0xFFFF_FFFF

  /** The value of a byte read through a (signed) `char`. */
  function SChar(b: Byte): (c: int)
    ensures -128 <= c < 128
    ensures c == b || c == b - 256
    ensures c == b <==> b < 128
  {
    if b < 128 then b else b - 256
  }

  /** `(char)v`: the narrowing of an int to a signed char, modulo 256. */
  function ToSChar(v: int): (c: int)
    ensures -128 <= c < 128
    ensures (c - v) % 256 == 0
    ensures -128 <= v < 128 ==> c == v
  {
    (v + 128) % 256 - 128
  }

  /** `(unsigned char)v`: the narrowing of an int to an unsigned char, modulo 256. */
  function ToUChar(v: int): (c: int)
    ensures 0 <= c < 256
    ensures (c - v) % 256 == 0
    ensures 0 <= v < 256 ==> c == v
  {
    v % 256
  }

  /** `(int)u` for an unsigned value: the two's-complement reading of its low 32 bits. */
  function ToInt32(u: nat): (v: int)
    ensures -TWO_31 <= v < TWO_31
    ensures (v - u) % TWO_32 == 0
    ensures u < TWO_31 ==> v == u
    ensures TWO_31 <= u < TWO_32 ==> v == u - TWO_32
  {
    var w := u % TWO_32;
    if w < TWO_31 then w else w - TWO_32
  }

  /** C's `a / b` for b > 0: the quotient is truncated toward zero. */
  function CDiv(a: int, b: int): (q: int)
    requires b > 0
    ensures 0 <= a ==> 0 <= q * b <= a < q * b + b
    ensures a < 0 ==> q * b - b < a <= q * b <= 0
  {
    if a >= 0 then
      assert a == (a / b) * b + a % b;
      assert 0 <= a / b;
      NonNegProduct(a / b, b);
      a / b
    else
      var n := -a;
      var q := n / b;
      assert n == q * b + n % b;
      assert 0 <= q;
      NonNegProduct(q, b);
      assert (-q) * b == -(q * b);
      -q
  }

  lemma NonNegProduct(x: int, y: int)
    requires 0 <= x && 0 <= y
    ensures 0 <= x * y
  {
  }

  /** C's `a % b` for b > 0: the remainder takes the sign of the dividend. */
  function CRem(a: int, b: int): (r: int)
    requires b > 0
    ensures 0 <= a ==> 0 <= r < b
    ensures a < 0 ==> -b < r <= 0
    ensures a - r == CDiv(a, b) * b
  {
    a - CDiv(a, b) * b
  }

  /** An exact quotient num/den, standing in for a float quotient of two integers. */
  datatype Ratio = Ratio(num: int, den: int)

  /**
   * `(int)(v * r)`: the product truncated toward zero. The source computes it
   * in float; here it is exact.
   */
  function Scaled(v: int, r: Ratio): (s: int)
    requires r.den > 0
    ensures 0 <= v * r.num ==> 0 <= s * r.den <= v * r.num < s * r.den + r.den
    ensures v * r.num < 0 ==> s * r.den - r.den < v * r.num <= s * r.den <= 0
  {
    CDiv(v * r.num, r.den)
  }

  // ------------------------------------------------------------- atoi

  /** isspace in the C locale. */
  predicate IsSpace(c: char)
  {
    c == ' ' || c == '\t' || c == '\n' || c == '\r' || c as int == 11 || c as int == 12
  }

  predicate IsDigit(c: char)
  {
    '0' <= c <= '9'
  }

  function DigitValue(c: char): (d: int)
    requires IsDigit(c)
    ensures 0 <= d < 10
  {
    c as int - '0' as int
  }

  function SkipSpace(t: string): string
  {
    if |t| > 0 && IsSpace(t[0]) then SkipSpace(t[1..]) else t
  }

  /** The digits at the front of t read in base ten after the digits already read into acc. */
  function DigitRun(t: string, acc: int): int
  {
    if |t| > 0 && IsDigit(t[0]) then DigitRun(t[1..], acc * 10 + DigitValue(t[0])) else acc
  }

  /**
   * atoi: leading white space, an optional sign, then the longest run of
   * decimal digits; anything after the run is ignored, and no digits read as 0.
   */
  function Atoi(t: string): int
  {
    var u := SkipSpace(t);
    if |u| > 0 && u[0] == '-' then -DigitRun(u[1..], 0)
    else if |u| > 0 && u[0] == '+' then DigitRun(u[1..], 0)
    else DigitRun(u, 0)
  }

  function DigitChar(d: int): (c: char)
    requires 0 <= d < 10
    ensures IsDigit(c) && DigitValue(c) == d
  {
    ('0' as int + d) as char
  }

  /** The shortest decimal rendering of n, as a BMFont file writes its numbers. */
  function Decimal(n: int): (t: string)
    ensures |t| > 0
    ensures t[0] == '-' <==> n < 0
    decreases if n < 0 then 1 - n else n
  {
    if n < 0 then "-" + Decimal(-n)
    else if n < 10 then [DigitChar(n)]
    else Decimal(n / 10) + [DigitChar(n % 10)]
  }

  lemma {:induction false} DigitRunAppend(a: string, b: string, acc: int)
    requires forall i :: 0 <= i < |a| ==> IsDigit(a[i])
    ensures DigitRun(a + b, acc) == DigitRun(b, DigitRun(a, acc))
  {
    if |a| > 0 {
      assert (a + b)[1..] == a[1..] + b;
      DigitRunAppend(a[1..], b, acc * 10 + DigitValue(a[0]));
    } else {
      assert a + b == b;
    }
  }

  /** A non-negative number renders as digits only. */
  lemma {:induction false} DecimalDigits(n: nat)
    ensures forall i :: 0 <= i < |Decimal(n)| ==> IsDigit(Decimal(n)[i])
  {
    if n >= 10 {
      DecimalDigits(n / 10);
    }
  }

  lemma {:induction false} DigitRunDecimal(n: nat)
    ensures DigitRun(Decimal(n), 0) == n
  {
    if n >= 10 {
      DigitRunDecimal(n / 10);
      DecimalDigits(n / 10);
      DigitRunAppend(Decimal(n / 10), [DigitChar(n % 10)], 0);
    }
  }

  /** atoi reads back every number its decimal rendering writes. */
  lemma AtoiDecimal(n: int)
    ensures Atoi(Decimal(n)) == n
  {
    if n < 0 {
      DigitRunDecimal(-n);
      assert ("-" + Decimal(-n))[1..] == Decimal(-n);
    } else {
      DigitRunDecimal(n);
    }
  }
}
