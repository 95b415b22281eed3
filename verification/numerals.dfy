/** Decimal renderings of numbers as the tester's formatting code sees them:
    Python's `str()` of a non-negative integer, fixed-width digit fields, and
    an exact-arithmetic stand-in for `str()` of the quotient of two naturals. */
module Numerals {
  import opened PyText

  function Digit(d: nat): (c: char)
    requires d < 10
    ensures '0' <= c <= '9'
  {
    ('0' as int + d) as char
  }

  function DigitValue(c: char): (d: nat)
    requires '0' <= c <= '9'
    ensures d < 10
    ensures Digit(d) == c
  {
    c as int - '0' as int
  }

  predicate IsDigits(s: string)
  {
    forall i :: 0 <= i < |s| ==> '0' <= s[i] <= '9'
  }

  /** The number a string of decimal digits denotes (most significant first). */
  function Value(s: string): nat
    requires IsDigits(s)
  {
    if s == [] then 0 else Value(s[..|s| - 1]) * 10 + DigitValue(s[|s| - 1])
  }

  function Pow10(k: nat): (p: nat)
    ensures p >= 1
  {
    if k == 0 then 1 else 10 * Pow10(k - 1)
  }

  /** The form Python's `str()` gives a non-negative integer: at least one
      digit and no leading zero unless the number is 0. */
  predicate IsCanonical(s: string)
  {
    IsDigits(s) && |s| >= 1 && (s[0] == '0' ==> |s| == 1)
  }

  /** `str(n)` for a non-negative integer `n`. */
  function Str(n: nat): (s: string)
    ensures IsCanonical(s)
    ensures s[|s| - 1] == Digit(n % 10)
  {
    if n < 10 then [Digit(n)] else Str(n / 10) + [Digit(n % 10)]
  }

  /** `str(n)` denotes `n`: with `StrOfValue`, a round trip in both
      directions between numbers and their canonical renderings. */
  lemma {:induction false} StrValue(n: nat)
    ensures Value(Str(n)) == n
  {
    if n >= 10 {
      var s := Str(n);
      assert s[..|s| - 1] == Str(n / 10);
      StrValue(n / 10);
      assert DigitValue(Digit(n % 10)) == n % 10;
    }
  }

  /** Arithmetic: quotient and remainder are determined by the equation
      `a == q * d + r` with `0 <= r < d`. */
  lemma DivModUnique(a: int, d: int, q: int, r: int)
    requires d > 0 && 0 <= r < d && a == q * d + r
    ensures a / d == q && a % d == r
  {
    var q', r' := a / d, a % d;
    assert a == q' * d + r';
    if q > q' {
      MulAtLeast(q - q', d);
      assert false;
    } else if q < q' {
      MulAtLeast(q' - q, d);
      assert false;
    }
  }

  /** `a // b` for naturals (truncating and floor division agree here). */
  function Quotient(a: nat, b: nat): nat
    requires b > 0
  {
    DivModUnique(a, b, a / b, a % b);
    a / b
  }

  lemma MulAtLeast(x: int, d: int)
    requires x >= 1 && d > 0
    ensures x * d >= d
  {
    assert x * d == (x - 1) * d + d;
    assert (x - 1) * d >= 0;
  }

  /** A canonical string is the rendering of its own value. */
  lemma {:induction false} StrOfValue(s: string)
    requires IsCanonical(s)
    ensures Str(Value(s)) == s
  {
    if |s| > 1 {
      var p, d := s[..|s| - 1], DigitValue(s[|s| - 1]);
      assert IsCanonical(p);
      LeadingDigitBound(p);
      var n := Value(s);
      assert n == Value(p) * 10 + d;
      DivModUnique(n, 10, Value(p), d);
      StrOfValue(p);
      assert s == p + [s[|s| - 1]];
    }
  }

  /** A digit string with a non-zero first digit is at least 10^(len-1). */
  lemma {:induction false} LeadingDigitBound(s: string)
    requires IsDigits(s) && |s| >= 1 && s[0] != '0'
    ensures Value(s) >= Pow10(|s| - 1)
  {
    if |s| > 1 {
      LeadingDigitBound(s[..|s| - 1]);
    } else {
      assert DigitValue(s[0]) != 0;
    }
  }

  /** The `k` least significant decimal digits of `n`, zero-padded on the
      left: the reference meaning of a fixed-width numeric field. */
  function FixedDigits(n: nat, k: nat): (s: string)
    ensures |s| == k
    ensures IsDigits(s)
  {
    if k == 0 then [] else FixedDigits(n / 10, k - 1) + [Digit(n % 10)]
  }

  /** A fixed-width field denotes its number modulo 10^k. */
  lemma {:induction false} FixedDigitsValue(n: nat, k: nat)
    ensures Value(FixedDigits(n, k)) == n % Pow10(k)
  {
    if k > 0 {
      var s := FixedDigits(n, k);
      assert s[..k - 1] == FixedDigits(n / 10, k - 1);
      assert DigitValue(s[k - 1]) == n % 10;
      FixedDigitsValue(n / 10, k - 1);
      LowDigitsStep(n, Pow10(k - 1));
    }
  }

  /** Arithmetic: the low digits of `n` are the low digits of `n / 10`
      followed by its last digit. */
  lemma LowDigitsStep(n: nat, m: nat)
    requires m > 0
    ensures (n / 10 % m) * 10 + n % 10 == n % (10 * m)
  {
    var a := n / 10;
    var q, b := a / m, a % m;
    assert a == q * m + b;
    assert n == (10 * m) * q + (10 * b + n % 10);
    DivModUnique(n, 10 * m, q, 10 * b + n % 10);
  }

  /** `"0" * z + str(n)`: the rendering of `n` behind `z` padding zeros. */
  function ZeroPadded(n: nat, z: nat): (s: string)
  {
    Repeat('0', z) + Str(n)
  }

  /** `("0" * z + str(n))[-k:]` with at least `k` padding zeros keeps exactly
      the `k` low digits of `n`: zero-padded when `n` is short, cut to its
      last `k` digits when it is long. */
  lemma {:induction false} ZeroPaddedSuffix(n: nat, k: nat, z: nat)
    requires k <= z
    ensures TakeLast(ZeroPadded(n, z), k) == FixedDigits(n, k)
  {
    if k > 0 {
      var z' := if n < 10 then z - 1 else z;
      var p := ZeroPadded(n / 10, z');
      ZeroPaddedLast(n, z);
      assert k <= |p| + 1;
      TakeLastAppend(p, Digit(n % 10), k);
      ZeroPaddedSuffix(n / 10, k - 1, z');
    }
  }

  /** Peeling the last digit off a zero-padded rendering leaves the
      rendering of `n / 10`, with one padding zero standing in for the
      digit when `n` has only one. */
  lemma ZeroPaddedLast(n: nat, z: nat)
    requires n >= 10 || z > 0
    ensures ZeroPadded(n, z)
      == ZeroPadded(n / 10, if n < 10 then z - 1 else z) + [Digit(n % 10)]
  {
    if n < 10 {
      assert Repeat('0', z) == Repeat('0', z - 1) + Str(0);
    }
  }

  lemma {:induction false} Pow10Add(a: nat, b: nat)
    ensures Pow10(a + b) == Pow10(a) * Pow10(b)
  {
    if a > 0 {
      Pow10Add(a - 1, b);
      assert Pow10(a + b) == 10 * Pow10(a - 1 + b);
    }
  }

  /** Arithmetic: dividing twice is dividing by the product. */
  lemma DivDiv(a: nat, b: nat, c: nat)
    requires b > 0 && c > 0
    ensures (a / b) / c == a / (b * c)
  {
    var q, r := a / (b * c), a % (b * c);
    assert a == q * (b * c) + r;
    var r1, r0 := r / b, r % b;
    assert r == r1 * b + r0;
    assert r1 < c by {
      if r1 >= c {
        assert r1 * b >= c * b by { MulMono(c, r1, b); }
        assert false;
      }
    }
    assert a == (q * c + r1) * b + r0;
    DivModUnique(a, b, q * c + r1, r0);
    DivModUnique(q * c + r1, c, q, r1);
  }

  lemma MulAssoc(a: nat, b: nat, c: nat)
    ensures a * (b * c) == (a * b) * c
  {
  }

  lemma MulMono(x: nat, y: nat, b: nat)
    requires x <= y
    ensures x * b <= y * b
  {
    assert y * b == x * b + (y - x) * b;
  }

  /** Arithmetic: a common factor cancels in a quotient. */
  lemma DivCancel(x: nat, t: nat, m: nat)
    requires t > 0 && m > 0
    ensures (x * m) / (t * m) == x / t
  {
    var q, r := x / t, x % t;
    assert x == q * t + r;
    assert x * m == q * (t * m) + r * m;
    assert r * m < t * m by {
      MulMono(r + 1, t, m);
      assert (r + 1) * m == r * m + m;
    }
    DivModUnique(x * m, t * m, q, r * m);
  }

  /** The first `j` of the `k` low digits of `n` are the `j` low digits of
      `n` with its last `k - j` digits dropped. */
  lemma {:induction false} FixedDigitsPrefix(n: nat, k: nat, j: nat)
    requires j <= k
    ensures FixedDigits(n, k)[..j] == FixedDigits(n / Pow10(k - j), j)
  {
    if k == j {
      assert FixedDigits(n, k)[..j] == FixedDigits(n, k);
    } else {
      FixedDigitsPrefix(n / 10, k - 1, j);
      assert FixedDigits(n, k)[..j] == FixedDigits(n / 10, k - 1)[..j];
      DivDiv(n, 10, Pow10(k - 1 - j));
      assert Pow10(k - j) == 10 * Pow10(k - 1 - j);
    }
  }

  /** The first `p` decimal digits after the point of the exact quotient
      `num / den`, truncated (not rounded). */
  function FractionDigits(num: nat, den: nat, p: nat): string
    requires den > 0
  {
    FixedDigits(Quotient(num * Pow10(p), den), p)
  }

  /** Truncating to more digits and then keeping three is truncating to three. */
  lemma FractionDigitsPrefix(num: nat, den: nat, p: nat)
    requires den > 0 && p >= 3
    ensures FractionDigits(num, den, p)[..3] == FractionDigits(num, den, 3)
  {
    var m := Pow10(p - 3);
    var n := Quotient(num * Pow10(p), den);
    assert Pow10(3) == 1000;
    FixedDigitsPrefix(n, p, 3);
    assert n / m == num * 1000 / den by {
      DivDiv(num * Pow10(p), den, m);
      assert num * Pow10(p) == (num * 1000) * m by {
        Pow10Add(3, p - 3);
        MulAssoc(num, 1000, m);
      }
      assert den * m == m * den;
      DivCancel(num * 1000, den, m);
    }
  }

  /** `s.rstrip("0")`. */
  function TrimTrailingZeros(s: string): (r: string)
    ensures r <= s
    ensures r == [] || r[|r| - 1] != '0'
    ensures forall i :: |r| <= i < |s| ==> s[i] == '0'
  {
    if s != [] && s[|s| - 1] == '0' then TrimTrailingZeros(s[..|s| - 1]) else s
  }

  /** How many digits after the point the model of `str()` of a quotient
      keeps before dropping trailing zeros. Python prints the shortest
      representation of the nearest double, about 15 to 17 significant
      digits; any width of at least three gives the tester the same report. */
  const FloatFractionDigits: nat := 15

  /** The digits after the point in the model of `str()` of a quotient: the
      truncated expansion without its trailing zeros, but at least one digit
      (`str(40.0)` is `"40.0"`). */
  function FloatFraction(num: nat, den: nat): (r: string)
    requires den > 0
    ensures IsDigits(r) && |r| >= 1
    ensures '.' !in r
    ensures r[|r| - 1] == '0' ==> r == "0"
  {
    var t := TrimTrailingZeros(FractionDigits(num, den, FloatFractionDigits));
    if t == [] then "0" else t
  }

  /** Exact-arithmetic model of `str(num / den)` for naturals: the integer
      part, a point, and the fractional digits. Like Python's rendering of a
      float it starts and ends with a digit, and it ends in '0' only as
      `".0"` (a whole number). */
  function FloatStr(num: nat, den: nat): (r: string)
    requires den > 0
    ensures |r| >= 3 && '0' <= r[0] <= '9' && '0' <= r[|r| - 1] <= '9'
    ensures r[|r| - 1] == '0' ==> r[|r| - 2..] == ".0"
  {
    var w := Str(Quotient(num, den));
    var f := FloatFraction(num, den);
    PointedShape(w, f);
    w + "." + f
  }

  /** Digits, a point and digits that end in '0' only when they are "0". */
  lemma PointedShape(w: string, f: string)
    requires IsDigits(w) && |w| >= 1
    requires IsDigits(f) && |f| >= 1 && (f[|f| - 1] == '0' ==> f == "0")
    ensures var r := w + "." + f;
      |r| >= 3 && '0' <= r[0] <= '9' && '0' <= r[|r| - 1] <= '9' &&
      (r[|r| - 1] == '0' ==> r[|r| - 2..] == ".0")
  {
    var r := w + "." + f;
    assert r[0] == w[0] && r[|r| - 1] == f[|f| - 1];
    if f == "0" {
      assert r == w + ".0";
    }
  }

  /** Splitting the rendering at the point gives its integer digits and its
      fractional digits, exactly two pieces. */
  lemma FloatStrSplit(num: nat, den: nat)
    requires den > 0
    ensures Split(FloatStr(num, den), '.') == [Str(Quotient(num, den)), FloatFraction(num, den)]
  {
    var w := Str(Quotient(num, den));
    assert '.' !in w by {
      forall i | 0 <= i < |w| ensures w[i] != '.' { }
    }
    SplitAround(w, FloatFraction(num, den), '.');
  }

  /** `(frac + "000")[:3]` recovers the first three truncated digits of the
      quotient, whether the trailing-zero trim shortened them or not. */
  lemma FloatFractionPadded(num: nat, den: nat)
    requires den > 0
    ensures Take(FloatFraction(num, den) + "000", 3) == FractionDigits(num, den, 3)
  {
    var s := FractionDigits(num, den, FloatFractionDigits);
    var t := TrimTrailingZeros(s);
    var f := FloatFraction(num, den);
    FractionDigitsPrefix(num, den, FloatFractionDigits);
    var want := s[..3];
    if |t| >= 3 {
      assert f == t;
      assert (f + "000")[..3] == t[..3];
      assert t[..3] == want;
    } else {
      forall i | 0 <= i < 3 ensures (f + "000")[i] == want[i] {
        if i < |t| {
          assert t[i] == s[i];
        }
      }
    }
  }
}
