/** Decimal digit strings: rendering of naturals, reading digit strings back,
    and the arithmetic facts the timestamp code relies on. */
module Decimal {

  /** An unsigned 64-bit integer (std::uint64_t). */
  type u64 = x: int | 0 <= x < 0x1_0000_0000_0000_0000

  predicate IsDigit(c: char) { '0' <= c <= '9' }

  predicate AllDigits(s: string) { forall i :: 0 <= i < |s| ==> IsDigit(s[i]) }

  function DigitValue(c: char): (d: nat)
    requires IsDigit(c)
    ensures d < 10
  {
    c as int - '0' as int
  }

  function DigitChar(d: nat): (c: char)
    requires d < 10
    ensures IsDigit(c) && DigitValue(c) == d
  {
    ('0' as int + d) as char
  }

  function Pow10(k: nat): (r: nat)
    ensures r >= 1
  {
    if k == 0 then 1 else 10 * Pow10(k - 1)
  }

  /** Decimal rendering without leading zeros, as std::to_string renders an unsigned value. */
  function Digits(n: nat): (s: string)
    ensures |s| >= 1 && AllDigits(s)
    decreases n
  {
    if n < 10 then [DigitChar(n)] else Digits(n / 10) + [DigitChar(n % 10)]
  }

  /** The w lowest decimal digits of n, zero-padded on the left to width w. */
  function Fixed(n: nat, w: nat): (s: string)
    ensures |s| == w && AllDigits(s)
  {
    if w == 0 then [] else Fixed(n / 10, w - 1) + [DigitChar(n % 10)]
  }

  /** The number a digit string denotes (leading zeros allowed, the empty string is 0). */
  function Value(s: string): nat
    requires AllDigits(s)
  {
    if s == [] then 0 else 10 * Value(s[..|s| - 1]) + DigitValue(s[|s| - 1])
  }

  // ---------------------------------------------------------------------
  // Arithmetic helpers

  lemma MulMonoRight(a: nat, b: nat, k: nat)
    requires a <= b
    ensures a * k <= b * k
  {
  }

  /** Multiples of d are at least d apart. */
  lemma MulGap(x: nat, y: nat, d: nat)
    ensures x < y ==> x * d + d <= y * d
  {
    if x < y {
      MulMonoRight(x + 1, y, d);
      assert (x + 1) * d == x * d + d;
    }
  }

  lemma DivModUnique(n: nat, d: nat, q: nat, r: nat)
    requires d > 0 && n == q * d + r && r < d
    ensures n / d == q && n % d == r
  {
    var q', r' := n / d, n % d;
    assert n == q' * d + r';
    MulGap(q', q, d);
    MulGap(q, q', d);
  }

  lemma DivMono(a: nat, b: nat, d: nat)
    requires d > 0 && a <= b
    ensures a / d <= b / d
  {
    var qa, qb := a / d, b / d;
    assert a == qa * d + a % d;
    assert b == qb * d + b % d;
    MulGap(qb, qa, d);
  }

  /** Dropping the last digit and then taking m digits is taking 10 * m digits and keeping the last. */
  lemma ModStep(n: nat, m: nat)
    requires m >= 1
    ensures 10 * ((n / 10) % m) + n % 10 == n % (10 * m)
  {
    var q := n / 10;
    var a, b := q / m, q % m;
    assert n == 10 * q + n % 10;
    assert q == a * m + b;
    assert 10 * q == a * (10 * m) + 10 * b;
    DivModUnique(n, 10 * m, a, 10 * b + n % 10);
  }

  lemma Regroup(a: int, p: int, b: int, c: int)
    ensures 10 * (a * p + b) + c == a * (10 * p) + (10 * b + c)
  {
  }

  lemma {:induction false} Pow10Mono(i: nat, j: nat)
    requires i <= j
    ensures Pow10(i) <= Pow10(j)
    decreases j
  {
    if i < j {
      Pow10Mono(i, j - 1);
    }
  }

  /** The concrete powers the 19-digit clock format needs. */
  lemma Pow10Values()
    ensures Pow10(3) == 1000
    ensures Pow10(6) == 1000000
    ensures Pow10(9) == 1000000000
    ensures Pow10(18) == 1000000000000000000
    ensures Pow10(19) == 10000000000000000000
  {
    assert Pow10(3) == 1000;
    assert Pow10(6) == 1000 * Pow10(3);
    assert Pow10(9) == 1000 * Pow10(6);
    assert Pow10(12) == 1000 * Pow10(9);
    assert Pow10(15) == 1000 * Pow10(12);
    assert Pow10(18) == 1000 * Pow10(15);
  }

  // ---------------------------------------------------------------------
  // Rendering and reading back

  lemma {:induction false} ValueOfDigits(n: nat)
    ensures Value(Digits(n)) == n
    decreases n
  {
    if n >= 10 {
      var s := Digits(n);
      assert s[..|s| - 1] == Digits(n / 10);
      ValueOfDigits(n / 10);
    }
  }

  lemma {:induction false} ValueOfFixed(n: nat, w: nat)
    ensures Value(Fixed(n, w)) == n % Pow10(w)
  {
    if w > 0 {
      var s := Fixed(n, w);
      assert s[..|s| - 1] == Fixed(n / 10, w - 1);
      ValueOfFixed(n / 10, w - 1);
      ModStep(n, Pow10(w - 1));
    }
  }

  /** A number with fewer than w digits comes back unchanged from its zero-padded form. */
  lemma FixedOfSmall(n: nat, p: nat)
    requires n < Pow10(p)
    ensures Value(Fixed(n, p)) == n
  {
    ValueOfFixed(n, p);
    DivModUnique(n, Pow10(p), 0, n);
  }

  lemma {:induction false} ValueBound(s: string)
    requires AllDigits(s)
    ensures Value(s) < Pow10(|s|)
    decreases |s|
  {
    if s != [] {
      ValueBound(s[..|s| - 1]);
    }
  }

  /** Reading a digit string splits at any position into a high part and a low part. */
  lemma {:induction false} ValueSplit(s: string, k: nat)
    requires AllDigits(s) && k <= |s|
    ensures Value(s) == Value(s[..k]) * Pow10(|s| - k) + Value(s[k..])
    decreases |s|
  {
    if k == |s| {
      assert s[..k] == s;
      assert s[k..] == [];
    } else {
      var t := s[..|s| - 1];
      ValueSplit(t, k);
      assert t[..k] == s[..k];
      assert s[k..][..|s[k..]| - 1] == t[k..];
      assert Value(s[k..]) == 10 * Value(t[k..]) + DigitValue(s[|s| - 1]);
      assert Pow10(|s| - k) == 10 * Pow10(|t| - k);
      Regroup(Value(s[..k]), Pow10(|t| - k), Value(t[k..]), DigitValue(s[|s| - 1]));
    }
  }

  /** A string of zeros denotes 0. */
  lemma {:induction false} ZerosValue(s: string)
    requires forall i :: 0 <= i < |s| ==> s[i] == '0'
    ensures AllDigits(s) && Value(s) == 0
    decreases |s|
  {
    if s != [] {
      ZerosValue(s[..|s| - 1]);
    }
  }

  /** A prefix of a digit string denotes the whole value with the dropped digits truncated. */
  lemma PrefixValue(s: string, k: nat)
    requires AllDigits(s) && k <= |s|
    ensures Value(s[..k]) == Value(s) / Pow10(|s| - k)
  {
    ValueSplit(s, k);
    ValueBound(s[k..]);
    DivModUnique(Value(s), Pow10(|s| - k), Value(s[..k]), Value(s[k..]));
  }

  /** The length of a rendering pins down the magnitude of the number. */
  lemma {:induction false} DigitsLength(n: nat)
    ensures n < Pow10(|Digits(n)|)
    ensures n >= 1 ==> Pow10(|Digits(n)| - 1) <= n
    decreases n
  {
    if n >= 10 {
      DigitsLength(n / 10);
    }
  }

  /** A rendering is 19 characters long exactly when the number has 19 digits. */
  lemma NineteenDigits(n: nat)
    ensures |Digits(n)| == 19 <==> Pow10(18) <= n < Pow10(19)
  {
    DigitsLength(n);
    var len := |Digits(n)|;
    if Pow10(18) <= n < Pow10(19) {
      if len < 19 {
        Pow10Mono(len, 18);
      } else if len > 19 {
        Pow10Mono(19, len - 1);
      }
    }
  }
}
