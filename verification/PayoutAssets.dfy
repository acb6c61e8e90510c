/** Base-unit amounts as decimal strings. */
module PayoutAssets {
  import opened Text

  function Pow10(k: nat): (p: nat)
    ensures p > 0
  {
    if k == 0 then 1 else 10 * Pow10(k - 1)
  }

  function Digit(d: nat): char
    requires d < 10
  {
    (d + '0' as int) as char
  }

  function Digits(n: nat): (s: string)
    ensures s != ""
  {
    if n < 10 then [Digit(n)] else Digits(n / 10) + [Digit(n % 10)]
  }

  function Zeros(k: nat): (s: string)
    ensures |s| == k && forall i | 0 <= i < k :: s[i] == '0'
  {
    seq(k, _ => '0')
  }

  function PadStart(s: string, width: nat): string {
    if |s| >= width then s else Zeros(width - |s|) + s
  }

  // replace(/0+$/, "")
  function WithoutTrailingZeros(s: string): (r: string)
    ensures r == "" || r[|r| - 1] != '0'
    ensures |r| <= |s| && s == r + Zeros(|s| - |r|)
  {
    if s == "" || s[|s| - 1] != '0' then s
    else
      var r := WithoutTrailingZeros(s[..|s| - 1]);
      assert s == s[..|s| - 1] + ['0'];
      r
  }

  // Math.floor(baseUnits / divisor)
  function Quotient(baseUnits: nat, divisor: nat): nat
    requires divisor > 0
  {
    baseUnits / divisor
  }

  function Remainder(baseUnits: nat, divisor: nat): (frac: nat)
    requires divisor > 0
    ensures frac < divisor && Quotient(baseUnits, divisor) * divisor + frac == baseUnits
  {
    Division(baseUnits, divisor);
    baseUnits - Quotient(baseUnits, divisor) * divisor
  }

  function FormatAssetAmount(baseUnits: nat, decimals: nat): string {
    var divisor := Pow10(decimals);
    var whole := Quotient(baseUnits, divisor);
    var frac := Remainder(baseUnits, divisor);
    if frac == 0 then Digits(whole)
    else Digits(whole) + "." + WithoutTrailingZeros(PadStart(Digits(frac), decimals))
  }

  // ---- reading a decimal -------------------------------------------------------

  predicate Numeric(s: string) {
    forall i | 0 <= i < |s| :: '0' <= s[i] <= '9'
  }

  function Value(s: string): nat
    requires Numeric(s)
  {
    if s == "" then 0 else 10 * Value(s[..|s| - 1]) + (s[|s| - 1] as int - '0' as int)
  }

  // A decimal string as its two digit runs.
  datatype Decimal = Decimal(whole: string, frac: string)

  function Shown(d: Decimal): string {
    if d.frac == "" then d.whole else d.whole + "." + d.frac
  }

  // No leading zeros, no trailing fractional zeros, no bare dot, no more places than the asset has.
  predicate Canonical(d: Decimal, decimals: nat) {
    && Numeric(d.whole) && Numeric(d.frac) && d.whole != "" && (d.whole[0] == '0' ==> |d.whole| == 1)
    && |d.frac| <= decimals && (d.frac != "" ==> d.frac[|d.frac| - 1] != '0')
  }

  function Amount(d: Decimal, decimals: nat): nat
    requires Canonical(d, decimals)
  {
    Value(d.whole) * Pow10(decimals) + Value(d.frac) * Pow10(decimals - |d.frac|)
  }

  lemma {:induction false} DigitsOfValue(n: nat)
    ensures Numeric(Digits(n)) && Value(Digits(n)) == n && (Digits(n)[0] == '0' ==> n == 0 && |Digits(n)| == 1)
  {
    if n >= 10 {
      DigitsOfValue(n / 10);
      assert Digits(n)[..|Digits(n)| - 1] == Digits(n / 10);
    } else {
      assert Digits(n)[..0] == "";
    }
  }

  lemma {:induction false} DigitsFit(n: nat, width: nat)
    requires 0 < width && n < Pow10(width)
    ensures |Digits(n)| <= width
  {
    if n >= 10 {
      DigitsFit(n / 10, width - 1);
    }
  }

  lemma {:induction false} ValueBounded(s: string)
    requires Numeric(s)
    ensures Value(s) < Pow10(|s|)
    ensures s != "" && s[|s| - 1] != '0' ==> Value(s) > 0
  {
    if s != "" {
      ValueBounded(s[..|s| - 1]);
    }
  }

  lemma {:induction false} ValueAppendZeros(s: string, k: nat)
    requires Numeric(s)
    ensures Numeric(s + Zeros(k)) && Value(s + Zeros(k)) == Value(s) * Pow10(k)
  {
    if k == 0 {
      assert s + Zeros(0) == s;
    } else {
      ValueAppendZeros(s, k - 1);
      AppendZero(s + Zeros(k - 1));
      assert s + Zeros(k) == s + Zeros(k - 1) + "0";
      hide Value;
      Regroup(Value(s), Pow10(k - 1));
    }
  }

  lemma AppendZero(s: string)
    requires Numeric(s)
    ensures Numeric(s + "0") && Value(s + "0") == 10 * Value(s)
  {
    assert (s + "0")[..|s|] == s;
  }

  lemma Regroup(v: nat, p: nat)
    ensures 10 * (v * p) == v * (10 * p)
  {
  }

  lemma {:induction false} ValuePrependZeros(k: nat, s: string)
    requires Numeric(s)
    ensures Numeric(Zeros(k) + s) && Value(Zeros(k) + s) == Value(s)
    decreases |s| + k
  {
    var t := Zeros(k) + s;
    if s != "" {
      ValuePrependZeros(k, s[..|s| - 1]);
      assert t[..|t| - 1] == Zeros(k) + s[..|s| - 1];
    } else if k > 0 {
      ValuePrependZeros(k - 1, s);
      assert t[..k - 1] == Zeros(k - 1) + s;
    }
  }

  // Digit strings of one width are told apart by their values.
  lemma {:induction false} SameValue(a: string, b: string)
    requires Numeric(a) && Numeric(b) && |a| == |b| && Value(a) == Value(b)
    ensures a == b
  {
    if a != "" {
      var n := |a| - 1;
      SameValue(a[..n], b[..n]);
      assert a == a[..n] + [a[n]] && b == b[..n] + [b[n]];
    }
  }

  // The fraction as the formatter prints it: the one run with the right value and no trailing zero.
  lemma FractionIs(frac: nat, decimals: nat) returns (f: string)
    requires 0 < frac < Pow10(decimals)
    ensures f == WithoutTrailingZeros(PadStart(Digits(frac), decimals))
    ensures Numeric(f) && 0 < |f| <= decimals && f[|f| - 1] != '0'
    ensures Value(f) * Pow10(decimals - |f|) == frac
  {
    hide Digits, PadStart, WithoutTrailingZeros, Value, Pow10, Numeric;
    var padded := PaddedIs(frac, decimals);
    f := TrimmedIs(padded);
    ValueAppendZeros(f, decimals - |f|);
    NotEmpty(f, Pow10(decimals - |f|), frac);
  }

  lemma TrimmedIs(s: string) returns (f: string)
    requires Numeric(s)
    ensures f == WithoutTrailingZeros(s) && Numeric(f) && |f| <= |s| && s == f + Zeros(|s| - |f|)
    ensures f == "" || f[|f| - 1] != '0'
  {
    f := WithoutTrailingZeros(s);
    hide WithoutTrailingZeros;
    assert forall i | 0 <= i < |f| :: f[i] == s[i];
  }

  lemma NotEmpty(f: string, p: nat, frac: nat)
    requires Numeric(f) && Value(f) * p == frac && frac > 0
    ensures f != ""
  {
    NoDigits();
    assert 0 * p == 0;
  }

  lemma NoDigits()
    ensures Numeric("") && Value("") == 0
  {
  }

  lemma PaddedIs(frac: nat, decimals: nat) returns (padded: string)
    requires 0 < frac < Pow10(decimals)
    ensures padded == PadStart(Digits(frac), decimals)
    ensures |padded| == decimals && Numeric(padded) && Value(padded) == frac
  {
    assert decimals > 0;
    padded := PadStart(Digits(frac), decimals);
    DigitsOfValue(frac);
    DigitsFit(frac, decimals);
    hide Digits, Value, Pow10;
    ValuePrependZeros(decimals - |Digits(frac)|, Digits(frac));
    assert Zeros(0) + Digits(frac) == Digits(frac);
  }

  /** What is printed is canonical, and reads as the amount that was printed. */
  lemma FormatIsCanonical(baseUnits: nat, decimals: nat) returns (d: Decimal)
    ensures FormatAssetAmount(baseUnits, decimals) == Shown(d)
    ensures Canonical(d, decimals) && Amount(d, decimals) == baseUnits
  {
    hide Digits, Value, Pow10, PadStart, WithoutTrailingZeros, Numeric;
    var divisor := Pow10(decimals);
    var whole := Quotient(baseUnits, divisor);
    var frac := Remainder(baseUnits, divisor);
    hide Remainder, Quotient;
    DigitsOfValue(whole);
    NoDigits();
    if frac == 0 {
      d := Decimal(Digits(whole), "");
      Composed(0, Pow10(decimals), frac, whole, divisor, baseUnits);
    } else {
      var f := FractionIs(frac, decimals);
      d := Decimal(Digits(whole), f);
      Composed(Value(f), Pow10(decimals - |f|), frac, whole, divisor, baseUnits);
    }
  }

  lemma Composed(f: nat, scale: nat, frac: nat, whole: nat, divisor: nat, baseUnits: nat)
    requires f * scale == frac || (f == 0 && frac == 0)
    requires whole * divisor + frac == baseUnits
    ensures whole * divisor + f * scale == baseUnits
  {
  }

  lemma Division(a: nat, b: nat)
    requires b > 0
    ensures 0 <= a - a / b * b < b
  {
    assert a == a / b * b + a % b;
  }

  /** Conversely every canonical decimal is what its amount prints as: formatting and reading are inverse. */
  lemma CanonicalIsPrinted(d: Decimal, decimals: nat)
    requires Canonical(d, decimals)
    ensures FormatAssetAmount(Amount(d, decimals), decimals) == Shown(d)
  {
    var e := FormatIsCanonical(Amount(d, decimals), decimals);
    AmountIsInjective(d, e, decimals);
  }

  lemma AmountIsInjective(d: Decimal, e: Decimal, decimals: nat)
    requires Canonical(d, decimals) && Canonical(e, decimals) && Amount(d, decimals) == Amount(e, decimals)
    ensures d == e
  {
    hide Value, Pow10, Numeric;
    var p := Pow10(decimals);
    var i, j := decimals - |d.frac|, decimals - |e.frac|;
    ValueAppendZeros(d.frac, i);
    ValueAppendZeros(e.frac, j);
    ValueBounded(d.frac + Zeros(i));
    ValueBounded(e.frac + Zeros(j));
    SplitIsUnique(Value(d.whole), Value(d.frac + Zeros(i)), Value(e.whole), Value(e.frac + Zeros(j)), p);
    SameValue(d.frac + Zeros(i), e.frac + Zeros(j));
    TrailingZerosAgree(d.frac, i, e.frac, j);
    WholeAgrees(d.whole, e.whole);
  }

  lemma {:induction false} Larger(a: nat, b: nat, p: nat)
    requires a < b
    ensures b * p >= a * p + p
    decreases b
  {
    assert b * p == (b - 1) * p + p;
    if b > a + 1 {
      Larger(a, b - 1, p);
    }
  }

  lemma SplitIsUnique(a: nat, x: nat, b: nat, y: nat, p: nat)
    requires x < p && y < p && a * p + x == b * p + y
    ensures a == b && x == y
  {
    if a < b {
      Larger(a, b, p);
      assert false;
    } else if b < a {
      Larger(b, a, p);
      assert false;
    }
  }

  lemma TrailingZerosAgree(f: string, i: nat, g: string, j: nat)
    requires f + Zeros(i) == g + Zeros(j)
    requires (f != "" ==> f[|f| - 1] != '0') && (g != "" ==> g[|g| - 1] != '0')
    ensures f == g
  {
    var s := f + Zeros(i);
    assert forall k | 0 <= k < |s| :: s[k] == if k < |f| then f[k] else '0';
    assert forall k | 0 <= k < |s| :: s[k] == if k < |g| then g[k] else '0';
    assert f == s[..|f|] && g == s[..|g|];
  }

  lemma {:induction false} LongerIsLarger(s: string, k: nat)
    requires Numeric(s) && k < |s| && s[0] != '0'
    ensures Value(s) >= Pow10(k)
    decreases |s|
  {
    var n := |s| - 1;
    if k > 0 {
      LongerIsLarger(s[..n], k - 1);
    } else if n > 0 {
      LongerIsLarger(s[..n], 0);
    }
  }

  lemma WholeAgrees(v: string, w: string)
    requires Numeric(v) && Numeric(w) && v != "" && w != "" && Value(v) == Value(w)
    requires (v[0] == '0' ==> |v| == 1) && (w[0] == '0' ==> |w| == 1)
    ensures v == w
  {
    if |v| > |w| {
      ValueBounded(w);
      LongerIsLarger(v, |w|);
    } else if |w| > |v| {
      LongerIsLarger(w, |v|);
      ValueBounded(v);
    } else {
      SameValue(v, w);
    }
  }
}
