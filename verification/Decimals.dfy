/**
 Exact decimal arithmetic on strings, as decimal.ts does it with split, regular expressions and BigInt,
 against the value of a decimal string read digit by digit.
 */
module Decimals {
  import opened Texts

  function Power(k: nat): (p: nat)
    ensures p >= 1
  {
    if k == 0 then 1 else 10 * Power(k - 1)
  }

  // ---------------------------------------------------------------- the strings

  /** The part before the first point. */
  function Whole(s: string): string {
    if s == "" || s[0] == '.' then "" else [s[0]] + Whole(s[1..])
  }

  /** s.split('.')[1] ?? '' */
  function Fraction(s: string): string {
    if s == "" then "" else if s[0] == '.' then Whole(s[1..]) else Fraction(s[1..])
  }

  /** Digits with at most one point among them; either side of the point may be empty. */
  predicate IsDecimal(s: string) {
    AllDigits(Whole(s)) && AllDigits(Fraction(s)) && (s == Whole(s) || s == Whole(s) + "." + Fraction(s))
  }

  /** whole.replace(/^0+(?=\d)/, '') */
  function DropLeadingZeros(w: string): string {
    if |w| > 1 && w[0] == '0' then DropLeadingZeros(w[1..]) else w
  }

  /** fraction.replace(/0+$/, '') */
  function DropTrailingZeros(f: string): string {
    if f != "" && f[|f| - 1] == '0' then DropTrailingZeros(f[..|f| - 1]) else f
  }

  function Join(w: string, f: string): string {
    if f == "" then w else w + "." + f
  }

  function CleanWhole(w: string): string {
    if w == "" then "0" else DropLeadingZeros(w)
  }

  /** normalizeDecimal */
  function Normalize(s: string): string {
    Join(CleanWhole(Whole(s)), DropTrailingZeros(Fraction(s)))
  }

  function Max(a: nat, b: nat): nat {
    if a > b then a else b
  }

  /** The digits as one integer, scaled to the given number of decimal places. */
  function Scaled(s: string, scale: nat): nat
    requires |Fraction(s)| <= scale
  {
    Number(Whole(s)) * Power(scale) + Number(Fraction(s)) * Power(scale - |Fraction(s)|)
  }

  /** compareDecimal */
  function Compare(a: string, b: string): int {
    var x, y := Normalize(a), Normalize(b);
    var scale := Max(|Fraction(x)|, |Fraction(y)|);
    var u, v := Scaled(x, scale), Scaled(y, scale);
    if u == v then 0 else if u > v then 1 else -1
  }

  function Zeros(n: nat): string {
    seq(n, i => '0')
  }

  /** f.padEnd(scale, '0') */
  function PadEnd(f: string, scale: nat): string {
    f + Zeros(if |f| < scale then scale - |f| else 0)
  }

  /** BigInt's toString() */
  function Print(n: nat): string {
    if n < 10 then [DigitChar(n)] else Print(n / 10) + [DigitChar(n % 10)]
  }

  /** Print(n).padStart(scale, '0') */
  function PadStart(n: nat, scale: nat): string {
    Zeros(if |Print(n)| < scale then scale - |Print(n)| else 0) + Print(n)
  }

  function ToScaled(s: string, scale: nat): nat {
    Number(Whole(s)) * Power(scale) + Number(PadEnd(Fraction(s), scale))
  }

  /** absolute / factor */
  function Div(n: nat, p: nat): nat
    requires p >= 1
  {
    n / p
  }

  /** absolute % factor */
  function Mod(n: nat, p: nat): (r: nat)
    requires p >= 1
    ensures r < p
  {
    n % p
  }

  /** n / 10**scale in the shortest form */
  function Render(n: nat, scale: nat): string {
    Join(Print(Div(n, Power(scale))), DropTrailingZeros(PadStart(Mod(n, Power(scale)), scale)))
  }

  /** subtractDecimal */
  function Subtract(a: string, b: string): string {
    var scale := Max(|Fraction(a)|, |Fraction(b)|);
    var result := ToScaled(a, scale) - ToScaled(b, scale);
    if result < 0 then "-" + Render(-result, scale) else Render(result, scale)
  }

  // ---------------------------------------------------------------- the value

  /** The value of the digits after the point. */
  ghost function FractionValue(f: string): real {
    if f == "" then 0.0 else (DigitValue(f[0]) as real + FractionValue(f[1..])) / 10.0
  }

  ghost function Value(s: string): real {
    Number(Whole(s)) as real + FractionValue(Fraction(s))
  }

  /** The shortest form: no needless zero in front or behind, no needless point. */
  predicate IsNormal(s: string) {
    && IsDecimal(s)
    && Whole(s) != "" && (Whole(s)[0] == '0' ==> |Whole(s)| == 1)
    && (Fraction(s) != "" ==> Fraction(s)[|Fraction(s)| - 1] != '0')
    && s == Join(Whole(s), Fraction(s))
  }

  // ---------------------------------------------------------------- digits

  lemma {:induction false} NumberFront(c: char, t: string)
    ensures Number([c] + t) == DigitValue(c) * Power(|t|) + Number(t)
    decreases |t|
  {
    if t == "" {
      assert [c] + t == [c];
      assert Number([c]) == 10 * Number([c][..0]) + DigitValue(c);
    } else {
      var s := [c] + t;
      assert s[..|s| - 1] == [c] + t[..|t| - 1];
      NumberFront(c, t[..|t| - 1]);
      TenTimes(DigitValue(c), Power(|t| - 1));
    }
  }

  lemma TenTimes(d: nat, p: nat)
    ensures d * (10 * p) == 10 * (d * p)
  {
  }

  lemma {:induction false} NumberBound(t: string)
    ensures Number(t) < Power(|t|) || !AllDigits(t)
    decreases |t|
  {
    if t != "" {
      NumberBound(t[..|t| - 1]);
      if AllDigits(t) {
        assert AllDigits(t[..|t| - 1]);
        assert DigitValue(t[|t| - 1]) <= 9;
      }
    }
  }

  lemma {:induction false} PowerAdds(j: nat, k: nat)
    ensures Power(j + k) == Power(j) * Power(k)
  {
    if j != 0 {
      PowerAdds(j - 1, k);
    }
  }

  lemma ZerosStep(n: nat)
    requires n > 0
    ensures Zeros(n) == ['0'] + Zeros(n - 1) == Zeros(n - 1) + ['0']
  {
  }

  lemma {:induction false} NumberZerosBehind(t: string, n: nat)
    ensures Number(t + Zeros(n)) == Number(t) * Power(n)
  {
    if n == 0 {
      assert t + Zeros(0) == t;
    } else {
      var s := t + Zeros(n);
      ZerosStep(n);
      assert s[..|s| - 1] == t + Zeros(n - 1);
      NumberZerosBehind(t, n - 1);
      TenTimes(Number(t), Power(n - 1));
    }
  }

  lemma {:induction false} NumberZerosInFront(n: nat, t: string)
    ensures Number(Zeros(n) + t) == Number(t)
  {
    if n == 0 {
      assert Zeros(0) + t == t;
    } else {
      ZerosStep(n);
      assert Zeros(n) + t == ['0'] + (Zeros(n - 1) + t);
      NumberFront('0', Zeros(n - 1) + t);
      NumberZerosInFront(n - 1, t);
    }
  }

  lemma {:induction false} DroppedInFront(w: string)
    requires AllDigits(w)
    ensures Number(DropLeadingZeros(w)) == Number(w) && AllDigits(DropLeadingZeros(w))
    ensures w != "" ==> DropLeadingZeros(w) != ""
    ensures DropLeadingZeros(w) != "" && DropLeadingZeros(w)[0] == '0' ==> |DropLeadingZeros(w)| == 1
    decreases |w|
  {
    if |w| > 1 && w[0] == '0' {
      assert w == ['0'] + w[1..];
      NumberFront('0', w[1..]);
      DroppedInFront(w[1..]);
    }
  }

  lemma {:induction false} DroppedBehind(f: string)
    requires AllDigits(f)
    ensures var g := DropTrailingZeros(f);
            && AllDigits(g) && |g| <= |f| && f == g + Zeros(|f| - |g|)
            && (g != "" ==> g[|g| - 1] != '0')
    decreases |f|
  {
    if f != "" && f[|f| - 1] == '0' {
      var g := DropTrailingZeros(f);
      DroppedBehind(f[..|f| - 1]);
      ZerosStep(|f| - |g|);
      assert f == f[..|f| - 1] + ['0'];
    } else {
      assert Zeros(0) == "";
    }
  }

  lemma {:induction false} DropsAllBehind(g: string, n: nat)
    requires g != "" ==> g[|g| - 1] != '0'
    ensures DropTrailingZeros(g + Zeros(n)) == g
  {
    if n == 0 {
      assert g + Zeros(0) == g;
    } else {
      var f := g + Zeros(n);
      ZerosStep(n);
      assert f[..|f| - 1] == g + Zeros(n - 1) && f[|f| - 1] == '0';
      DropsAllBehind(g, n - 1);
    }
  }

  lemma {:induction false} PrintMeaning(n: nat)
    ensures AllDigits(Print(n)) && Number(Print(n)) == n && Print(n) != ""
    ensures Print(n)[0] == '0' ==> n == 0
    ensures n == 0 ==> Print(n) == "0"
  {
    if n < 10 {
      assert [DigitChar(n)][..0] == "";
    } else {
      PrintMeaning(n / 10);
      var s := Print(n / 10) + [DigitChar(n % 10)];
      assert s[..|s| - 1] == Print(n / 10);
    }
  }

  lemma {:induction false} PrintLength(n: nat, k: nat)
    requires n < Power(k) && k > 0
    ensures |Print(n)| <= k
  {
    if n >= 10 {
      PrintLength(n / 10, k - 1);
    }
  }

  /** Digits without a needless zero in front are what printing their number gives. */
  lemma {:induction false} PrintNumber(w: string)
    requires AllDigits(w) && w != "" && (w[0] == '0' ==> |w| == 1)
    ensures Print(Number(w)) == w
    decreases |w|
  {
    var init := w[..|w| - 1];
    var last := w[|w| - 1];
    assert DigitChar(DigitValue(last)) == last;
    if |w| == 1 {
      assert init == "" && w == [last];
    } else {
      PrintNumber(init);
      PositiveNumber(init);
      assert Number(w) == 10 * Number(init) + DigitValue(last);
      assert w == init + [last];
    }
  }

  lemma PositiveNumber(w: string)
    requires AllDigits(w) && w != "" && w[0] != '0'
    ensures Number(w) >= 1
  {
    assert w == [w[0]] + w[1..];
    NumberFront(w[0], w[1..]);
    TimesAtLeast(DigitValue(w[0]), Power(|w| - 1));
  }

  lemma TimesAtLeast(d: nat, p: nat)
    requires d >= 1 && p >= 1
    ensures d * p >= 1
  {
  }

  /** Fixed-width digits are what padding the printed number gives. */
  lemma {:induction false} PadStartNumber(f: string)
    requires AllDigits(f) && f != ""
    ensures PadStart(Number(f), |f|) == f
    decreases |f|
  {
    if f[0] != '0' || |f| == 1 {
      PrintNumber(f);
      assert Zeros(0) == "";
    } else {
      var t := f[1..];
      assert f == ['0'] + t;
      NumberFront('0', t);
      PadStartNumber(t);
      NumberBound(t);
      PrintLength(Number(t), |t|);
      ZerosStep(|f| - |Print(Number(t))|);
    }
  }

  lemma PadStartMeaning(n: nat, scale: nat)
    requires n < Power(scale) && scale > 0
    ensures AllDigits(PadStart(n, scale)) && |PadStart(n, scale)| == scale && Number(PadStart(n, scale)) == n
  {
    PrintMeaning(n);
    PrintLength(n, scale);
    NumberZerosInFront(scale - |Print(n)|, Print(n));
  }

  // ---------------------------------------------------------------- joining

  lemma {:induction false} WholeOfDigits(w: string, rest: string)
    requires AllDigits(w) && (rest == "" || rest[0] == '.')
    ensures Whole(w + rest) == w && Fraction(w + rest) == Fraction(rest)
    decreases |w|
  {
    if w == "" {
      assert w + rest == rest;
    } else {
      assert (w + rest)[1..] == w[1..] + rest;
      WholeOfDigits(w[1..], rest);
    }
  }

  lemma JoinParts(w: string, f: string)
    requires AllDigits(w) && AllDigits(f)
    ensures Whole(Join(w, f)) == w && Fraction(Join(w, f)) == f && IsDecimal(Join(w, f))
  {
    if f == "" {
      WholeOfDigits(w, "");
      assert w + "" == w;
    } else {
      WholeOfDigits(w, "." + f);
      assert ("." + f)[1..] == f && f + "" == f;
      WholeOfDigits(f, "");
      assert w + "." + f == w + ("." + f);
    }
  }

  // ---------------------------------------------------------------- values and scaled numbers

  /** n is x in units of 1 / p. */
  ghost predicate Counts(n: nat, x: real, p: nat) {
    x * p as real == n as real
  }

  lemma {:induction false} FractionScaled(f: string, scale: nat)
    requires AllDigits(f) && |f| <= scale
    ensures Counts(Number(f) * Power(scale - |f|), FractionValue(f), Power(scale))
    decreases |f|
  {
    hide Counts, Number;
    if f == "" {
      NothingCounts(Power(scale));
    } else {
      var t := f[1..];
      assert f == [f[0]] + t;
      NumberFront(f[0], t);
      FractionScaled(t, scale - 1);
      PowerAdds(|t|, scale - |f|);
      hide Power;
      SplitProduct(DigitValue(f[0]), Power(|t|), Number(t), Power(scale - |f|), Power(scale - 1));
      ScaleDown(DigitValue(f[0]), FractionValue(t), Power(scale - 1), Number(t) * Power(scale - |f|));
      assert Power(scale) == 10 * Power(scale - 1) by {
        PowerStep(scale);
      }
    }
  }

  lemma PowerStep(k: nat)
    requires k > 0
    ensures Power(k) == 10 * Power(k - 1)
  {
  }

  lemma NothingCounts(p: nat)
    ensures Counts(Number("") * p, 0.0, p)
  {
  }

  lemma SplitProduct(d: nat, p: nat, n: nat, q: nat, pq: nat)
    requires pq == p * q
    ensures (d * p + n) * q == d * pq + n * q
  {
  }

  lemma ScaleDown(d: nat, v: real, p: nat, m: nat)
    requires Counts(m, v, p)
    ensures Counts(d * p + m, (d as real + v) / 10.0, 10 * p)
  {
    var r := p as real;
    assert (10 * p) as real == 10.0 * r;
    assert (d as real + v) / 10.0 * (10.0 * r) == d as real * r + v * r;
    assert (d * p) as real == d as real * r;
  }

  /** A decimal string scaled by a power of ten. */
  lemma ScaledValue(s: string, scale: nat)
    requires IsDecimal(s) && |Fraction(s)| <= scale
    ensures Counts(Scaled(s, scale), Value(s), Power(scale))
  {
    hide Counts, Number, Power, FractionValue, Whole, Fraction;
    FractionScaled(Fraction(s), scale);
    Distribute(Number(Whole(s)), FractionValue(Fraction(s)), Power(scale),
               Number(Fraction(s)) * Power(scale - |Fraction(s)|));
  }

  lemma Distribute(w: nat, v: real, p: nat, m: nat)
    requires Counts(m, v, p)
    ensures Counts(w * p + m, w as real + v, p)
  {
    assert (w * p) as real == w as real * p as real;
  }

  lemma ScaledOrder(x: real, y: real, p: nat, m: nat, n: nat)
    requires p >= 1 && Counts(m, x, p) && Counts(n, y, p)
    ensures (x < y <==> m < n) && (x == y <==> m == n)
  {
    var r := p as real;
    assert y * r - x * r == (y - x) * r;
  }

  // ---------------------------------------------------------------- normal forms

  lemma NumberOfZero()
    ensures Number("0") == 0 && Number("") == 0
  {
    assert "0"[..0] == "";
  }

  /** Trailing zeros of a fraction do not count. */
  lemma DroppedBehindKeepsValue(f: string)
    requires AllDigits(f)
    ensures FractionValue(DropTrailingZeros(f)) == FractionValue(f)
  {
    var g := DropTrailingZeros(f);
    DroppedBehind(f);
    FractionScaled(f, |f|);
    FractionScaled(g, |f|);
    NumberZerosBehind(g, |f| - |g|);
    hide Counts, Number, FractionValue;
    ScaledOrder(FractionValue(g), FractionValue(f), Power(|f|), Number(f), Number(f));
  }

  /** Normalising keeps the value and leaves the shortest form. */
  lemma NormalizeMeaning(s: string)
    requires IsDecimal(s)
    ensures IsNormal(Normalize(s)) && Value(Normalize(s)) == Value(s)
  {
    DroppedInFront(Whole(s));
    DroppedBehind(Fraction(s));
    DroppedBehindKeepsValue(Fraction(s));
    NumberOfZero();
    hide Number, FractionValue, Whole, Fraction, DropLeadingZeros, DropTrailingZeros;
    JoinParts(CleanWhole(Whole(s)), DropTrailingZeros(Fraction(s)));
  }

  /** A normal form is printed back from its scaled number. */
  lemma RenderScaled(s: string, scale: nat)
    requires IsNormal(s) && |Fraction(s)| <= scale
    ensures Render(Scaled(s, scale), scale) == s
  {
    hide Number, Power, Whole, Fraction, Print, PadStart, DropTrailingZeros, Div, Mod, Zeros;
    var w, f := Whole(s), Fraction(s);
    var padded := f + Zeros(scale - |f|);
    NumberZerosBehind(f, scale - |f|);
    ZerosAreDigits(scale - |f|);
    NumberBound(padded);
    DivideScaled(Number(w), Number(padded), Power(scale));
    PrintNumber(w);
    PaddedBack(f, scale);
  }

  lemma ZerosAreDigits(n: nat)
    ensures |Zeros(n)| == n && AllDigits(Zeros(n))
  {
  }

  lemma PadNothing()
    ensures DropTrailingZeros(PadStart(0, 0)) == ""
  {
    assert Zeros(0) + "0" == "0" && "0"[..0] == "";
  }

  lemma PaddedBack(f: string, scale: nat)
    requires AllDigits(f) && |f| <= scale && (f != "" ==> f[|f| - 1] != '0')
    ensures DropTrailingZeros(PadStart(Number(f + Zeros(scale - |f|)), scale)) == f
  {
    hide Number, PadStart, DropTrailingZeros, Zeros, AllDigits;
    ZerosAreDigits(scale - |f|);
    PaddedDigits(f, Zeros(scale - |f|));
    if scale > 0 {
      PadStartNumber(f + Zeros(scale - |f|));
      DropsAllBehind(f, scale - |f|);
    } else {
      assert f + Zeros(scale - |f|) == "";
      NumberOfZero();
      PadNothing();
    }
  }

  lemma PaddedDigits(f: string, g: string)
    requires AllDigits(f) && AllDigits(g)
    ensures AllDigits(f + g)
  {
  }

  lemma DivideScaled(w: nat, r: nat, p: nat)
    requires r < p
    ensures Div(w * p + r, p) == w && Mod(w * p + r, p) == r
  {
    var n := w * p + r;
    DivMod(n, p);
    var q := Div(n, p);
    if q < w {
      TimesMonotone(q + 1, w, p);
    } else if w < q {
      TimesMonotone(w + 1, q, p);
    }
  }

  lemma DivMod(n: nat, p: nat)
    requires p >= 1
    ensures n == Div(n, p) * p + Mod(n, p)
  {
  }

  lemma TimesMonotone(a: nat, b: nat, p: nat)
    requires a <= b
    ensures a * p <= b * p
  {
  }

  /** Different normal forms have different values. */
  lemma NormalFormsAreUnique(a: string, b: string)
    requires IsNormal(a) && IsNormal(b) && Value(a) == Value(b)
    ensures a == b
  {
    hide Counts, Scaled, Value, IsNormal, Render, Fraction, Power;
    NormalIsDecimal(a);
    NormalIsDecimal(b);
    var scale := Max(|Fraction(a)|, |Fraction(b)|);
    ScaledValue(a, scale);
    ScaledValue(b, scale);
    ScaledOrder(Value(a), Value(b), Power(scale), Scaled(a, scale), Scaled(b, scale));
    RenderScaled(a, scale);
    RenderScaled(b, scale);
  }

  lemma NormalIsDecimal(s: string)
    requires IsNormal(s)
    ensures IsDecimal(s)
  {
  }

  lemma NormalizeIsIdempotent(s: string)
    requires IsDecimal(s)
    ensures IsDecimal(Normalize(s)) && Normalize(Normalize(s)) == Normalize(s)
  {
    hide Normalize, Value;
    NormalizeMeaning(s);
    NormalizeMeaning(Normalize(s));
    NormalFormsAreUnique(Normalize(Normalize(s)), Normalize(s));
  }

  // ---------------------------------------------------------------- comparing

  /** compareDecimal is the order of the values, and answers 0 exactly if the normal forms are the same. */
  lemma CompareIsOrder(a: string, b: string)
    requires IsDecimal(a) && IsDecimal(b)
    ensures Compare(a, b) == if Value(a) < Value(b) then -1 else if Value(a) == Value(b) then 0 else 1
    ensures Compare(a, b) == 0 <==> Normalize(a) == Normalize(b)
  {
    hide Counts, Scaled, Value, IsNormal, Normalize, Fraction, Power;
    var x, y := Normalize(a), Normalize(b);
    NormalizeMeaning(a);
    NormalizeMeaning(b);
    NormalIsDecimal(x);
    NormalIsDecimal(y);
    var scale := Max(|Fraction(x)|, |Fraction(y)|);
    ScaledValue(x, scale);
    ScaledValue(y, scale);
    ScaledOrder(Value(a), Value(b), Power(scale), Scaled(x, scale), Scaled(y, scale));
    if Value(a) == Value(b) {
      NormalFormsAreUnique(x, y);
    }
  }

  // ---------------------------------------------------------------- subtracting

  lemma ToScaledIsScaled(s: string, scale: nat)
    requires |Fraction(s)| <= scale
    ensures ToScaled(s, scale) == Scaled(s, scale)
  {
    NumberZerosBehind(Fraction(s), scale - |Fraction(s)|);
  }

  /** The printed remainder: its digits, and what they are worth. */
  lemma RemainderMeaning(r: nat, scale: nat) returns (f: string)
    requires r < Power(scale)
    ensures f == DropTrailingZeros(PadStart(r, scale)) && AllDigits(f) && (f != "" ==> f[|f| - 1] != '0')
    ensures Counts(r, FractionValue(f), Power(scale))
  {
    hide Counts, Number, FractionValue, PadStart;
    f := DropTrailingZeros(PadStart(r, scale));
    if scale == 0 {
      PadNothing();
      NumberOfZero();
      FractionScaled("", 0);
    } else {
      PadStartMeaning(r, scale);
      DroppedBehind(PadStart(r, scale));
      DroppedBehindKeepsValue(PadStart(r, scale));
      FractionScaled(PadStart(r, scale), scale);
    }
  }

  /** Render prints the shortest form of n / 10**scale. */
  lemma RenderMeaning(n: nat, scale: nat)
    ensures IsNormal(Render(n, scale)) && Counts(n, Value(Render(n, scale)), Power(scale))
  {
    hide Counts, Number, FractionValue, PadStart, Print, Power, Div, Mod, Whole, Fraction, DropTrailingZeros;
    var q, r := Div(n, Power(scale)), Mod(n, Power(scale));
    DivMod(n, Power(scale));
    var f := RemainderMeaning(r, scale);
    PrintMeaning(q);
    PrintHasNoLeadingZero(q);
    JoinParts(Print(q), f);
    Distribute(q, FractionValue(f), Power(scale), r);
  }

  lemma PrintHasNoLeadingZero(n: nat)
    ensures Print(n) != "" && (Print(n)[0] == '0' ==> |Print(n)| == 1)
  {
    PrintMeaning(n);
  }

  /** subtractDecimal prints the shortest form of the exact difference. */
  lemma SubtractIsExact(a: string, b: string)
    requires IsDecimal(a) && IsDecimal(b)
    ensures Value(a) >= Value(b) ==>
              IsNormal(Subtract(a, b)) && Value(Subtract(a, b)) == Value(a) - Value(b)
    ensures Value(a) < Value(b) ==>
              && Subtract(a, b) != "" && Subtract(a, b)[0] == '-'
              && IsNormal(Subtract(a, b)[1..]) && Value(Subtract(a, b)[1..]) == Value(b) - Value(a)
  {
    hide Counts, Scaled, ToScaled, Value, IsNormal, Fraction, Power, Render;
    var scale := Max(|Fraction(a)|, |Fraction(b)|);
    ToScaledIsScaled(a, scale);
    ToScaledIsScaled(b, scale);
    ScaledValue(a, scale);
    ScaledValue(b, scale);
    var m, n := Scaled(a, scale), Scaled(b, scale);
    ScaledOrder(Value(a), Value(b), Power(scale), m, n);
    var d := if m >= n then m - n else n - m;
    var r := Render(d, scale);
    RenderMeaning(d, scale);
    if m >= n {
      SubtractScaled(Value(a), Value(b), Value(r), Power(scale), m, n);
    } else {
      assert Subtract(a, b)[1..] == r;
      SubtractScaled(Value(b), Value(a), Value(r), Power(scale), n, m);
    }
  }

  lemma SubtractScaled(x: real, y: real, z: real, p: nat, m: nat, n: nat)
    requires p >= 1 && n <= m
    requires Counts(m, x, p) && Counts(n, y, p) && Counts(m - n, z, p)
    ensures z == x - y
  {
    var r := p as real;
    assert (x - y) * r == x * r - y * r;
    assert (z - (x - y)) * r == 0.0;
  }
}
