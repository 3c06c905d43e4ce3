/** Strings as the program uses them: lexicographic order, decimal digits, surrounding blanks. */
module Texts {
  import opened Options

  predicate IsDigit(c: char) {
    '0' <= c <= '9'
  }

  predicate AllDigits(s: string) {
    forall i :: 0 <= i < |s| ==> IsDigit(s[i])
  }

  function DigitValue(c: char): (d: nat)
    ensures IsDigit(c) ==> d <= 9
  {
    if IsDigit(c) then (c as int) - ('0' as int) else 0
  }

  function DigitChar(d: nat): (c: char)
    requires d <= 9
    ensures IsDigit(c) && DigitValue(c) == d
  {
    ('0' as int + d) as char
  }

  /** int(s), and BigInt(s) in the frontend: the empty string counts as zero. */
  function Number(s: string): nat {
    if s == "" then 0 else 10 * Number(s[..|s| - 1]) + DigitValue(s[|s| - 1])
  }

  // ---------------------------------------------------------------- lexicographic order

  predicate LexLe(a: string, b: string) {
    a == "" || (b != "" && (a[0] < b[0] || (a[0] == b[0] && LexLe(a[1..], b[1..]))))
  }

  lemma {:induction false} LexTotal(a: string, b: string)
    ensures LexLe(a, b) || LexLe(b, a)
    ensures LexLe(a, a)
    ensures LexLe(a, b) && LexLe(b, a) ==> a == b
  {
    if a != "" {
      LexTotal(a[1..], if b == "" then a[1..] else b[1..]);
      if b != "" {
        assert a == [a[0]] + a[1..] && b == [b[0]] + b[1..];
      }
    }
  }

  lemma {:induction false} LexTransitive(a: string, b: string, c: string)
    requires LexLe(a, b) && LexLe(b, c)
    ensures LexLe(a, c)
  {
    if a != "" && a[0] == b[0] && b[0] == c[0] {
      LexTransitive(a[1..], b[1..], c[1..]);
    }
  }

  /** A common prefix does not matter. */
  lemma {:induction false} LexPrefix(p: string, a: string, b: string)
    ensures LexLe(p + a, p + b) <==> LexLe(a, b)
  {
    if p == "" {
      assert p + a == a && p + b == b;
    } else {
      assert (p + a)[1..] == p[1..] + a && (p + b)[1..] == p[1..] + b;
      LexPrefix(p[1..], a, b);
    }
  }

  lemma {:induction false} GreatestExists(texts: set<string>)
    requires texts != {}
    ensures exists x :: x in texts && forall y :: y in texts ==> LexLe(y, x)
    decreases |texts|
  {
    var x :| x in texts;
    LexTotal(x, x);
    if texts == {x} {
      assert forall y :: y in texts ==> LexLe(y, x);
    } else {
      assert texts == (texts - {x}) + {x};
      GreatestExists(texts - {x});
      var z :| z in texts - {x} && forall y :: y in texts - {x} ==> LexLe(y, z);
      LexTotal(x, z);
      if LexLe(x, z) {
        assert forall y :: y in texts ==> LexLe(y, z);
      } else {
        forall y | y in texts ensures LexLe(y, x) {
          if y != x {
            LexTransitive(y, z, x);
          }
        }
      }
    }
  }

  /** SQL's MAX over a column of texts: the lexicographically last one, or NULL. */
  function MaxText(texts: set<string>): (r: Option<string>)
    ensures r.None? <==> texts == {}
    ensures r.Some? ==> r.value in texts && forall y :: y in texts ==> LexLe(y, r.value)
  {
    if texts == {} then None else
      GreatestExists(texts);
      assert forall x, z :: LexLe(x, z) && LexLe(z, x) ==> x == z by {
        forall x, z | LexLe(x, z) && LexLe(z, x) ensures x == z {
          LexTotal(x, z);
        }
      }
      var x :| x in texts && forall y :: y in texts ==> LexLe(y, x);
      Some(x)
  }

  // ---------------------------------------------------------------- three-digit suffixes

  /** f"{n:03d}" */
  function Pad3(n: nat): (s: string)
    requires n <= 999
    ensures |s| == 3 && AllDigits(s)
  {
    [DigitChar(n / 100), DigitChar(n / 10 % 10), DigitChar(n % 10)]
  }

  lemma Number3(s: string)
    requires |s| == 3
    ensures Number(s) == 100 * DigitValue(s[0]) + 10 * DigitValue(s[1]) + DigitValue(s[2])
  {
    assert s[..2][..1] == [s[0]] && s[..2][..1][..0] == "";
    assert Number(s[..2][..1]) == DigitValue(s[0]);
    assert Number(s[..2]) == 10 * DigitValue(s[0]) + DigitValue(s[1]);
  }

  lemma Pad3Number(n: nat)
    requires n <= 999
    ensures Number(Pad3(n)) == n
  {
    Number3(Pad3(n));
  }

  lemma NumberPad3(s: string)
    requires |s| == 3 && AllDigits(s)
    ensures Number(s) <= 999 && Pad3(Number(s)) == s
  {
    Number3(s);
    DigitsOf(DigitValue(s[0]), DigitValue(s[1]), DigitValue(s[2]));
  }

  lemma DigitsOf(a: nat, b: nat, c: nat)
    requires a <= 9 && b <= 9 && c <= 9
    ensures var n := 100 * a + 10 * b + c; n / 100 == a && n / 10 % 10 == b && n % 10 == c
  {
    assert (100 * a + 10 * b + c) / 10 == 10 * a + b;
  }

  /** On zero-padded suffixes the lexicographic order is the numeric one. */
  lemma LexIsNumeric(a: string, b: string)
    requires |a| == |b| == 3 && AllDigits(a) && AllDigits(b)
    ensures LexLe(a, b) <==> Number(a) <= Number(b)
  {
    Number3(a);
    Number3(b);
    assert a[1..][1..][1..] == "" && a[1..][0] == a[1] && a[1..][1..][0] == a[2];
    assert b[1..][1..][1..] == "" && b[1..][0] == b[1] && b[1..][1..][0] == b[2];
    assert LexLe(a[1..][1..], b[1..][1..]) <==> DigitValue(a[2]) <= DigitValue(b[2]);
  }

  // ---------------------------------------------------------------- blanks

  /** The ASCII characters str.strip() removes. */
  predicate IsSpace(c: char) {
    c == ' ' || ('\t' <= c <= '\r') || ((28 as char) <= c <= (31 as char))
  }

  function DropLeading(s: string, blank: char -> bool): string {
    if s != "" && blank(s[0]) then DropLeading(s[1..], blank) else s
  }

  function DropTrailing(s: string, blank: char -> bool): string {
    if s != "" && blank(s[|s| - 1]) then DropTrailing(s[..|s| - 1], blank) else s
  }

  /** Python's s.strip() */
  function Strip(s: string): string {
    DropTrailing(DropLeading(s, IsSpace), IsSpace)
  }

  /** SQL's TRIM(s), which removes spaces only. */
  function Trim(s: string): string {
    DropTrailing(DropLeading(s, c => c == ' '), c => c == ' ')
  }
}
