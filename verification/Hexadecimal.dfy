/** Fixed-width lower-case hexadecimal, and the dashes of a canonical UUID. */
module Hexadecimal {
  import opened Texts

  predicate IsHex(c: char) {
    '0' <= c <= '9' || 'a' <= c <= 'f'
  }

  function HexChar(d: nat): (c: char)
    requires d < 16
    ensures IsHex(c)
  {
    if d < 10 then ('0' as int + d) as char else ('a' as int + (d - 10)) as char
  }

  function Pow16(k: nat): (p: nat)
    ensures p >= 1
  {
    if k == 0 then 1 else 16 * Pow16(k - 1)
  }

  /** f"{n:0{k}x}" */
  function Hex(n: nat, k: nat): (s: string)
    requires n < Pow16(k)
    ensures |s| == k && forall i :: 0 <= i < k ==> IsHex(s[i])
    decreases k
  {
    if k == 0 then "" else
      LeadingDigit(n, Pow16(k - 1));
      [HexChar(n / Pow16(k - 1))] + Hex(n % Pow16(k - 1), k - 1)
  }

  lemma LeadingDigit(n: nat, p: nat)
    requires p >= 1 && n < 16 * p
    ensures n / p < 16 && n % p < p && n == p * (n / p) + n % p
  {
    if n / p >= 16 {
      assert n == p * (n / p) + n % p;
      assert p * (n / p) >= p * 16 by {
        MultiplyLe(p, 16, n / p);
      }
    }
  }

  lemma MultiplyLe(p: nat, a: nat, b: nat)
    requires a <= b
    ensures p * a <= p * b
  {
  }

  lemma CompareByDigits(p: nat, a: nat, b: nat, r: nat, s: nat)
    requires r < p && s < p
    ensures p * a + r <= p * b + s <==> a < b || (a == b && r <= s)
  {
    if a < b {
      MultiplyLe(p, a + 1, b);
    } else if b < a {
      MultiplyLe(p, b + 1, a);
    }
  }

  lemma HexCharOrder(a: nat, b: nat)
    requires a < 16 && b < 16
    ensures HexChar(a) < HexChar(b) <==> a < b
    ensures HexChar(a) == HexChar(b) <==> a == b
  {
  }

  lemma HexHead(n: nat, k: nat) returns (d: nat, r: nat)
    requires n < Pow16(k) && k > 0
    ensures d < 16 && r < Pow16(k - 1) && n == Pow16(k - 1) * d + r
    ensures Hex(n, k)[0] == HexChar(d) && Hex(n, k)[1..] == Hex(r, k - 1)
  {
    LeadingDigit(n, Pow16(k - 1));
    d, r := n / Pow16(k - 1), n % Pow16(k - 1);
  }

  /** Of one width, hexadecimal texts are ordered as their numbers are. */
  lemma {:induction false} HexOrder(m: nat, n: nat, k: nat)
    requires m < Pow16(k) && n < Pow16(k)
    ensures LexLe(Hex(m, k), Hex(n, k)) <==> m <= n
    decreases k
  {
    if k == 0 {
      assert m == n == 0;
    } else {
      hide Hex, HexChar, Pow16;
      var a, r := HexHead(m, k);
      var b, s := HexHead(n, k);
      HexOrder(r, s, k - 1);
      HexCharOrder(a, b);
      CompareByDigits(Pow16(k - 1), a, b, r, s);
    }
  }

  function Digit(n: nat, j: nat): nat {
    n / Pow16(j) % 16
  }

  /** The digit i places from the left. */
  lemma {:induction false} HexAt(n: nat, k: nat, i: nat)
    requires n < Pow16(k) && i < k
    ensures Hex(n, k)[i] == HexChar(Digit(n, k - 1 - i))
    decreases k
  {
    hide Hex, HexChar, Pow16, Digit;
    var d, r := HexHead(n, k);
    if i == 0 {
      TopDigit(d, r, k - 1);
    } else {
      HexAt(r, k - 1, i - 1);
      DigitOfRemainder(d, r, k - 1, k - 1 - i);
      assert Hex(n, k)[i] == Hex(n, k)[1..][i - 1];
    }
  }

  lemma TopDigit(d: nat, r: nat, k: nat)
    requires d < 16 && r < Pow16(k)
    ensures Digit(Pow16(k) * d + r, k) == d
  {
    Quotient(Pow16(k) * d + r, Pow16(k), d, r);
  }

  lemma DigitOfRemainder(d: nat, r: nat, k: nat, j: nat)
    requires j < k
    ensures Digit(Pow16(k) * d + r, j) == Digit(r, j)
  {
    var p, q := Pow16(j), Pow16(k - j - 1);
    assert Pow16(k) * d == p * (16 * (q * d)) by {
      Pow16Splits(k - j - 1, j);
      Regroup(p, q, d);
    }
    hide Pow16;
    AddMultiple(r, p, 16 * (q * d));
    AddMultiple(r / p, 16, q * d);
  }

  lemma Regroup(p: nat, q: nat, c: nat)
    ensures 16 * q * p * c == p * (16 * (q * c))
  {
  }

  lemma AddMultiple(r: nat, p: nat, c: nat)
    requires p >= 1
    ensures (p * c + r) / p == c + r / p && (p * c + r) % p == r % p
  {
    var a, b := r / p, r % p;
    assert p * c + r == p * (c + a) + b;
    Quotient(p * c + r, p, c + a, b);
  }

  lemma SameDigits(p: nat, a: nat, b: nat, r: nat, s: nat)
    requires r < p && s < p && p * a + r == p * b + s
    ensures a == b && r == s
  {
    CompareByDigits(p, a, b, r, s);
    CompareByDigits(p, b, a, s, r);
  }

  lemma Quotient(n: nat, p: nat, a: nat, b: nat)
    requires p >= 1 && n == p * a + b && b < p
    ensures n / p == a && n % p == b
  {
    assert n == p * (n / p) + n % p;
    SameDigits(p, n / p, a, n % p, b);
  }

  lemma {:induction false} Pow16Splits(i: nat, j: nat)
    ensures Pow16(i + j + 1) == 16 * Pow16(i) * Pow16(j)
  {
    if i > 0 {
      Pow16Splits(i - 1, j);
    }
  }

  // ---------------------------------------------------------------- dashes

  function DashAt(s: string, i: nat): string
    requires i <= |s|
  {
    s[..i] + "-" + s[i..]
  }

  /** str(UUID(int=n)): groups of 8, 4, 4, 4 and 12 digits. */
  function Canonical(digits: string): string
    requires |digits| == 32
  {
    DashAt(DashAt(DashAt(DashAt(digits, 20), 16), 12), 8)
  }

  lemma {:induction false} DashKeepsOrder(x: string, y: string, i: nat)
    requires |x| == |y| && i <= |x|
    ensures LexLe(DashAt(x, i), DashAt(y, i)) <==> LexLe(x, y)
    decreases i
  {
    if i == 0 {
      assert DashAt(x, 0)[1..] == x && DashAt(y, 0)[1..] == y;
    } else {
      assert DashAt(x, i)[1..] == DashAt(x[1..], i - 1) && DashAt(y, i)[1..] == DashAt(y[1..], i - 1);
      DashKeepsOrder(x[1..], y[1..], i - 1);
    }
  }

  lemma CanonicalKeepsOrder(x: string, y: string)
    requires |x| == |y| == 32
    ensures LexLe(Canonical(x), Canonical(y)) <==> LexLe(x, y)
  {
    DashKeepsOrder(x, y, 20);
    DashKeepsOrder(DashAt(x, 20), DashAt(y, 20), 16);
    DashKeepsOrder(DashAt(DashAt(x, 20), 16), DashAt(DashAt(y, 20), 16), 12);
    DashKeepsOrder(DashAt(DashAt(DashAt(x, 20), 16), 12), DashAt(DashAt(DashAt(y, 20), 16), 12), 8);
  }
}
