/**
 uuid7_string: version 7 UUIDs as section 5.7 of RFC 9562 lays them out, each larger than the one before
 (section 6.2).  Clock readings and random draws are parameters.
 */
module Identifiers {
  import opened Texts
  import opened Bits
  import opened Hexadecimal

  const P48: nat := 0x1_0000_0000_0000
  const P62: nat := 0x4000_0000_0000_0000
  const P64: nat := 0x1_0000_0000_0000_0000
  const P74: nat := 0x400_0000_0000_0000_0000
  const P76: nat := 0x1000_0000_0000_0000_0000
  const P80: nat := 0x1_0000_0000_0000_0000_0000
  const P128: nat := 0x1_0000_0000_0000_0000_0000_0000_0000_0000

  /** The module's _last_millisecond and _last_random. */
  datatype State = State(millisecond: int, random: nat)

  const START: State := State(-1, 0)

  predicate Valid(g: State) {
    -1 <= g.millisecond && g.random < P74
  }

  /** A clock that has not moved on costs one step of the random field, and its carry one millisecond. */
  function Advance(g: State, clock: int, random: nat): State {
    if clock > g.millisecond then State(clock, random)
    else
      var next := (g.random + 1) % P74;
      State(if next == 0 then g.millisecond + 1 else g.millisecond, next)
  }

  /** The timestamp field: millisecond & (2**48 - 1), which is the remainder for negative readings too. */
  function Stamp(g: State): nat {
    g.millisecond % P48
  }

  /** random_bits >> 62 */
  function RandomA(g: State): nat {
    g.random / P62
  }

  /** random_bits & (2**62 - 1) */
  function RandomB(g: State): nat {
    g.random % P62
  }

  function Assemble(stamp: nat, a: nat, b: nat): nat {
    Or(Or(Or(Or(ShiftLeft(stamp, 80), ShiftLeft(7, 76)), ShiftLeft(a, 64)), ShiftLeft(2, 62)), b)
  }

  /** The 128 bits. */
  function Value(g: State): nat {
    Assemble(Stamp(g), RandomA(g), RandomB(g))
  }

  function Text(g: State): string
    requires Valid(g)
  {
    ValueLayout(g);
    HexRange();
    Canonical(Hex(Value(g), 32))
  }

  // ---------------------------------------------------------------- layout

  lemma Powers()
    ensures Pow2(62) == P62 && Pow2(64) == P64 && Pow2(76) == P76 && Pow2(80) == P80
  {
    assert Pow2(12) == 0x1000;
    assert Pow2(14) == 4 * Pow2(12);
    assert Pow2(16) == 4 * Pow2(14);
    hide Pow2;
    PowerOf(16, 0x1_0000, 16, 0x1_0000);
    PowerOf(32, 0x1_0000_0000, 14, 0x4000);
    PowerOf(32, 0x1_0000_0000, 16, 0x1_0000);
    PowerOf(48, 0x1_0000_0000_0000, 14, 0x4000);
    PowerOf(48, 0x1_0000_0000_0000, 16, 0x1_0000);
    PowerOf(64, P64, 12, 0x1000);
    PowerOf(64, P64, 16, 0x1_0000);
  }

  lemma PowerOf(j: nat, p: nat, k: nat, q: nat)
    requires Pow2(j) == p && Pow2(k) == q
    ensures Pow2(j + k) == p * q
  {
    Pow2Adds(j, k);
  }

  lemma HexPowerOf(j: nat, p: nat, k: nat, q: nat)
    requires Pow16(j) == p && Pow16(k) == q
    ensures Pow16(j + k + 1) == 16 * p * q
  {
    Pow16Splits(j, k);
  }

  lemma HexRange()
    ensures Pow16(32) == P128 && Pow16(19) == P76 && Pow16(15) == 0x1000_0000_0000_0000
  {
    assert Pow16(0) == 1;
    assert Pow16(3) == 0x1000;
    hide Pow16;
    HexPowerOf(3, 0x1000, 3, 0x1000);
    HexPowerOf(7, 0x1000_0000, 7, 0x1000_0000);
    HexPowerOf(15, 0x1000_0000_0000_0000, 3, 0x1000);
    HexPowerOf(15, 0x1000_0000_0000_0000, 15, 0x1000_0000_0000_0000);
    HexPowerOf(31, 0x1000_0000_0000_0000 * 0x1_0000_0000_0000_0000, 0, 1);
  }

  lemma Shift(n: nat, k: nat, p: nat)
    requires Pow2(k) == p
    ensures ShiftLeft(n, k) == n * p
  {
  }

  lemma OrShifted(a: nat, k: nat, p: nat, b: nat, joined: nat)
    requires Pow2(k) == p && b < p && joined == a * p + b
    ensures Or(a * p, b) == joined
  {
    OrDisjoint(a, k, b);
  }

  function Sum(stamp: nat, a: nat, b: nat): nat {
    stamp * P80 + 7 * P76 + a * P64 + 2 * P62 + b
  }

  /** The or-ed parts do not overlap: the value is their sum. */
  lemma AssembleIsSum(stamp: nat, a: nat, b: nat)
    requires a < 0x1000 && b < P62
    ensures Assemble(stamp, a, b) == Sum(stamp, a, b)
  {
    hide Or, Pow2, ShiftLeft;
    Powers();
    Shift(stamp, 80, P80);
    Shift(7, 76, P76);
    Shift(a, 64, P64);
    Shift(2, 62, P62);
    OrShifted(stamp, 80, P80, 7 * P76, (16 * stamp + 7) * P76);
    OrShifted(16 * stamp + 7, 76, P76, a * P64, (0x1_0000 * stamp + 0x7000 + a) * P64);
    OrShifted(0x1_0000 * stamp + 0x7000 + a, 64, P64, 2 * P62, (4 * (0x1_0000 * stamp + 0x7000 + a) + 2) * P62);
    OrShifted(4 * (0x1_0000 * stamp + 0x7000 + a) + 2, 62, P62, b, Sum(stamp, a, b));
  }

  /** Every field can be read back. */
  lemma FieldsOfSum(stamp: nat, a: nat, b: nat)
    requires stamp < P48 && a < 0x1000 && b < P62
    ensures Sum(stamp, a, b) < P128
    ensures Sum(stamp, a, b) / P80 == stamp
    ensures Sum(stamp, a, b) / P76 % 16 == 7
    ensures Sum(stamp, a, b) / 0x1000_0000_0000_0000 % 16 in {8, 9, 10, 11}
  {
    var c, r := b / 0x1000_0000_0000_0000, b % 0x1000_0000_0000_0000;
    Quotient(Sum(stamp, a, b), P80, stamp, 7 * P76 + a * P64 + 2 * P62 + b);
    Quotient(Sum(stamp, a, b), P76, 16 * stamp + 7, a * P64 + 2 * P62 + b);
    Quotient(16 * stamp + 7, 16, stamp, 7);
    var high := 0x1000 * (16 * stamp + 7) + a;
    Quotient(Sum(stamp, a, b), 0x1000_0000_0000_0000, 16 * high + (8 + c), r);
    Quotient(16 * high + (8 + c), 16, high, 8 + c);
  }

  lemma FieldRanges(g: State)
    requires Valid(g)
    ensures Stamp(g) < P48 && RandomA(g) < 0x1000 && RandomB(g) < P62 && g.random == RandomA(g) * P62 + RandomB(g)
  {
  }

  lemma ValueLayout(g: State)
    requires Valid(g)
    ensures Value(g) == Sum(Stamp(g), RandomA(g), RandomB(g)) && Value(g) < P128
    ensures Value(g) / P80 == Stamp(g) && Value(g) / P76 % 16 == 7
    ensures Value(g) / 0x1000_0000_0000_0000 % 16 in {8, 9, 10, 11}
  {
    hide Assemble, Sum, Stamp, RandomA, RandomB;
    FieldRanges(g);
    AssembleIsSum(Stamp(g), RandomA(g), RandomB(g));
    FieldsOfSum(Stamp(g), RandomA(g), RandomB(g));
  }

  /**
   The names file_service.py recognises as its own:
   [0-9a-f]{8}-[0-9a-f]{4}-7[0-9a-f]{3}-[89ab][0-9a-f]{3}-[0-9a-f]{12}.
   */
  predicate IsManagedName(s: string) {
    && |s| == 36
    && (forall i :: 0 <= i < 36 ==> if i in {8, 13, 18, 23} then s[i] == '-' else IsHex(s[i]))
    && s[14] == '7' && s[19] in {'8', '9', 'a', 'b'}
  }

  lemma VersionAndVariant(n: nat)
    requires n / P76 % 16 == 7 && n / 0x1000_0000_0000_0000 % 16 in {8, 9, 10, 11}
    ensures Digit(n, 19) == 7 && Digit(n, 15) in {8, 9, 10, 11}
    ensures HexChar(Digit(n, 19)) == '7' && HexChar(Digit(n, 15)) in {'8', '9', 'a', 'b'}
  {
    HexRange();
    hide Pow16;
  }

  lemma ManagedDigits(n: nat)
    requires n < Pow16(32) && HexChar(Digit(n, 19)) == '7' && HexChar(Digit(n, 15)) in {'8', '9', 'a', 'b'}
    ensures IsManagedName(Canonical(Hex(n, 32)))
  {
    hide Hex, Pow16, Canonical, IsHex, Digit;
    HexAt(n, 32, 12);
    HexAt(n, 32, 16);
    CanonicalShape(Hex(n, 32));
  }

  lemma TextIsManagedName(g: State)
    requires Valid(g)
    ensures IsManagedName(Text(g))
  {
    hide Value, Hex, Pow16, Canonical, IsManagedName, HexChar, Digit;
    ValueLayout(g);
    HexRange();
    VersionAndVariant(Value(g));
    ManagedDigits(Value(g));
  }

  lemma DashedAt(s: string, i: nat, j: nat)
    requires i <= |s| && j <= |s|
    ensures DashAt(s, i)[j] == if j < i then s[j] else if j == i then '-' else s[j - 1]
  {
  }

  lemma CanonicalAt(digits: string, j: nat)
    requires |digits| == 32 && j < 36
    ensures |Canonical(digits)| == 36
    ensures Canonical(digits)[j] == if j in {8, 13, 18, 23} then '-'
              else digits[if j < 8 then j else if j < 13 then j - 1 else if j < 18 then j - 2
                          else if j < 23 then j - 3 else j - 4]
  {
    var d20 := DashAt(digits, 20);
    var d16 := DashAt(d20, 16);
    var d12 := DashAt(d16, 12);
    assert Canonical(digits) == DashAt(d12, 8) && |d20| == 33 && |d16| == 34 && |d12| == 35;
    hide DashAt, Canonical;
    DashedAt(d12, 8, j);
    var i := if j <= 8 then j else j - 1;
    DashedAt(d16, 12, if i <= 34 then i else 34);
    var k := if i <= 12 then i else i - 1;
    DashedAt(d20, 16, if k <= 33 then k else 33);
    var l := if k <= 16 then k else k - 1;
    DashedAt(digits, 20, if l <= 32 then l else 32);
  }

  lemma CanonicalShape(digits: string)
    requires |digits| == 32 && forall i :: 0 <= i < 32 ==> IsHex(digits[i])
    ensures var s := Canonical(digits);
            && |s| == 36 && s[14] == digits[12] && s[19] == digits[16]
            && forall i :: 0 <= i < 36 ==> if i in {8, 13, 18, 23} then s[i] == '-' else IsHex(s[i])
  {
    hide Canonical, IsHex;
    CanonicalAt(digits, 14);
    CanonicalAt(digits, 19);
    forall i | 0 <= i < 36
      ensures if i in {8, 13, 18, 23} then Canonical(digits)[i] == '-' else IsHex(Canonical(digits)[i])
    {
      CanonicalAt(digits, i);
    }
  }

  // ---------------------------------------------------------------- order

  /** Millisecond and random field as one number. */
  function Key(millisecond: int, random: nat): int {
    millisecond * P74 + random
  }

  lemma AdvanceIncreases(g: State, clock: int, random: nat)
    requires Valid(g) && random < P74
    ensures Valid(Advance(g, clock, random))
    ensures Key(g.millisecond, g.random) < Key(Advance(g, clock, random).millisecond, Advance(g, clock, random).random)
    ensures g.millisecond <= Advance(g, clock, random).millisecond
  {
  }

  lemma ValuesCompare(g: State, h: State)
    requires Valid(g) && Valid(h)
    ensures Value(g) < Value(h) <==> Key(Stamp(g), g.random) < Key(Stamp(h), h.random)
  {
    hide Stamp, RandomA, RandomB, Value;
    ValueLayout(g);
    ValueLayout(h);
    FieldRanges(g);
    FieldRanges(h);
    SumsCompare(Stamp(g), RandomA(g), RandomB(g), Stamp(h), RandomA(h), RandomB(h));
  }

  lemma SumsCompare(s: nat, a: nat, b: nat, t: nat, c: nat, d: nat)
    requires a < 0x1000 && b < P62 && c < 0x1000 && d < P62
    ensures Sum(s, a, b) < Sum(t, c, d) <==> Key(s, a * P62 + b) < Key(t, c * P62 + d)
  {
    if s == t {
      if a == c {
      }
    } else if s < t {
    }
  }

  lemma TextsCompare(g: State, h: State)
    requires Valid(g) && Valid(h)
    ensures LexLe(Text(g), Text(h)) <==> Value(g) <= Value(h)
  {
    hide Value, Hex, Pow16, Canonical;
    ValueLayout(g);
    ValueLayout(h);
    HexRange();
    HexOrder(Value(g), Value(h), 32);
    CanonicalKeepsOrder(Hex(Value(g), 32), Hex(Value(h), 32));
  }

  datatype Reading = Reading(clock: int, random: nat)

  predicate ValidReadings(readings: seq<Reading>) {
    forall i :: 0 <= i < |readings| ==> readings[i].random < P74
  }

  function After(g: State, readings: seq<Reading>): State
    decreases |readings|
  {
    if readings == [] then g else After(Advance(g, readings[0].clock, readings[0].random), readings[1..])
  }

  lemma {:induction false} RunIncreases(g: State, readings: seq<Reading>)
    requires Valid(g) && ValidReadings(readings)
    ensures Valid(After(g, readings)) && g.millisecond <= After(g, readings).millisecond
    ensures readings != [] ==>
              Key(g.millisecond, g.random) < Key(After(g, readings).millisecond, After(g, readings).random)
    decreases |readings|
  {
    if readings != [] {
      var next := Advance(g, readings[0].clock, readings[0].random);
      AdvanceIncreases(g, readings[0].clock, readings[0].random);
      RunIncreases(next, readings[1..]);
    }
  }

  /**
   Whatever the clock does (stalls, goes back, jumps) and whatever is drawn, a later identifier is larger
   than an earlier one, as a number and as a text, while the millisecond has not outgrown its 48 bits.
   */
  lemma LaterIsLarger(g: State, readings: seq<Reading>)
    requires Valid(g) && 0 <= g.millisecond && ValidReadings(readings) && readings != []
    requires After(g, readings).millisecond < P48
    ensures Valid(After(g, readings)) && Value(g) < Value(After(g, readings))
    ensures LexLe(Text(g), Text(After(g, readings))) && Text(g) != Text(After(g, readings))
  {
    hide Value, Text, LexLe, After;
    var h := After(g, readings);
    RunIncreases(g, readings);
    ValuesCompare(g, h);
    TextsCompare(g, h);
    TextsCompare(h, g);
    LexTotal(Text(g), Text(h));
  }

  /**
   One step, without the bound: a clock that has not moved on gives a larger identifier except in the very
   last state of the 48 bits; one that has does if its reading, cut to 48 bits, and the draw are larger.
   */
  lemma NextIsLargerIff(g: State, clock: int, random: nat)
    requires Valid(g) && 0 <= g.millisecond < P48 && random < P74
    ensures Valid(Advance(g, clock, random))
    ensures Value(g) < Value(Advance(g, clock, random))
            <==> if clock <= g.millisecond then g != State(P48 - 1, P74 - 1)
                 else Key(g.millisecond, g.random) < Key(clock % P48, random)
  {
    hide Value;
    AdvanceIncreases(g, clock, random);
    ValuesCompare(g, Advance(g, clock, random));
  }

  /** In the last millisecond of the 48 bits the order breaks: the next identifier wraps around to a smaller one. */
  lemma OrderBreaksAt48Bits(clock: int, random: nat)
    requires clock < P48 && random < P74
    ensures var g := State(P48 - 1, P74 - 1);
            var h := Advance(g, clock, random);
            Valid(g) && Valid(h) && Value(h) < Value(g)
  {
    var g := State(P48 - 1, P74 - 1);
    var h := Advance(g, clock, random);
    assert h == State(P48, 0);
    ValuesCompare(h, g);
  }

  class Generator {
    var lastMillisecond: int
    var lastRandom: nat

    function Current(): State
      reads this
    {
      State(lastMillisecond, lastRandom)
    }

    constructor ()
      ensures Current() == START && Valid(Current())
    {
      lastMillisecond, lastRandom := -1, 0;
    }

    method Uuid7(clock: int, random: nat) returns (text: string)
      requires Valid(Current()) && random < P74
      modifies this
      ensures Current() == Advance(old(Current()), clock, random) && Valid(Current())
      ensures text == Text(Current())
      ensures old(lastMillisecond) >= 0 && lastMillisecond < P48 ==>
                LexLe(Text(old(Current())), text) && Text(old(Current())) != text
    {
      hide Text, LexLe, Value;
      AdvanceIncreases(Current(), clock, random);
      ghost var before := Current();
      var millisecond, bits := clock, random;
      if clock <= lastMillisecond {
        millisecond := lastMillisecond;
        bits := (lastRandom + 1) % P74;
        if bits == 0 {
          millisecond := millisecond + 1;
        }
      }
      lastMillisecond := millisecond;
      lastRandom := bits;
      text := Text(Current());
      if before.millisecond >= 0 && lastMillisecond < P48 {
        assert After(before, [Reading(clock, random)]) == Current();
        LaterIsLarger(before, [Reading(clock, random)]);
      }
    }
  }
}
