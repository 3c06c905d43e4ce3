/**
 Plan numbers.  The number after the lexicographically last one is new, because the suffixes are
 zero-padded and the lexicographic order of padded suffixes is the numeric one.
 */
module PlanNumbers {
  import opened Options
  import opened Texts

  predicate IsDate(s: string) {
    |s| == 8 && AllDigits(s)
  }

  /** A calendar date, written as the plan numbers write it (%Y%m%d). */
  type Date = s: string | IsDate(s) witness "20240101"

  function Prefix(date: Date): (p: string)
    ensures |p| == 14
  {
    "PLAN-" + date + "-"
  }

  function PlanNo(date: Date, index: nat): string
    requires index <= 999
  {
    Prefix(date) + Pad3(index)
  }

  /** PLAN-yyyymmdd-nnn with nnn from 001 to 999. */
  predicate IsPlanNo(s: string) {
    && |s| == 17
    && IsDate(s[5..13]) && AllDigits(s[14..])
    && s == Prefix(s[5..13]) + s[14..]
    && 1 <= Number(s[14..])
  }

  predicate StartsWith(s: string, prefix: string) {
    |prefix| <= |s| && s[..|prefix|] == prefix
  }

  /** s.rsplit("-", 1)[-1] */
  function AfterLastDash(s: string): string {
    if s == "" || s[|s| - 1] == '-' then "" else AfterLastDash(s[..|s| - 1]) + [s[|s| - 1]]
  }

  function Later(a: Option<string>, b: Option<string>): Option<string> {
    if a.None? then b else if b.None? then a else if LexLe(b.value, a.value) then a else b
  }

  function NumberAfter(previous: Option<string>, date: Date): Option<string> {
    var index := if previous.Some? then Number(AfterLastDash(previous.value)) + 1 else 1;
    if index > 999 then None else Some(Prefix(date) + Pad3(index))
  }

  // ---------------------------------------------------------------- what the numbers mean

  /** The running index of a plan number. */
  function Index(planNo: string): nat
    requires |planNo| == 17
  {
    Number(planNo[14..])
  }

  lemma SuffixAfterLastDash(x: string)
    requires IsPlanNo(x)
    ensures AfterLastDash(x) == x[14..]
  {
    assert x[13] == '-';
    assert x[14] == x[14..][0] && x[15] == x[14..][1] && x[16] == x[14..][2];
    var a, b, c := x[..16], x[..15], x[..14];
    assert a[..15] == b && b[..14] == c && c[13] == '-';
    assert AfterLastDash(c) == "";
    assert AfterLastDash(b) == [x[14]];
    assert AfterLastDash(a) == [x[14]] + [x[15]];
    assert x[14..] == [x[14]] + [x[15]] + [x[16]];
  }

  lemma SplitPlanNo(x: string, date: Date)
    requires IsPlanNo(x) && StartsWith(x, Prefix(date))
    ensures x == Prefix(date) + x[14..] && 1 <= Index(x) <= 999 && x == PlanNo(date, Index(x))
  {
    NumberPad3(x[14..]);
  }

  lemma PlanNoParts(date: Date, index: nat)
    requires 1 <= index <= 999
    ensures IsPlanNo(PlanNo(date, index)) && StartsWith(PlanNo(date, index), Prefix(date))
    ensures Index(PlanNo(date, index)) == index
  {
    var x := PlanNo(date, index);
    Pad3Number(index);
    assert x[5..13] == date;
    assert x[14..] == Pad3(index);
  }

  /** Numbers of one date compare as texts the way their indices compare. */
  lemma PlanNosCompare(x: string, y: string, date: Date)
    requires IsPlanNo(x) && IsPlanNo(y) && StartsWith(x, Prefix(date)) && StartsWith(y, Prefix(date))
    ensures LexLe(x, y) <==> Index(x) <= Index(y)
  {
    SplitPlanNo(x, date);
    SplitPlanNo(y, date);
    LexPrefix(Prefix(date), x[14..], y[14..]);
    LexIsNumeric(x[14..], y[14..]);
  }

  /** The later of the two tables' maxima is the maximum of both. */
  lemma LaterIsGreatest(a: set<string>, b: set<string>)
    ensures var r := Later(MaxText(a), MaxText(b));
            && (r.None? <==> a + b == {})
            && (r.Some? ==> r.value in a + b && forall y :: y in a + b ==> LexLe(y, r.value))
  {
    var x, y := MaxText(a), MaxText(b);
    if x.Some? && y.Some? {
      LexTotal(x.value, y.value);
      forall z | z in a + b ensures LexLe(z, Later(x, y).value) {
        if z in a && Later(x, y) == y {
          LexTransitive(z, x.value, y.value);
        } else if z in b && Later(x, y) == x {
          LexTransitive(z, y.value, x.value);
        }
      }
    }
  }

  predicate NumbersOf(numbers: set<string>, date: Date) {
    forall y :: y in numbers ==> IsPlanNo(y) && StartsWith(y, Prefix(date))
  }

  /** The number after the highest of a set of numbers of one date. */
  lemma NumberAfterHighest(numbers: set<string>, last: string, date: Date)
    requires NumbersOf(numbers, date) && last in numbers
    requires forall y :: y in numbers ==> LexLe(y, last)
    ensures 1 <= Index(last) <= 999 && last == PlanNo(date, Index(last))
    ensures forall y :: y in numbers ==> Index(y) <= Index(last)
    ensures NumberAfter(Some(last), date)
            == if Index(last) == 999 then None else Some(PlanNo(date, Index(last) + 1))
  {
    SuffixAfterLastDash(last);
    SplitPlanNo(last, date);
    forall y | y in numbers ensures Index(y) <= Index(last) {
      PlanNosCompare(y, last, date);
    }
  }

  /** What it means for x to be the number given out next to the given ones. */
  ghost predicate IsNextNumber(numbers: set<string>, date: Date, x: string) {
    && IsPlanNo(x) && StartsWith(x, Prefix(date)) && 1 <= Index(x) <= 999
    && x !in numbers
    && (Index(x) == 1 || PlanNo(date, Index(x) - 1) in numbers)
    && forall y :: y in numbers ==> |y| == 17 && Index(y) < Index(x)
  }

  lemma NumberAfterIsNext(numbers: set<string>, previous: Option<string>, date: Date)
    requires NumbersOf(numbers, date)
    requires previous.None? <==> numbers == {}
    requires previous.Some? ==> previous.value in numbers && forall y :: y in numbers ==> LexLe(y, previous.value)
    ensures NumberAfter(previous, date).None? <==> PlanNo(date, 999) in numbers
    ensures NumberAfter(previous, date).Some? ==> IsNextNumber(numbers, date, NumberAfter(previous, date).value)
  {
    PlanNoParts(date, 999);
    if previous.None? {
      PlanNoParts(date, 1);
    } else {
      NumberAfterHighest(numbers, previous.value, date);
      if Index(previous.value) < 999 {
        PlanNoParts(date, Index(previous.value) + 1);
      }
    }
  }
}
