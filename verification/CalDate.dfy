// Whole-day calendar arithmetic on `YYYY-MM-DD` texts (indexer/src/caldate.rs).
// The program counts days with closed formulas over 400-year eras; here they
// are proved equal to counting year by year and month by month.
module CalDate {
  import opened Base

  datatype Civil = Civil(year: int, month: int, day: int)

  predicate Leap(year: int) {
    (year % 4 == 0 && year % 100 != 0) || year % 400 == 0
  }

  function DaysInMonth(year: int, month: int): (n: int) {
    match month
    case 1 | 3 | 5 | 7 | 8 | 10 | 12 => 31
    case 4 | 6 | 9 | 11 => 30
    case _ => if Leap(year) then 29 else 28
  }

  predicate RealDate(c: Civil) {
    1 <= c.month <= 12 && 1 <= c.day <= DaysInMonth(c.year, c.month)
  }

  /** The program's closed formula: days since 1970-01-01. */
  function DaysFromCivil(c: Civil): (n: int) {
    var y := if c.month <= 2 then c.year - 1 else c.year;
    var era := y / 400;
    var yearOfEra := y - era * 400;
    var monthFromMarch := if c.month > 2 then c.month - 3 else c.month + 9;
    var dayOfYear := (153 * monthFromMarch + 2) / 5 + c.day - 1;
    var dayOfEra := yearOfEra * 365 + yearOfEra / 4 - yearOfEra / 100 + dayOfYear;
    era * 146_097 + dayOfEra - 719_468
  }

  /** The program's inverse formula, in its three steps. */
  function CivilFromDays(n: int): (c: Civil) {
    var z := n + 719_468;
    var era := z / 146_097;
    var dayOfEra := z - era * 146_097;
    CivilInEra(era, YearOfEra(dayOfEra), dayOfEra)
  }

  function YearOfEra(dayOfEra: int): int {
    (dayOfEra - dayOfEra / 1_460 + dayOfEra / 36_524 - dayOfEra / 146_096) / 365
  }

  function CivilInEra(era: int, yearOfEra: int, dayOfEra: int): Civil {
    var dayOfYear := dayOfEra - (365 * yearOfEra + yearOfEra / 4 - yearOfEra / 100);
    var monthFromMarch := (5 * dayOfYear + 2) / 153;
    var d := dayOfYear - (153 * monthFromMarch + 2) / 5 + 1;
    var m := if monthFromMarch < 10 then monthFromMarch + 3 else monthFromMarch - 9;
    Civil(yearOfEra + era * 400 + (if m <= 2 then 1 else 0), m, d)
  }

  // ---------------------------------------------------------------------
  // The reference: add up whole years, then whole months, then days.

  function YearLength(year: int): int { if Leap(year) then 366 else 365 }

  function DaysBeforeYear(year: int): int
    decreases if year >= 1970 then year - 1970 else 1970 - year
  {
    if year == 1970 then 0
    else if year > 1970 then DaysBeforeYear(year - 1) + YearLength(year - 1)
    else DaysBeforeYear(year + 1) - YearLength(year)
  }

  function DaysBeforeMonth(year: int, month: int): int
    requires 1 <= month <= 12
  {
    if month == 1 then 0 else DaysBeforeMonth(year, month - 1) + DaysInMonth(year, month - 1)
  }

  function NaiveDays(c: Civil): int
    requires 1 <= c.month <= 12
  {
    DaysBeforeYear(c.year) + DaysBeforeMonth(c.year, c.month) + c.day - 1
  }

  lemma YearStep(year: int)
    ensures DaysFromCivil(Civil(year + 1, 1, 1)) == DaysFromCivil(Civil(year, 1, 1)) + YearLength(year)
  {
    var y := year - 1;
    var e, r := y / 400, y % 400;
    assert y - e * 400 == r;
    if r == 399 {
      assert year == 400 * (e + 1);
      assert year / 400 == e + 1;
    } else {
      assert year == 400 * e + (r + 1);
      assert year / 400 == e;
      YearOfEraStep(r);
    }
    assert Leap(year) <==> Leap(r + 1) by { LeapOfEra(e, r + 1); }
  }

  lemma SmallMultiple(d: int, j: int)
    requires d > 0
    ensures -d < d * j < d ==> j == 0
  {
    if j >= 1 {
      assert d * (j - 1) >= 0;
    } else if j <= -1 {
      assert d * (-j - 1) >= 0;
    }
  }

  lemma DivRem(d: nat, k: int, e: int)
    requires 0 <= e < d
    ensures (d * k + e) / d == k
  {
    var x := d * k + e;
    assert x == d * (x / d) + x % d;
    assert d * (k - x / d) == x % d - e;
    SmallMultiple(d, k - x / d);
  }

  lemma ModOf(d: int, m: int, k: int)
    requires d > 0
    ensures (d * m + k) % d == k % d
  {
    var q, r := k / d, k % d;
    assert k == d * q + r;
    assert d * m + k == d * (m + q) + r;
    DivRem(d, m + q, r);
  }

  lemma LeapOfEra(era: int, k: int)
    ensures Leap(400 * era + k) <==> Leap(k)
  {
    ModOf(400, era, k);
    ModOf(100, 4 * era, k);
    ModOf(4, 100 * era, k);
  }

  lemma YearOfEraStep(r: int)
    requires 0 <= r < 399
    ensures (r + 1) / 4 - (r + 1) / 100 == r / 4 - r / 100 + (if Leap(r + 1) then 1 else 0)
  {
    FourStep(r);
    HundredStep(r);
    if (r + 1) % 100 == 0 { assert (r + 1) % 4 == 0; }
  }

  lemma FourStep(r: int)
    ensures (r + 1) / 4 == r / 4 + (if (r + 1) % 4 == 0 then 1 else 0)
  {
  }

  lemma HundredStep(r: int)
    ensures (r + 1) / 100 == r / 100 + (if (r + 1) % 100 == 0 then 1 else 0)
  {
  }

  lemma MonthStep(year: int, month: int)
    requires 1 <= month <= 11
    ensures DaysFromCivil(Civil(year, month + 1, 1)) ==
            DaysFromCivil(Civil(year, month, 1)) + DaysInMonth(year, month)
  {
    if month == 2 { YearStepMarch(year); }
  }

  /** From the first of February to the first of March crosses the program's
      own year boundary. */
  lemma YearStepMarch(year: int)
    ensures DaysFromCivil(Civil(year, 3, 1)) == DaysFromCivil(Civil(year, 2, 1)) + DaysInMonth(year, 2)
  {
    var y := year - 1;
    var e, r := y / 400, y % 400;
    LeapOfEra(e, r + 1);
    if r < 399 {
      assert year / 400 == e;
      YearOfEraStep(r);
    } else {
      assert year / 400 == e + 1;
    }
  }

  lemma {:induction false} YearsAddUp(year: int)
    ensures DaysFromCivil(Civil(year, 1, 1)) == DaysBeforeYear(year)
    decreases if year >= 1970 then year - 1970 else 1970 - year
  {
    if year > 1970 {
      YearsAddUp(year - 1);
      YearStep(year - 1);
    } else if year < 1970 {
      YearsAddUp(year + 1);
      YearStep(year);
    }
  }

  lemma {:induction false} MonthsAddUp(year: int, month: int)
    requires 1 <= month <= 12
    ensures DaysFromCivil(Civil(year, month, 1)) ==
            DaysFromCivil(Civil(year, 1, 1)) + DaysBeforeMonth(year, month)
  {
    if month > 1 {
      MonthsAddUp(year, month - 1);
      MonthStep(year, month - 1);
    }
  }

  lemma DaysOfMonth(c: Civil)
    ensures DaysFromCivil(c) == DaysFromCivil(Civil(c.year, c.month, 1)) + c.day - 1
  {
  }

  /** The era formula is the naive count, for every year, past and future. */
  lemma DayCountIsNaive(c: Civil)
    requires 1 <= c.month <= 12
    ensures DaysFromCivil(c) == NaiveDays(c)
  {
    DaysOfMonth(c);
    hide DaysFromCivil;
    YearsAddUp(c.year);
    MonthsAddUp(c.year, c.month);
  }

  // ---------------------------------------------------------------------
  // The two formulas are inverse to one another.

  /** The two century corrections together count the whole centuries, also on
      the era's last day, when each is one too many. */
  lemma CenturiesRecovered(c: int, rest: int)
    requires 0 <= c < 4 && 0 <= rest <= 36_524 && (rest == 36_524 ==> c == 3)
    ensures var doe := 36_524 * c + rest; doe / 36_524 - doe / 146_096 == c
  {
    var doe := 36_524 * c + rest;
    if rest < 36_524 {
      DivRem(36_524, c, rest);
      DivRem(146_096, 0, doe);
    } else {
      assert doe == 146_096;
    }
  }

  lemma YearOfEraRecovered(c: int, q: int, r: int, doy: int)
    requires 0 <= c < 4 && 0 <= q < 25 && 0 <= r < 4
    requires 0 <= doy <= 365
    requires doy == 365 ==> r == 3 && (q < 24 || c == 3)
    ensures var doe := 36524 * c + 1461 * q + 365 * r + doy;
            0 <= doe < 146_097 && YearOfEra(doe) == 100 * c + 4 * q + r
  {
    var doe := 36524 * c + 1461 * q + 365 * r + doy;
    CenturiesRecovered(c, 1461 * q + 365 * r + doy);
    var low := 24 * c + q + 365 * r + doy;
    var k := if low >= 1460 then 1 else 0;
    DivRem(1460, 25 * c + q + k, low - 1460 * k);
    assert doe / 1460 == 25 * c + q + k;
    DivRem(365, 100 * c + 4 * q + r, doy - k);
  }

  /** Day `day` of the `mp`th month counted from March, in year `yoe` of an
      era: the form both formulas work in. */
  function MarchDays(era: int, yoe: int, mp: int, day: int): int {
    era * 146_097 + (365 * yoe + yoe / 4 - yoe / 100 + ((153 * mp + 2) / 5 + day - 1)) - 719_468
  }

  lemma MarchDaysRecovered(era: int, yoe: int, mp: int, day: int)
    requires 0 <= yoe < 400 && 0 <= mp < 12
    requires 1 <= day <= (if mp == 11 then if Leap(yoe + 1) then 29 else 28
                          else (153 * (mp + 1) + 2) / 5 - (153 * mp + 2) / 5)
    ensures CivilFromDays(MarchDays(era, yoe, mp, day)) ==
            var m := if mp < 10 then mp + 3 else mp - 9;
            Civil(yoe + era * 400 + (if m <= 2 then 1 else 0), m, day)
  {
    var doe := 365 * yoe + yoe / 4 - yoe / 100 + ((153 * mp + 2) / 5 + day - 1);
    assert 0 <= doe < 146_097 && YearOfEra(doe) == yoe by {
      DayOfYearBound(yoe, mp, day);
      var c, q, r := yoe / 100, yoe % 100 / 4, yoe % 4;
      assert yoe == 100 * c + 4 * q + r && yoe / 4 == 25 * c + q;
      YearOfEraRecovered(c, q, r, (153 * mp + 2) / 5 + day - 1);
    }
    DivRem(146_097, era, doe);
    assert MarchDays(era, yoe, mp, day) + 719_468 == 146_097 * era + doe;
    InEraRecovered(era, yoe, mp, day);
  }

  lemma InEraRecovered(era: int, yoe: int, mp: int, day: int)
    requires 0 <= mp < 12
    requires 1 <= day <= (if mp == 11 then 29 else (153 * (mp + 1) + 2) / 5 - (153 * mp + 2) / 5)
    ensures CivilInEra(era, yoe, 365 * yoe + yoe / 4 - yoe / 100 + ((153 * mp + 2) / 5 + day - 1)) ==
            var m := if mp < 10 then mp + 3 else mp - 9;
            Civil(yoe + era * 400 + (if m <= 2 then 1 else 0), m, day)
  {
    MonthRecovered(mp, day);
  }

  lemma DayOfYearBound(yoe: int, mp: int, day: int)
    requires 0 <= yoe < 400 && 0 <= mp < 12
    requires 1 <= day <= (if mp == 11 then if Leap(yoe + 1) then 29 else 28
                          else (153 * (mp + 1) + 2) / 5 - (153 * mp + 2) / 5)
    ensures 0 <= (153 * mp + 2) / 5 + day - 1 <= 365
    ensures (153 * mp + 2) / 5 + day - 1 == 365 ==>
              yoe % 4 == 3 && (yoe % 100 / 4 < 24 || yoe / 100 == 3)
  {
  }

  lemma CivilRecovered(c: Civil)
    requires RealDate(c)
    ensures CivilFromDays(DaysFromCivil(c)) == c
  {
    var y := if c.month <= 2 then c.year - 1 else c.year;
    var era, yoe := y / 400, y % 400;
    var mp := if c.month > 2 then c.month - 3 else c.month + 9;
    LeapOfEra(era, yoe + 1);
    assert DaysFromCivil(c) == MarchDays(era, yoe, mp, c.day);
    MarchDaysRecovered(era, yoe, mp, c.day);
  }

  lemma MonthRecovered(mp: int, day: int)
    requires 0 <= mp < 12
    requires 1 <= day <= (if mp == 11 then 29 else (153 * (mp + 1) + 2) / 5 - (153 * mp + 2) / 5)
    ensures (5 * ((153 * mp + 2) / 5 + day - 1) + 2) / 153 == mp
  {
  }

  /** The date after `c`. */
  function NextDate(c: Civil): (d: Civil)
    requires RealDate(c)
    ensures RealDate(d) && NaiveDays(d) == NaiveDays(c) + 1
  {
    if c.day < DaysInMonth(c.year, c.month) then c.(day := c.day + 1)
    else if c.month < 12 then Civil(c.year, c.month + 1, 1)
    else DecemberEnds(c.year); Civil(c.year + 1, 1, 1)
  }

  lemma DecemberEnds(year: int)
    ensures DaysBeforeMonth(year, 12) + 31 == YearLength(year)
    ensures DaysBeforeYear(year + 1) == DaysBeforeYear(year) + YearLength(year)
  {
    var leap := if Leap(year) then 1 else 0;
    assert DaysBeforeMonth(year, 2) == 31;
    assert DaysBeforeMonth(year, 3) == 59 + leap;
    assert DaysBeforeMonth(year, 5) == 120 + leap;
    assert DaysBeforeMonth(year, 7) == 181 + leap;
    assert DaysBeforeMonth(year, 9) == 243 + leap;
    assert DaysBeforeMonth(year, 11) == 304 + leap;
  }

  /** The date before `c`. */
  function PreviousDate(c: Civil): (d: Civil)
    requires RealDate(c)
    ensures RealDate(d) && NaiveDays(d) == NaiveDays(c) - 1
  {
    if c.day > 1 then c.(day := c.day - 1)
    else if c.month > 1 then Civil(c.year, c.month - 1, DaysInMonth(c.year, c.month - 1))
    else DecemberEnds(c.year - 1); Civil(c.year - 1, 12, 31)
  }

  /** Every day has a date: walk there from 1970-01-01. */
  lemma {:induction false} EveryDayHasADate(n: int) returns (c: Civil)
    ensures RealDate(c) && NaiveDays(c) == n
    decreases if n >= 0 then n else -n
  {
    if n == 0 {
      c := Civil(1970, 1, 1);
    } else if n > 0 {
      var p := EveryDayHasADate(n - 1);
      c := NextDate(p);
    } else {
      var p := EveryDayHasADate(n + 1);
      c := PreviousDate(p);
    }
  }

  /** `CivilFromDays` names the one real date whose naive count is `n`. */
  lemma CivilFromDaysIsExact(n: int)
    ensures RealDate(CivilFromDays(n))
    ensures NaiveDays(CivilFromDays(n)) == n
    ensures forall c :: RealDate(c) && NaiveDays(c) == n ==> c == CivilFromDays(n)
  {
    var d := EveryDayHasADate(n);
    DayCountIsNaive(d);
    CivilRecovered(d);
    forall c | RealDate(c) && NaiveDays(c) == n ensures c == CivilFromDays(n) {
      DayCountIsNaive(c);
      CivilRecovered(c);
    }
  }

  // ---------------------------------------------------------------------
  // The text form.

  /** Rust's `{:0w}`: zero-padded to `w` characters, a minus sign counted. */
  function Padded(n: int, w: nat): string {
    if n >= 0 then ZeroFilled(Decimal(n), w)
    else "-" + ZeroFilled(Decimal(-n), if w > 0 then w - 1 else 0)
  }

  function ZeroFilled(s: string, w: nat): string
    decreases w - |s|
  {
    if |s| >= w then s else ZeroFilled("0" + s, w)
  }

  function Text(c: Civil): string {
    Padded(c.year, 4) + "-" + Padded(c.month, 2) + "-" + Padded(c.day, 2)
  }

  /** The date `day` days after 1970-01-01, as text. */
  function DateOf(day: int): string { Text(CivilFromDays(day)) }

  predicate AllDigits(s: string) { forall i :: 0 <= i < |s| ==> IsDigit(s[i]) }

  /** Exactly `dddd-dd-dd`, read as numbers. */
  function ParseDate(date: string): Option<Civil> {
    if |date| != 10 || date[4] != '-' || date[7] != '-' then None
    else if !AllDigits(date[0..4]) || !AllDigits(date[5..7]) || !AllDigits(date[8..10]) then None
    else Some(Civil(NumberOf(date[0..4]), NumberOf(date[5..7]), NumberOf(date[8..10])))
  }

  /** Days since 1970-01-01, or `None` for a text that is not exactly that
      shape or not a real calendar date. */
  function DayNumber(date: string): Option<int> {
    match ParseDate(date)
    case None => None
    case Some(c) =>
      if !(1 <= c.month <= 12) || c.day < 1 || c.day > DaysInMonth(c.year, c.month) then None
      else Some(DaysFromCivil(c))
  }

  const FIRST_DAY := -719528   // 0000-01-01
  const LAST_DAY := 2932896    // 9999-12-31

  lemma {:induction false} DecimalLength(n: nat, w: nat, bound: nat)
    requires 1 <= w && bound == PowerOfTen(w)
    ensures n < bound <==> |Decimal(n)| <= w
  {
    if w == 1 {
      assert PowerOfTen(1) == 10 * PowerOfTen(0);
      if n >= 10 { assert |Decimal(n)| == |Decimal(n / 10)| + 1; }
    } else if n >= 10 {
      DecimalLength(n / 10, w - 1, PowerOfTen(w - 1));
    } else {
      PowerGrows(w);
    }
  }

  function PowerOfTen(w: nat): nat { if w == 0 then 1 else 10 * PowerOfTen(w - 1) }

  lemma {:induction false} PowerGrows(w: nat)
    requires 1 <= w
    ensures PowerOfTen(w) >= 10
  {
    if w > 1 { PowerGrows(w - 1); }
  }

  lemma {:induction false} ZeroFilledReads(s: string, w: nat)
    requires AllDigits(s) && |s| <= w
    ensures |ZeroFilled(s, w)| == w && AllDigits(ZeroFilled(s, w))
    ensures NumberOf(ZeroFilled(s, w)) == NumberOf(s)
    decreases w - |s|
  {
    if |s| < w {
      LeadingZero(s);
      ZeroFilledReads("0" + s, w);
    }
  }

  lemma {:induction false} LeadingZero(s: string)
    requires AllDigits(s)
    ensures AllDigits("0" + s) && NumberOf("0" + s) == NumberOf(s)
  {
    var t := "0" + s;
    if s == [] {
      assert t == "0" && t[..0] == [];
    } else {
      LeadingZero(s[..|s| - 1]);
      assert t[..|t| - 1] == "0" + s[..|s| - 1];
    }
  }

  lemma PaddedReads(n: nat, w: nat)
    requires 1 <= w && n < PowerOfTen(w)
    ensures |Padded(n, w)| == w && AllDigits(Padded(n, w)) && NumberOf(Padded(n, w)) == n
  {
    DecimalLength(n, w, PowerOfTen(w));
    DecimalReadsBack(n);
    ZeroFilledReads(Decimal(n), w);
  }

  lemma TwoDigits()
    ensures PowerOfTen(2) == 100 && PowerOfTen(4) == 10000
  {
    assert PowerOfTen(1) == 10;
    assert PowerOfTen(3) == 1000;
  }

  lemma TextParses(c: Civil)
    requires RealDate(c) && 0 <= c.year <= 9999
    ensures ParseDate(Text(c)) == Some(c)
  {
    TwoDigits();
    PaddedReads(c.year, 4);
    PaddedReads(c.month, 2);
    PaddedReads(c.day, 2);
    var t := Text(c);
    assert |t| == 10 && t[4] == '-' && t[7] == '-';
    assert t[0..4] == Padded(c.year, 4);
    assert t[5..7] == Padded(c.month, 2);
    assert t[8..10] == Padded(c.day, 2);
  }

  lemma {:induction false} SameDigits(a: string, b: string)
    requires AllDigits(a) && AllDigits(b) && |a| == |b| && NumberOf(a) == NumberOf(b)
    ensures a == b
  {
    if a != [] {
      var k := |a| - 1;
      SameDigits(a[..k], b[..k]);
      assert a == a[..k] + [a[k]] && b == b[..k] + [b[k]];
      assert (a[k] as int) == (b[k] as int);
    }
  }

  /** A text that parses is the canonical text of what it parses to. */
  lemma ParsedTextIsCanonical(date: string)
    ensures match ParseDate(date)
            case None => true
            case Some(c) => 0 <= c.year <= 9999 && 0 <= c.month <= 99 && 0 <= c.day <= 99 && Text(c) == date
  {
    var p := ParseDate(date);
    if p.Some? {
      PieceIsCanonical(date[0..4]);
      PieceIsCanonical(date[5..7]);
      PieceIsCanonical(date[8..10]);
      TwoDigits();
      assert date == date[0..4] + "-" + date[5..7] + "-" + date[8..10];
    }
  }

  lemma PieceIsCanonical(s: string)
    requires s != [] && AllDigits(s)
    ensures NumberOf(s) < PowerOfTen(|s|) && Padded(NumberOf(s), |s|) == s
  {
    NumberBound(s);
    PaddedReads(NumberOf(s), |s|);
    SameDigits(Padded(NumberOf(s), |s|), s);
  }

  lemma {:induction false} NumberBound(s: string)
    requires AllDigits(s)
    ensures NumberOf(s) < PowerOfTen(|s|)
  {
    if s != [] { NumberBound(s[..|s| - 1]); }
  }

  // ---------------------------------------------------------------------
  // Days and dates in order.

  lemma {:induction false} YearsInOrder(a: int, b: int)
    requires a <= b
    ensures DaysBeforeYear(a) + 365 * (b - a) <= DaysBeforeYear(b)
    decreases b - a
  {
    if a < b {
      YearsInOrder(a, b - 1);
      DecemberEnds(b - 1);
    }
  }

  lemma {:induction false} MonthsInOrder(year: int, a: int, b: int)
    requires 1 <= a < b <= 12
    ensures DaysBeforeMonth(year, a) + DaysInMonth(year, a) <= DaysBeforeMonth(year, b)
    decreases b
  {
    if a + 1 < b { MonthsInOrder(year, a, b - 1); }
  }

  lemma WithinItsYear(c: Civil)
    requires RealDate(c)
    ensures DaysBeforeYear(c.year) <= NaiveDays(c) < DaysBeforeYear(c.year + 1)
  {
    DecemberEnds(c.year);
    if c.month > 1 { MonthsInOrder(c.year, 1, c.month); }
    if c.month < 12 { MonthsInOrder(c.year, c.month, 12); }
  }

  predicate Before(a: Civil, b: Civil) {
    a.year < b.year ||
    (a.year == b.year && (a.month < b.month || (a.month == b.month && a.day < b.day)))
  }

  lemma EarlierDateEarlierDay(a: Civil, b: Civil)
    requires RealDate(a) && RealDate(b) && Before(a, b)
    ensures NaiveDays(a) < NaiveDays(b)
  {
    WithinItsYear(a);
    WithinItsYear(b);
    if a.year < b.year {
      YearsInOrder(a.year + 1, b.year);
    } else if a.month < b.month {
      MonthsInOrder(a.year, a.month, b.month);
    }
  }

  lemma YearRangeBetween(c: Civil, lo: int, hi: int)
    requires RealDate(c) && lo <= hi
    ensures lo <= c.year < hi <==>
            DaysFromCivil(Civil(lo, 1, 1)) <= DaysFromCivil(c) < DaysFromCivil(Civil(hi, 1, 1))
  {
    hide DaysFromCivil;
    DayCountIsNaive(c);
    WithinItsYear(c);
    YearsAddUp(lo);
    YearsAddUp(hi);
    if c.year < lo { YearsInOrder(c.year + 1, lo); } else { YearsInOrder(lo, c.year); }
    if c.year < hi { YearsInOrder(c.year + 1, hi); } else { YearsInOrder(hi, c.year); }
  }

  lemma FirstDay()
    ensures DaysFromCivil(Civil(0, 1, 1)) == FIRST_DAY
  {
    assert -1 / 400 == -1 && 399 / 4 == 99 && 399 / 100 == 3;
  }

  lemma DayAfterLast()
    ensures DaysFromCivil(Civil(10000, 1, 1)) == LAST_DAY + 1
  {
    assert 9999 / 400 == 24 && 399 / 4 == 99 && 399 / 100 == 3;
  }

  lemma YearRange(c: Civil)
    requires RealDate(c)
    ensures 0 <= c.year <= 9999 <==> FIRST_DAY <= DaysFromCivil(c) <= LAST_DAY
  {
    FirstDay();
    DayAfterLast();
    hide DaysFromCivil;
    YearRangeBetween(c, 0, 10000);
  }

  /** Writing a day as text and reading it back: exact on the years the text
      form holds, and refused on every other day. */
  lemma DayTextRoundTrip(n: int)
    ensures DayNumber(DateOf(n)) == if FIRST_DAY <= n <= LAST_DAY then Some(n) else None
  {
    CivilFromDaysIsExact(n);
    var c := CivilFromDays(n);
    DayCountIsNaive(c);
    YearRange(c);
    if 0 <= c.year <= 9999 {
      TextParses(c);
    } else {
      OtherYearsDoNotParse(c);
    }
  }

  lemma OtherYearsDoNotParse(c: Civil)
    requires RealDate(c) && !(0 <= c.year <= 9999)
    ensures ParseDate(Text(c)) == None
  {
    TwoDigits();
    PaddedReads(c.month, 2);
    PaddedReads(c.day, 2);
    var t, y := Text(c), Padded(c.year, 4);
    if c.year > 9999 {
      DecimalLength(c.year, 4, 10000);
    } else {
      ZeroFilledGrows(Decimal(-c.year), 3);
      assert t[0] == '-';
      if |t| == 10 { assert t[0..4][0] == '-'; }
    }
  }

  lemma {:induction false} ZeroFilledGrows(s: string, w: nat)
    ensures |ZeroFilled(s, w)| >= w
    decreases w - |s|
  {
    if |s| < w { ZeroFilledGrows("0" + s, w); }
  }

  /** Reading a text as a day and writing that day: the same text. */
  lemma DateTextRoundTrip(date: string)
    ensures match DayNumber(date)
            case None => true
            case Some(n) => DateOf(n) == date && FIRST_DAY <= n <= LAST_DAY
  {
    if DayNumber(date).Some? {
      ParsedTextIsCanonical(date);
      var c := ParseDate(date).value;
      CivilRecovered(c);
      YearRange(c);
    }
  }

  lemma {:induction false} LeadingDigit(c: char, s: string)
    requires IsDigit(c) && AllDigits(s)
    ensures AllDigits([c] + s)
    ensures NumberOf([c] + s) == DigitValue(c) * PowerOfTen(|s|) + NumberOf(s)
  {
    var t := [c] + s;
    if s == [] {
      assert t[..0] == [];
    } else {
      LeadingDigit(c, s[..|s| - 1]);
      assert t[..|t| - 1] == [c] + s[..|s| - 1];
      assert DigitValue(c) * PowerOfTen(|s|) == 10 * (DigitValue(c) * PowerOfTen(|s| - 1));
    }
  }

  lemma {:induction false} DigitOrder(a: string, b: string)
    requires AllDigits(a) && AllDigits(b) && |a| == |b|
    ensures Less(a, b) <==> NumberOf(a) < NumberOf(b)
  {
    if a != [] {
      DigitOrder(a[1..], b[1..]);
      LeadingDigit(a[0], a[1..]);
      LeadingDigit(b[0], b[1..]);
      assert a == [a[0]] + a[1..] && b == [b[0]] + b[1..];
      NumberBound(a[1..]);
      NumberBound(b[1..]);
      var p, u, v := PowerOfTen(|a| - 1), DigitValue(a[0]), DigitValue(b[0]);
      LeadingDigitDecides(u, NumberOf(a[1..]), v, NumberOf(b[1..]), p);
    }
  }

  lemma LeadingDigitDecides(u: nat, x: nat, v: nat, y: nat, p: nat)
    requires x < p && y < p
    ensures u * p + x < v * p + y <==> u < v || (u == v && x < y)
  {
    if u < v {
      SmallerLead(u, x, v, p);
    } else if v < u {
      SmallerLead(v, y, u, p);
    }
  }

  lemma SmallerLead(u: nat, x: nat, v: nat, p: nat)
    requires x < p && u < v
    ensures u * p + x < v * p
  {
    var k := v - u - 1;
    assert v * p == (u + 1 + k) * p == u * p + p + k * p;
  }

  lemma {:induction false} LessByParts(a: string, x: string, b: string, y: string)
    requires |a| == |b|
    ensures Less(a + x, b + y) <==> Less(a, b) || (a == b && Less(x, y))
  {
    if a == [] {
      assert a + x == x && b + y == y;
    } else {
      LessByParts(a[1..], x, b[1..], y);
      assert (a + x)[1..] == a[1..] + x && (b + y)[1..] == b[1..] + y;
      assert a == [a[0]] + a[1..] && b == [b[0]] + b[1..];
    }
  }

  lemma TextOrder(a: Civil, b: Civil)
    requires RealDate(a) && RealDate(b) && 0 <= a.year <= 9999 && 0 <= b.year <= 9999
    ensures Less(Text(a), Text(b)) <==> Before(a, b)
  {
    hide Padded, NumberOf, Less;
    TwoDigits();
    PaddedReads(a.year, 4);
    PaddedReads(a.month, 2);
    PaddedReads(a.day, 2);
    PaddedReads(b.year, 4);
    PaddedReads(b.month, 2);
    PaddedReads(b.day, 2);
    var ay, am, ad := Padded(a.year, 4), Padded(a.month, 2), Padded(a.day, 2);
    var bYear, bm, bd := Padded(b.year, 4), Padded(b.month, 2), Padded(b.day, 2);
    DigitOrder(ay, bYear);
    DigitOrder(am, bm);
    DigitOrder(ad, bd);
    assert Text(a) == ay + ("-" + (am + ("-" + ad)));
    assert Text(b) == bYear + ("-" + (bm + ("-" + bd)));
    LessByParts(ay, "-" + (am + ("-" + ad)), bYear, "-" + (bm + ("-" + bd)));
    LessByParts("-", am + ("-" + ad), "-", bm + ("-" + bd));
    LessByParts(am, "-" + ad, bm, "-" + bd);
    LessByParts("-", ad, "-", bd);
    LessIrreflexive("-");
    if a.year == b.year { SameDigits(ay, bYear); }
    if a.month == b.month { SameDigits(am, bm); }
  }

  /** Comparing two dates as text compares them as days. */
  lemma TextOrderIsDayOrder(s: string, t: string)
    requires DayNumber(s).Some? && DayNumber(t).Some?
    ensures Less(s, t) <==> DayNumber(s).value < DayNumber(t).value
  {
    ParsedTextIsCanonical(s);
    ParsedTextIsCanonical(t);
    var a, b := ParseDate(s).value, ParseDate(t).value;
    TextOrder(a, b);
    DayCountIsNaive(a);
    DayCountIsNaive(b);
    if Before(a, b) { EarlierDateEarlierDay(a, b); }
    if Before(b, a) { EarlierDateEarlierDay(b, a); }
  }

  // ---------------------------------------------------------------------

  const EARLIEST_TRUSTED_DATE := "2026-01-01"

  /** Why `today` cannot date a retirement, or `None` if it can. The message
      is the program's. */
  function UntrustedClock(today: string): Option<string> {
    match DayNumber(EARLIEST_TRUSTED_DATE)
    case None => None
    case Some(floor) =>
      match DayNumber(today)
      case None => None
      case Some(n) =>
        if n < floor
        then Some("the system clock reads " + today + ", before " + EARLIEST_TRUSTED_DATE
                  + " — it cannot be trusted to date a retirement or an expiry")
        else None
  }

  lemma LastDigit(s: string, c: char)
    requires AllDigits(s) && IsDigit(c)
    ensures AllDigits(s + [c]) && NumberOf(s + [c]) == 10 * NumberOf(s) + DigitValue(c)
  {
    assert (s + [c])[..|s|] == s;
  }

  lemma FloorMonth()
    ensures AllDigits("01") && NumberOf("01") == 1
  {
    LastDigit("", '0');
    LastDigit("0", '1');
    assert "" + ['0'] == "0" && "0" + ['1'] == "01";
  }

  lemma FloorYear()
    ensures AllDigits("2026") && NumberOf("2026") == 2026
  {
    LastDigit("", '2');
    LastDigit("2", '0');
    LastDigit("20", '2');
    LastDigit("202", '6');
    assert "" + ['2'] == "2" && "2" + ['0'] == "20" && "20" + ['2'] == "202" && "202" + ['6'] == "2026";
  }

  lemma FloorDate()
    ensures DayNumber(EARLIEST_TRUSTED_DATE).Some?
  {
    hide NumberOf, AllDigits;
    FloorYear();
    FloorMonth();
    var f := EARLIEST_TRUSTED_DATE;
    assert f[0..4] == "2026" && f[5..7] == "01" && f[8..10] == "01";
  }

  /** The clock is refused exactly when it reads a real date that, compared
      as text, comes before the floor. */
  lemma UntrustedExactlyBefore(today: string)
    ensures UntrustedClock(today).Some? <==> DayNumber(today).Some? && Less(today, EARLIEST_TRUSTED_DATE)
  {
    FloorDate();
    if DayNumber(today).Some? { TextOrderIsDayOrder(today, EARLIEST_TRUSTED_DATE); }
  }
}
