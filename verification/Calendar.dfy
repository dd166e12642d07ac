/** Instants as Go's time package prints and reads them for batch keys. An instant is a number of
    milliseconds since 0000-01-01T00:00:00 UTC in the proleptic Gregorian calendar. */
module Calendar {
  import opened Lex

  const DAY_MILLIS := 86_400_000

  datatype Option<+T> = None | Some(value: T) {
    predicate IsFailure() { None? }
    function PropagateFailure<U>(): Option<U>
      requires None?
    {
      None
    }
    function Extract(): T
      requires Some?
    {
      value
    }
  }

  datatype Civil = Civil(year: nat, month: nat, day: nat, hour: nat, minute: nat, second: nat, milli: nat)

  // ------------------------------------------------------------- dates

  predicate Leap(y: nat) {
    y % 4 == 0 && (y % 100 != 0 || y % 400 == 0)
  }

  function YearDays(y: nat): nat {
    if Leap(y) then 366 else 365
  }

  function YearStart(y: nat): nat {
    if y == 0 then 0 else YearStart(y - 1) + YearDays(y - 1)
  }

  function MonthDays(y: nat, m: nat): nat {
    if m == 2 then (if Leap(y) then 29 else 28)
    else if m == 4 || m == 6 || m == 9 || m == 11 then 30
    else 31
  }

  /** Days of year `y` before month `m`. */
  function MonthStart(y: nat, m: nat): nat {
    if m <= 1 then 0 else MonthStart(y, m - 1) + MonthDays(y, m - 1)
  }

  predicate ValidCivil(c: Civil) {
    && 1 <= c.month <= 12 && 1 <= c.day <= MonthDays(c.year, c.month)
    && c.hour < 24 && c.minute < 60 && c.second < 60 && c.milli < 1000
  }

  function DayNumber(c: Civil): nat
    requires ValidCivil(c)
  {
    YearStart(c.year) + MonthStart(c.year, c.month) + c.day - 1
  }

  function ClockMillis(c: Civil): (r: nat)
    requires ValidCivil(c)
    ensures r < DAY_MILLIS
  {
    ((c.hour * 60 + c.minute) * 60 + c.second) * 1000 + c.milli
  }

  function Pack(c: Civil): nat
    requires ValidCivil(c)
  {
    DayNumber(c) * DAY_MILLIS + ClockMillis(c)
  }

  function YearOf(day: nat, y: nat): (r: nat)
    requires YearStart(y) <= day
    ensures YearStart(r) <= day < YearStart(r + 1)
    decreases day - YearStart(y)
  {
    if day < YearStart(y + 1) then y else YearOf(day, y + 1)
  }

  function MonthOf(y: nat, rest: nat, m: nat): (r: nat)
    requires 1 <= m <= 12 && MonthStart(y, m) <= rest < MonthStart(y, 13)
    ensures 1 <= r <= 12 && MonthStart(y, r) <= rest < MonthStart(y, r + 1)
    decreases 12 - m
  {
    if rest < MonthStart(y, m + 1) then m else MonthOf(y, rest, m + 1)
  }

  lemma MonthsFillTheYear(y: nat)
    ensures MonthStart(y, 13) == YearDays(y)
  {
    var leap := if Leap(y) then 1 else 0;
    assert MonthStart(y, 2) == 31;
    assert MonthStart(y, 3) == 59 + leap;
    assert MonthStart(y, 5) == 120 + leap by { assert MonthStart(y, 4) == 90 + leap; }
    assert MonthStart(y, 7) == 181 + leap by { assert MonthStart(y, 6) == 151 + leap; }
    assert MonthStart(y, 9) == 243 + leap by { assert MonthStart(y, 8) == 212 + leap; }
    assert MonthStart(y, 11) == 304 + leap by { assert MonthStart(y, 10) == 273 + leap; }
    assert MonthStart(y, 12) == 334 + leap;
  }

  lemma ClockSplit(ms: nat)
    ensures ms == ((ms / 3_600_000 * 60 + ms / 60_000 % 60) * 60 + ms / 1000 % 60) * 1000 + ms % 1000
  {
    var seconds := ms / 1000;
    var minutes := seconds / 60;
    assert ms / 60_000 == minutes && ms / 3_600_000 == minutes / 60;
  }

  /** The calendar fields of an instant, in UTC. */
  function Unpack(t: nat): (c: Civil)
    ensures ValidCivil(c) && Pack(c) == t
  {
    var day, ms := t / DAY_MILLIS, t % DAY_MILLIS;
    var y := YearOf(day, 0);
    var rest := day - YearStart(y);
    MonthsFillTheYear(y);
    var m := MonthOf(y, rest, 1);
    ClockSplit(ms);
    Civil(y, m, rest - MonthStart(y, m) + 1,
          ms / 3_600_000, ms / 60_000 % 60, ms / 1000 % 60, ms % 1000)
  }

  predicate DateBefore(a: Civil, b: Civil) {
    a.year < b.year || (a.year == b.year && (a.month < b.month || (a.month == b.month && a.day < b.day)))
  }

  predicate SameDate(a: Civil, b: Civil) {
    a.year == b.year && a.month == b.month && a.day == b.day
  }

  predicate ClockBefore(a: Civil, b: Civil) {
    || a.hour < b.hour
    || (a.hour == b.hour && (a.minute < b.minute
    || (a.minute == b.minute && (a.second < b.second
    || (a.second == b.second && a.milli < b.milli)))))
  }

  /** Calendar order: the fields compared from the largest unit down. */
  predicate CivilBefore(a: Civil, b: Civil) {
    DateBefore(a, b) || (SameDate(a, b) && ClockBefore(a, b))
  }

  lemma {:induction false} YearsAscend(a: nat, b: nat)
    requires a < b
    ensures YearStart(a) + YearDays(a) <= YearStart(b)
  {
    if a + 1 < b { YearsAscend(a, b - 1); }
  }

  /** Years in closed form: one leap day every fourth year, none on centuries, one on fourth
      centuries. */
  lemma {:induction false} YearStartFormula(y: nat)
    ensures YearStart(y) == 365 * y + (y + 3) / 4 - (y + 99) / 100 + (y + 399) / 400
  {
    if y > 0 {
      YearStartFormula(y - 1);
      LeapYearSteps(y);
    }
  }

  lemma FoursStep(y: nat)
    requires y > 0
    ensures (y + 3) / 4 == (y + 2) / 4 + if (y - 1) % 4 == 0 then 1 else 0
  {
  }

  lemma HundredsStep(y: nat)
    requires y > 0
    ensures (y + 99) / 100 == (y + 98) / 100 + if (y - 1) % 100 == 0 then 1 else 0
  {
  }

  lemma FourHundredsStep(y: nat)
    requires y > 0
    ensures (y + 399) / 400 == (y + 398) / 400 + if (y - 1) % 400 == 0 then 1 else 0
  {
  }

  lemma HundredOfFourHundred(x: nat)
    requires x % 400 == 0
    ensures x % 100 == 0
  {
    var k := x / 400;
    assert x == 100 * (4 * k);
  }

  lemma FourOfHundred(x: nat)
    requires x % 100 == 0
    ensures x % 4 == 0
  {
    FourTimes(25 * (x / 100));
    assert x == 4 * (25 * (x / 100));
  }

  lemma FourTimes(k: nat)
    ensures 4 * k % 4 == 0
  {
  }

  lemma LeapYearSteps(y: nat)
    requires y > 0
    ensures (y + 3) / 4 - (y + 99) / 100 + (y + 399) / 400
         == (y + 2) / 4 - (y + 98) / 100 + (y + 398) / 400 + (if Leap(y - 1) then 1 else 0)
  {
    FoursStep(y);
    HundredsStep(y);
    FourHundredsStep(y);
    if (y - 1) % 400 == 0 { HundredOfFourHundred(y - 1); }
    if (y - 1) % 100 == 0 { FourOfHundred(y - 1); }
  }

  lemma {:induction false} MonthsAscend(y: nat, a: nat, b: nat)
    requires 1 <= a < b
    ensures MonthStart(y, a) + MonthDays(y, a) <= MonthStart(y, b)
  {
    if a + 1 < b { MonthsAscend(y, a, b - 1); }
  }

  lemma DatesAscend(a: Civil, b: Civil)
    requires ValidCivil(a) && ValidCivil(b) && DateBefore(a, b)
    ensures DayNumber(a) < DayNumber(b)
  {
    if a.year < b.year {
      YearsAscend(a.year, b.year);
      MonthsFillTheYear(a.year);
      MonthsAscend(a.year, a.month, 13);
    } else if a.month < b.month {
      MonthsAscend(a.year, a.month, b.month);
    }
  }

  lemma PackAscends(a: Civil, b: Civil)
    requires ValidCivil(a) && ValidCivil(b) && CivilBefore(a, b)
    ensures Pack(a) < Pack(b)
  {
    if DateBefore(a, b) { DatesAscend(a, b); }
  }

  /** Calendar order on fields is the order on instants. */
  lemma CivilOrder(s: nat, t: nat)
    ensures CivilBefore(Unpack(s), Unpack(t)) <==> s < t
  {
    var a, b := Unpack(s), Unpack(t);
    if CivilBefore(a, b) { PackAscends(a, b); }
    if CivilBefore(b, a) { PackAscends(b, a); }
    if !CivilBefore(a, b) && !CivilBefore(b, a) { assert a == b; }
  }

  // ------------------------------------------------------------- digits

  function DigitChar(d: nat): char
    requires d < 10
  {
    '0' + d as char
  }

  /** `n` in decimal, zero-padded to at least `w` places (fmt's %0*d). */
  function Pad(n: nat, w: nat): string
    decreases n, w
  {
    if n == 0 && w == 0 then ""
    else Pad(n / 10, if w == 0 then 0 else w - 1) + [DigitChar(n % 10)]
  }

  function Pow10(w: nat): nat {
    if w == 0 then 1 else 10 * Pow10(w - 1)
  }

  lemma {:induction false} PadLength(n: nat, w: nat)
    requires n < Pow10(w)
    ensures |Pad(n, w)| == w
    decreases w
  {
    if w > 0 { PadLength(n / 10, w - 1); }
  }

  predicate IsDigit(c: char) {
    '0' <= c <= '9'
  }

  lemma {:induction false} PadDigits(n: nat, w: nat)
    ensures forall i :: 0 <= i < |Pad(n, w)| ==> IsDigit(Pad(n, w)[i])
    decreases n, w
  {
    if n != 0 || w != 0 {
      PadDigits(n / 10, if w == 0 then 0 else w - 1);
    }
  }

  lemma {:induction false} PadOrder(a: nat, b: nat, w: nat)
    requires a < Pow10(w) && b < Pow10(w)
    ensures Less(Pad(a, w), Pad(b, w)) <==> a < b
    ensures Pad(a, w) == Pad(b, w) <==> a == b
    decreases w
  {
    if w > 0 {
      PadOrder(a / 10, b / 10, w - 1);
      PadLength(a / 10, w - 1);
      PadLength(b / 10, w - 1);
      var x, y := [DigitChar(a % 10)], [DigitChar(b % 10)];
      assert Less(x, y) <==> a % 10 < b % 10;
      FirstPartDecides(Pad(a / 10, w - 1), Pad(b / 10, w - 1), x, y);
      assert Pad(a, w)[..w-1] == Pad(a / 10, w - 1) && Pad(b, w)[..w-1] == Pad(b / 10, w - 1);
      assert Pad(a, w)[w-1] == x[0] && Pad(b, w)[w-1] == y[0];
    }
  }

  function DigitValue(c: char): (d: nat)
    requires IsDigit(c)
    ensures d < 10 && DigitChar(d) == c
  {
    (c - '0') as nat
  }

  /** Reads decimal digits; anything else is refused. */
  function ParseNat(s: string): Option<nat> {
    if s == "" then Some(0)
    else if !IsDigit(s[|s|-1]) then None
    else
      match ParseNat(s[..|s|-1])
      case None => None
      case Some(high) => Some(10 * high + DigitValue(s[|s|-1]))
  }

  lemma ParseSnoc(s: string, d: nat)
    requires d < 10 && ParseNat(s).Some?
    ensures ParseNat(s + [DigitChar(d)]) == Some(10 * ParseNat(s).value + d)
  {
    var t := s + [DigitChar(d)];
    assert t[..|t|-1] == s && t[|t|-1] == DigitChar(d);
    assert DigitValue(DigitChar(d)) == d;
  }

  lemma {:induction false} ParsePad(n: nat, w: nat)
    ensures ParseNat(Pad(n, w)) == Some(n)
    decreases n, w
  {
    hide ParseNat;
    if n == 0 && w == 0 {
      ParseEmpty();
    } else {
      var v := if w == 0 then 0 else w - 1;
      ParsePad(n / 10, v);
      ParseSnoc(Pad(n / 10, v), n % 10);
    }
  }

  lemma ParseEmpty()
    ensures ParseNat("") == Some(0)
  {
  }
}
