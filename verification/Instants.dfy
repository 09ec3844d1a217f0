/**
 * UTC instants as the online store writes them: `YYYY-MM-DDTHH:MM:SS.ffffff+00:00`. The text is of fixed
 * width, so comparing texts is comparing instants.
 */
module Instants {
  import opened Common
  import opened TextOrder

  datatype Instant = Instant(year: nat, month: nat, day: nat, hour: nat, minute: nat, second: nat, micro: nat)

  predicate Leap(year: nat) {
    year % 4 == 0 && (year % 100 != 0 || year % 400 == 0)
  }

  function DaysInMonth(year: nat, month: nat): nat {
    if month == 2 then (if Leap(year) then 29 else 28)
    else if month == 4 || month == 6 || month == 9 || month == 11 then 30
    else 31
  }

  /** The instants a `datetime` can hold. */
  predicate Valid(t: Instant) {
    && 1 <= t.year <= 9999 && 1 <= t.month <= 12 && 1 <= t.day <= DaysInMonth(t.year, t.month)
    && t.hour < 24 && t.minute < 60 && t.second < 60 && t.micro < 1_000_000
  }

  // ---- elapsed time ------------------------------------------------------------------------------

  function DaysInYear(year: nat): nat {
    if Leap(year) then 366 else 365
  }

  function DaysBeforeYear(year: nat): nat {
    if year == 0 then 0 else DaysBeforeYear(year - 1) + DaysInYear(year - 1)
  }

  function DaysBeforeMonth(year: nat, month: nat): nat {
    if month <= 1 then 0 else DaysBeforeMonth(year, month - 1) + DaysInMonth(year, month - 1)
  }

  function DayNumber(t: Instant): nat
    requires Valid(t)
  {
    DaysBeforeYear(t.year) + DaysBeforeMonth(t.year, t.month) + t.day - 1
  }

  /** The microseconds elapsed since the start of the calendar. */
  function Elapsed(t: Instant): Time
    requires Valid(t)
  {
    (((DayNumber(t) * 24 + t.hour) * 60 + t.minute) * 60 + t.second) * 1_000_000 + t.micro
  }

  lemma {:induction false} MonthsAddUp(year: nat, month: nat)
    requires 1 <= month <= 12
    ensures DaysBeforeMonth(year, month) + DaysInMonth(year, month) <= DaysInYear(year)
    ensures month == 12 ==> DaysBeforeMonth(year, month) + DaysInMonth(year, month) == DaysInYear(year)
  {
    var february := DaysInMonth(year, 2);
    assert DaysBeforeMonth(year, 2) == 31;
    assert DaysBeforeMonth(year, 3) == 31 + february;
    assert DaysBeforeMonth(year, 4) == 62 + february;
    assert DaysBeforeMonth(year, 5) == 92 + february;
    assert DaysBeforeMonth(year, 6) == 123 + february;
    assert DaysBeforeMonth(year, 7) == 153 + february;
    assert DaysBeforeMonth(year, 8) == 184 + february;
    assert DaysBeforeMonth(year, 9) == 215 + february;
    assert DaysBeforeMonth(year, 10) == 245 + february;
    assert DaysBeforeMonth(year, 11) == 276 + february;
    assert DaysBeforeMonth(year, 12) == 306 + february;
    MonthsMonotone(year, month, 12);
  }

  lemma {:induction false} MonthsMonotone(year: nat, a: nat, b: nat)
    requires 1 <= a <= b
    ensures DaysBeforeMonth(year, a) <= DaysBeforeMonth(year, b)
    ensures a < b ==> DaysBeforeMonth(year, a) + DaysInMonth(year, a) <= DaysBeforeMonth(year, b)
    decreases b
  {
    if a < b { MonthsMonotone(year, a, b - 1); }
  }

  lemma {:induction false} YearsMonotone(a: nat, b: nat)
    requires a < b
    ensures DaysBeforeYear(a) + DaysInYear(a) <= DaysBeforeYear(b)
    decreases b
  {
    if a + 1 < b { YearsMonotone(a, b - 1); }
  }

  /** The order of `datetime`: field by field, the year first. */
  predicate EarlierDay(a: Instant, b: Instant) {
    || a.year < b.year
    || (a.year == b.year && (a.month < b.month || (a.month == b.month && a.day < b.day)))
  }

  predicate SameDay(a: Instant, b: Instant) {
    a.year == b.year && a.month == b.month && a.day == b.day
  }

  function MicroOfDay(t: Instant): nat {
    ((t.hour * 60 + t.minute) * 60 + t.second) * 1_000_000 + t.micro
  }

  predicate Earlier(a: Instant, b: Instant) {
    EarlierDay(a, b) || (SameDay(a, b) && MicroOfDay(a) < MicroOfDay(b))
  }

  lemma DaysInOrder(a: Instant, b: Instant)
    requires Valid(a) && Valid(b) && EarlierDay(a, b)
    ensures DayNumber(a) < DayNumber(b)
  {
    MonthsAddUp(a.year, a.month);
    if a.year < b.year {
      YearsMonotone(a.year, b.year);
    } else if a.month < b.month {
      MonthsMonotone(a.year, a.month, b.month);
    }
  }

  /** Field order is elapsed-time order. */
  lemma EarlierIsLessElapsed(a: Instant, b: Instant)
    requires Valid(a) && Valid(b)
    ensures Earlier(a, b) <==> Elapsed(a) < Elapsed(b)
    ensures Elapsed(a) == Elapsed(b) ==> SameDay(a, b)
  {
    assert Elapsed(a) == DayNumber(a) * 86_400_000_000 + MicroOfDay(a);
    assert Elapsed(b) == DayNumber(b) * 86_400_000_000 + MicroOfDay(b);
    assert MicroOfDay(a) < 86_400_000_000 && MicroOfDay(b) < 86_400_000_000;
    if EarlierDay(a, b) { DaysInOrder(a, b); }
    if EarlierDay(b, a) { DaysInOrder(b, a); }
  }

  // ---- text --------------------------------------------------------------------------------------

  function Digit(n: nat): char
    requires n < 10
  {
    '0' + n as char
  }

  /** The number in exactly `width` decimal digits. */
  function Digits(n: nat, width: nat): string
    decreases width
  {
    if width == 0 then "" else Digits(n / 10, width - 1) + [Digit(n % 10)]
  }

  function Pow10(width: nat): nat {
    if width == 0 then 1 else 10 * Pow10(width - 1)
  }

  /** Fixed-width numerals of equal width, followed by anything, compare by value first. */
  lemma {:induction false} DigitsOrder(a: nat, b: nat, width: nat, s: string, t: string)
    requires a < Pow10(width) && b < Pow10(width)
    ensures Less(Digits(a, width) + s, Digits(b, width) + t) <==> (a < b || (a == b && Less(s, t)))
    decreases width
  {
    if width == 0 {
      assert "" + s == s && "" + t == t;
    } else {
      var x, y := [Digit(a % 10)] + s, [Digit(b % 10)] + t;
      assert Digits(a, width) + s == Digits(a / 10, width - 1) + x;
      assert Digits(b, width) + t == Digits(b / 10, width - 1) + y;
      DigitsOrder(a / 10, b / 10, width - 1, x, y);
      assert x[1..] == s && y[1..] == t;
    }
  }

  /** One literal character between two numerals decides nothing. */
  lemma LiteralOrder(c: char, s: string, t: string)
    ensures Less([c] + s, [c] + t) <==> Less(s, t)
  {
    assert ([c] + s)[1..] == s && ([c] + t)[1..] == t;
  }

  function TimeText(t: Instant): string {
    "T" + (Digits(t.hour, 2)
           + (":" + (Digits(t.minute, 2) + (":" + (Digits(t.second, 2) + ("." + (Digits(t.micro, 6) + "+00:00")))))))
  }

  /** `isoformat(timespec="microseconds")` of a UTC instant. */
  function Text(t: Instant): string {
    Digits(t.year, 4) + ("-" + (Digits(t.month, 2) + ("-" + (Digits(t.day, 2) + TimeText(t)))))
  }

  lemma Powers()
    ensures Pow10(2) == 100 && Pow10(4) == 10_000 && Pow10(6) == 1_000_000
  {
    assert Pow10(3) == 1_000;
    assert Pow10(5) == 100_000;
  }

  lemma TimeTextOrder(a: Instant, b: Instant)
    requires Valid(a) && Valid(b)
    ensures Less(TimeText(a), TimeText(b)) <==> MicroOfDay(a) < MicroOfDay(b)
  {
    Powers();
    var a4, b4 := Digits(a.micro, 6) + "+00:00", Digits(b.micro, 6) + "+00:00";
    var a3, b3 := Digits(a.second, 2) + ("." + a4), Digits(b.second, 2) + ("." + b4);
    var a2, b2 := Digits(a.minute, 2) + (":" + a3), Digits(b.minute, 2) + (":" + b3);
    var a1, b1 := Digits(a.hour, 2) + (":" + a2), Digits(b.hour, 2) + (":" + b2);
    LessIrreflexive("+00:00");
    DigitsOrder(a.micro, b.micro, 6, "+00:00", "+00:00");
    LiteralOrder('.', a4, b4);
    DigitsOrder(a.second, b.second, 2, "." + a4, "." + b4);
    LiteralOrder(':', a3, b3);
    DigitsOrder(a.minute, b.minute, 2, ":" + a3, ":" + b3);
    LiteralOrder(':', a2, b2);
    DigitsOrder(a.hour, b.hour, 2, ":" + a2, ":" + b2);
    LiteralOrder('T', a1, b1);
    assert Less(TimeText(a), TimeText(b)) <==>
      (a.hour < b.hour || (a.hour == b.hour && (a.minute < b.minute || (a.minute == b.minute &&
      (a.second < b.second || (a.second == b.second && a.micro < b.micro))))));
  }

  /** Comparing the texts of two instants byte by byte is comparing the instants. */
  lemma TextOrderIsTimeOrder(a: Instant, b: Instant)
    requires Valid(a) && Valid(b)
    ensures Less(Text(a), Text(b)) <==> Elapsed(a) < Elapsed(b)
    ensures Text(a) == Text(b) <==> Elapsed(a) == Elapsed(b)
  {
    TextLess(a, b);
    TextLess(b, a);
    LessTotal(Text(a), Text(b));
    LessIrreflexive(Text(a));
  }

  lemma TextLess(a: Instant, b: Instant)
    requires Valid(a) && Valid(b)
    ensures Less(Text(a), Text(b)) <==> Elapsed(a) < Elapsed(b)
  {
    Powers();
    TimeTextOrder(a, b);
    var a2, b2 := Digits(a.day, 2) + TimeText(a), Digits(b.day, 2) + TimeText(b);
    var a1, b1 := Digits(a.month, 2) + ("-" + a2), Digits(b.month, 2) + ("-" + b2);
    DigitsOrder(a.day, b.day, 2, TimeText(a), TimeText(b));
    LiteralOrder('-', a2, b2);
    DigitsOrder(a.month, b.month, 2, "-" + a2, "-" + b2);
    LiteralOrder('-', a1, b1);
    DigitsOrder(a.year, b.year, 4, "-" + a1, "-" + b1);
    EarlierIsLessElapsed(a, b);
  }
}
