/**
 Calendar dates, their day numbers and their ISO spelling (currscript.js:897-901,
 scripts/validate-package.js:493-497).
 */
module Calendar {
  import opened Names

  datatype Civil = Civil(year: nat, month: nat, day: nat)

  predicate Leap(year: nat) { year % 400 == 0 || (year % 4 == 0 && year % 100 != 0) }

  function MonthLength(year: nat, month: nat): nat {
    if month == 2 then (if Leap(year) then 29 else 28)
    else if month in {4, 6, 9, 11} then 30
    else 31
  }

  predicate IsDate(d: Civil) {
    d.year <= 9999 && 1 <= d.month <= 12 && 1 <= d.day <= MonthLength(d.year, d.month)
  }

  type Date = d: Civil | IsDate(d) witness Civil(1970, 1, 1)

  function YearLength(year: nat): nat { if Leap(year) then 366 else 365 }

  function DaysBeforeYear(year: nat): nat {
    if year == 0 then 0 else DaysBeforeYear(year - 1) + YearLength(year - 1)
  }

  function DaysBeforeMonth(year: nat, month: nat): nat {
    if month <= 1 then 0 else DaysBeforeMonth(year, month - 1) + MonthLength(year, month - 1)
  }

  /** Days since the first day of year 0. */
  function DayNumber(d: Date): nat {
    DaysBeforeYear(d.year) + DaysBeforeMonth(d.year, d.month) + d.day - 1
  }

  predicate Before(a: Date, b: Date) {
    a.year < b.year || (a.year == b.year && (a.month < b.month || (a.month == b.month && a.day < b.day)))
  }

  lemma {:induction false} MonthsGrow(year: nat, m: nat, n: nat)
    requires 1 <= m < n
    ensures DaysBeforeMonth(year, m) + MonthLength(year, m) <= DaysBeforeMonth(year, n)
  {
    if m < n - 1 { MonthsGrow(year, m, n - 1); }
  }

  lemma MonthsFill(year: nat)
    ensures DaysBeforeMonth(year, 12) + 31 == YearLength(year)
  {
    var february := MonthLength(year, 2);
    assert DaysBeforeMonth(year, 2) == 31;
    assert DaysBeforeMonth(year, 4) == february + 62;
    assert DaysBeforeMonth(year, 6) == february + 123;
    assert DaysBeforeMonth(year, 8) == february + 184;
    assert DaysBeforeMonth(year, 10) == february + 245;
  }

  lemma {:induction false} YearsGrow(y: nat, z: nat)
    requires y < z
    ensures DaysBeforeYear(y) + YearLength(y) <= DaysBeforeYear(z)
  {
    if y < z - 1 { YearsGrow(y, z - 1); }
  }

  /** A leap day every fourth year, except in three of four centuries. */
  lemma {:induction false} YearsInClosedForm(year: nat)
    ensures DaysBeforeYear(year) == 365 * year + (year + 3) / 4 - (year + 99) / 100 + (year + 399) / 400
  {
    if year > 0 {
      YearsInClosedForm(year - 1);
      FourYears(year - 1);
      Centuries(year - 1);
      FourCenturies(year - 1);
      LeapCounts(year - 1);
      hide YearLength;
    }
  }

  lemma FourYears(y: nat)
    ensures (y + 4) / 4 - (y + 3) / 4 == if y % 4 == 0 then 1 else 0
  {
  }

  lemma Centuries(y: nat)
    ensures (y + 100) / 100 - (y + 99) / 100 == if y % 100 == 0 then 1 else 0
  {
  }

  lemma FourCenturies(y: nat)
    ensures (y + 400) / 400 - (y + 399) / 400 == if y % 400 == 0 then 1 else 0
  {
  }

  lemma LeapCounts(y: nat)
    ensures YearLength(y) == 365 + (if y % 4 == 0 then 1 else 0) - (if y % 100 == 0 then 1 else 0) +
      if y % 400 == 0 then 1 else 0
  {
    if y % 100 == 0 { assert y == 4 * (25 * (y / 100)); }
    if y % 400 == 0 { assert y == 100 * (4 * (y / 400)); }
  }

  const DAYS_BEFORE_MONTH := [0, 31, 59, 90, 120, 151, 181, 212, 243, 273, 304, 334]

  lemma {:induction false} MonthsInTable(year: nat, month: nat)
    requires 1 <= month <= 12
    ensures DaysBeforeMonth(year, month) == DAYS_BEFORE_MONTH[month - 1] + if month > 2 && Leap(year) then 1 else 0
  {
    if month > 1 { MonthsInTable(year, month - 1); }
  }

  /** The day number of a date in closed form; the Unix epoch is day 719528. */
  lemma DayNumberIs(d: Date)
    ensures var leapDays := (d.year + 3) / 4 - (d.year + 99) / 100 + (d.year + 399) / 400;
      var leapDays' := (d.year + 4) / 4 - (d.year + 100) / 100 + (d.year + 400) / 400;
      DayNumber(d) ==
        365 * d.year + leapDays + DAYS_BEFORE_MONTH[d.month - 1] + (if d.month > 2 then leapDays' - leapDays else 0) +
        d.day - 1
    ensures d == Civil(1970, 1, 1) ==> DayNumber(d) == 719528
  {
    YearsInClosedForm(d.year);
    YearsInClosedForm(d.year + 1);
    MonthsInTable(d.year, d.month);
    hide DaysBeforeMonth, DAYS_BEFORE_MONTH;
  }

  lemma WithinYear(d: Date)
    ensures DaysBeforeMonth(d.year, d.month) + d.day <= YearLength(d.year)
  {
    MonthsFill(d.year);
    if d.month < 12 { MonthsGrow(d.year, d.month, 12); }
  }

  /** Day numbers follow the calendar. */
  lemma DaysFollowCalendar(a: Date, b: Date)
    ensures Before(a, b) <==> DayNumber(a) < DayNumber(b)
    ensures a == b <==> DayNumber(a) == DayNumber(b)
  {
    if Before(a, b) { Later(a, b); }
    else if Before(b, a) { Later(b, a); }
  }

  lemma Later(a: Date, b: Date)
    requires Before(a, b)
    ensures DayNumber(a) < DayNumber(b)
  {
    WithinYear(a);
    if a.year < b.year { YearsGrow(a.year, b.year); }
    else if a.month < b.month { MonthsGrow(a.year, a.month, b.month); }
  }

  // ---- counting back ------------------------------------------------------------------

  function PreviousDay(d: Date): Date
    requires DayNumber(d) > 0
  {
    if d.day > 1 then d.(day := d.day - 1)
    else if d.month > 1 then Civil(d.year, d.month - 1, MonthLength(d.year, d.month - 1))
    else if d.year > 0 then Civil(d.year - 1, 12, 31)
    else d
  }

  lemma MonthStep(year: nat, month: nat)
    requires month > 1
    ensures DaysBeforeMonth(year, month) == DaysBeforeMonth(year, month - 1) + MonthLength(year, month - 1)
  {
  }

  lemma YearStep(year: nat)
    requires year > 0
    ensures DaysBeforeYear(year) == DaysBeforeYear(year - 1) + DaysBeforeMonth(year - 1, 12) + 31
  {
    MonthsFill(year - 1);
  }

  lemma FirstDayIsZero(d: Date)
    requires d == Civil(0, 1, 1)
    ensures DayNumber(d) == 0
  {
  }

  lemma PreviousDayNumber(d: Date)
    requires DayNumber(d) > 0
    ensures DayNumber(PreviousDay(d)) == DayNumber(d) - 1
  {
    hide DaysBeforeYear, DaysBeforeMonth, MonthLength;
    if d == Civil(0, 1, 1) { FirstDayIsZero(d); }
    else if d.day == 1 && d.month > 1 { MonthStep(d.year, d.month); }
    else if d.day == 1 { YearStep(d.year); JanuaryStarts(d.year); }
  }

  lemma JanuaryStarts(year: nat)
    ensures DaysBeforeMonth(year, 1) == 0
  {
  }

  /** The date `n` days before, as a date library finds it. */
  function DaysBefore(d: Date, n: nat): Date
    requires DayNumber(d) >= n
    decreases n
  {
    if n == 0 then d else
      PreviousDayNumber(d);
      DaysBefore(PreviousDay(d), n - 1)
  }

  lemma {:induction false} DaysBeforeNumber(d: Date, n: nat)
    requires DayNumber(d) >= n
    ensures DayNumber(DaysBefore(d, n)) == DayNumber(d) - n
    decreases n
  {
    if n > 0 {
      PreviousDayNumber(d);
      DaysBeforeNumber(PreviousDay(d), n - 1);
    }
  }

  function DaysBetween(start: Date, end: Date): int { DayNumber(end) - DayNumber(start) }

  // ---- ISO spelling ---------------------------------------------------------------------

  function Digit(n: nat): char
    requires n < 10
  {
    '0' + n as char
  }

  function TwoDigits(n: nat): string
    requires n < 100
  {
    [Digit(n / 10), Digit(n % 10)]
  }

  function Iso(d: Date): string {
    TwoDigits(d.year / 100) + (TwoDigits(d.year % 100) + ("-" + (TwoDigits(d.month) + ("-" + TwoDigits(d.day)))))
  }

  lemma TwoDigitsOrder(a: nat, b: nat)
    requires a < 100 && b < 100
    ensures LexLess(TwoDigits(a), TwoDigits(b)) <==> a < b
    ensures TwoDigits(a) == TwoDigits(b) <==> a == b
  {
    var s, t := TwoDigits(a), TwoDigits(b);
    assert s[1..] == [Digit(a % 10)] && t[1..] == [Digit(b % 10)];
    assert s[1..][1..] == [] && t[1..][1..] == [];
    assert LexLess(s[1..], t[1..]) <==> a % 10 < b % 10;
    assert a == 10 * (a / 10) + a % 10 && b == 10 * (b / 10) + b % 10;
    if s == t { assert s[0] == t[0] && s[1] == t[1]; }
  }

  /** Strings with prefixes of equal length compare by prefix first. */
  lemma {:induction false} LexLessConcat(p: string, a: string, q: string, b: string)
    requires |p| == |q|
    ensures LexLess(p + a, q + b) <==> LexLess(p, q) || (p == q && LexLess(a, b))
  {
    if p == [] {
      assert p + a == a && q + b == b;
    } else {
      assert (p + a)[1..] == p[1..] + a && (q + b)[1..] == q[1..] + b;
      LexLessConcat(p[1..], a, q[1..], b);
      assert p == [p[0]] + p[1..] && q == [q[0]] + q[1..];
    }
  }

  lemma PrefixOrder(m: nat, a: string, n: nat, b: string)
    requires m < 100 && n < 100
    ensures LexLess(TwoDigits(m) + a, TwoDigits(n) + b) <==> m < n || (m == n && LexLess(a, b))
  {
    LexLessConcat(TwoDigits(m), a, TwoDigits(n), b);
    TwoDigitsOrder(m, n);
  }

  lemma DashOrder(a: string, b: string)
    ensures LexLess("-" + a, "-" + b) <==> LexLess(a, b)
  {
    LexLessConcat("-", a, "-", b);
    LexLessIrreflexive("-");
  }

  lemma IsoOrder(a: Date, b: Date)
    ensures LexLess(Iso(a), Iso(b)) <==> Before(a, b)
  {
    hide LexLess, TwoDigits;
    var da, db := TwoDigits(a.day), TwoDigits(b.day);
    var ma, mb := TwoDigits(a.month) + ("-" + da), TwoDigits(b.month) + ("-" + db);
    var ya, yb := TwoDigits(a.year % 100) + ("-" + ma), TwoDigits(b.year % 100) + ("-" + mb);
    PrefixOrder(a.year / 100, ya, b.year / 100, yb);
    PrefixOrder(a.year % 100, "-" + ma, b.year % 100, "-" + mb);
    DashOrder(ma, mb);
    PrefixOrder(a.month, "-" + da, b.month, "-" + db);
    DashOrder(da, db);
    TwoDigitsOrder(a.day, b.day);
  }

  /** Comparing ISO strings compares dates. */
  lemma IsoFollowsCalendar(a: Date, b: Date)
    ensures LexLess(Iso(a), Iso(b)) <==> DayNumber(a) < DayNumber(b)
    ensures Iso(a) == Iso(b) <==> a == b
  {
    hide Iso, DayNumber, LexLess;
    IsoOrder(a, b);
    IsoOrder(b, a);
    DaysFollowCalendar(a, b);
    LexLessIrreflexive(Iso(a));
    hide Before;
    DaysFollowCalendar(b, a);
  }
}
