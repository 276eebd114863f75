/** Time values as days, years, months and dates (sections 21.4.1 of ECMA-262, proleptic Gregorian calendar). */
module Calendar {

  const MS_PER_DAY: int := 86400000
  const MS_PER_HOUR: int := 3600000

  function Day(t: int): int {
    t / MS_PER_DAY
  }

  function DayFromYear(y: int): int {
    365 * (y - 1970) + (y - 1969) / 4 - (y - 1901) / 100 + (y - 1601) / 400
  }

  predicate Leap(y: int) {
    y % 4 == 0 && (y % 100 != 0 || y % 400 == 0)
  }

  lemma Centuries(y: int)
    ensures (y % 400 == 0 ==> y % 100 == 0) && (y % 100 == 0 ==> y % 4 == 0)
  {
  }

  lemma FourthYear(y: int)
    ensures (y + 1 - 1969) / 4 - (y - 1969) / 4 == if y % 4 == 0 then 1 else 0
  {
  }

  lemma HundredthYear(y: int)
    ensures (y + 1 - 1901) / 100 - (y - 1901) / 100 == if y % 100 == 0 then 1 else 0
  {
  }

  lemma FourHundredthYear(y: int)
    ensures (y + 1 - 1601) / 400 - (y - 1601) / 400 == if y % 400 == 0 then 1 else 0
  {
  }

  lemma YearLength(y: int)
    ensures DayFromYear(y + 1) - DayFromYear(y) == if Leap(y) then 366 else 365
  {
    Centuries(y);
    FourthYear(y);
    HundredthYear(y);
    FourHundredthYear(y);
  }

  lemma {:induction false} YearsGrow(a: int, b: int)
    requires a <= b
    ensures DayFromYear(b) - DayFromYear(a) >= 365 * (b - a)
    decreases b - a
  {
    if a < b {
      YearsGrow(a, b - 1);
      YearLength(b - 1);
    }
  }

  predicate InYear(day: int, y: int) {
    DayFromYear(y) <= day < DayFromYear(y + 1)
  }

  /** Walking from the epoch, a day earlier or later is in the same year or in the one next to it. */
  lemma {:induction false} SomeYear(day: int) returns (r: int)
    ensures InYear(day, r)
    decreases if day < 0 then -day else day
  {
    if day == 0 {
      r := 1970;
    } else if day > 0 {
      r := SomeYear(day - 1);
      if day == DayFromYear(r + 1) {
        r := r + 1;
        YearLength(r);
      }
    } else {
      r := SomeYear(day + 1);
      if day < DayFromYear(r) {
        r := r - 1;
        YearLength(r);
      }
    }
  }

  lemma YearUnique(day: int, a: int, b: int)
    ensures InYear(day, a) && InYear(day, b) ==> a == b
  {
    if a < b {
      YearsGrow(a + 1, b);
    } else if b < a {
      YearsGrow(b + 1, a);
    }
  }

  lemma YearExists(day: int)
    ensures exists y :: InYear(day, y)
  {
    var y := SomeYear(day);
  }

  /** YearFromTime: the year whose days include this one. */
  ghost function Year(day: int): (y: int)
    ensures InYear(day, y)
  {
    YearExists(day);
    var y :| InYear(day, y);
    y
  }

  /** The day in the year on which month `m` starts, months counted from 0. */
  function MonthStart(leap: bool, m: nat): nat
    requires m <= 12
  {
    [0, 31, 59, 90, 120, 151, 181, 212, 243, 273, 304, 334, 365][m] + if leap && m >= 2 then 1 else 0
  }

  function MonthFrom(leap: bool, day: nat, m: nat): (r: nat)
    requires m < 12 && day < MonthStart(leap, m + 1)
    ensures r < 12 && MonthStart(leap, r) <= day < MonthStart(leap, r + 1)
  {
    if MonthStart(leap, m) <= day then m else MonthFrom(leap, day, m - 1)
  }

  /** A date of the calendar; months are counted from 0, dates from 1. */
  datatype Civil = Civil(year: int, month: nat, date: nat)

  /** The month and the date of a day of the year. */
  function DateOf(leap: bool, day: nat): (r: (nat, nat))
    requires day < if leap then 366 else 365
    ensures r.0 < 12 && 1 <= r.1 <= 31
    ensures MonthStart(leap, r.0) + r.1 - 1 == day
    ensures r.1 <= MonthStart(leap, r.0 + 1) - MonthStart(leap, r.0)
  {
    var m := MonthFrom(leap, day, 11);
    (m, day - MonthStart(leap, m) + 1)
  }

  ghost function CivilOf(day: int): (c: Civil)
    ensures c.month < 12 && 1 <= c.date <= 31
    ensures DayFromYear(c.year) + MonthStart(Leap(c.year), c.month) + c.date - 1 == day
    ensures c.date <= MonthStart(Leap(c.year), c.month + 1) - MonthStart(Leap(c.year), c.month)
    ensures InYear(day, c.year)
  {
    var y := Year(day);
    YearLength(y);
    var (month, date) := DateOf(Leap(y), day - DayFromYear(y));
    Civil(y, month, date)
  }

  predicate Earlier(a: Civil, b: Civil) {
    || a.year < b.year
    || (a.year == b.year && a.month < b.month)
    || (a.year == b.year && a.month == b.month && a.date < b.date)
  }

  lemma MonthsGrow(leap: bool, a: nat, b: nat)
    requires a <= b <= 12
    ensures MonthStart(leap, a) <= MonthStart(leap, b)
  {
  }

  /** The calendar order is the order of the days. */
  lemma CivilOrder(a: int, b: int)
    ensures a < b <==> Earlier(CivilOf(a), CivilOf(b))
    ensures a == b <==> CivilOf(a) == CivilOf(b)
  {
    if a < b {
      CivilForward(a, b);
    } else if b < a {
      CivilForward(b, a);
    }
  }

  lemma CivilForward(a: int, b: int)
    requires a < b
    ensures Earlier(CivilOf(a), CivilOf(b))
  {
    var c, d := CivilOf(a), CivilOf(b);
    if c.year > d.year {
      YearsGrow(d.year + 1, c.year);
    } else if c.year == d.year && c.month > d.month {
      MonthsGrow(Leap(c.year), d.month + 1, c.month);
    }
  }

  // ----- fixed-width decimal text and its order

  function Pow10(n: nat): (r: nat)
    ensures r > 0
  {
    if n == 0 then 1 else 10 * Pow10(n - 1)
  }

  /** `n.toString().padStart(width, "0")` for a number that fits. */
  function Decimal(n: nat, width: nat): (r: string)
    requires n < Pow10(width)
    ensures |r| == width
    ensures forall i :: 0 <= i < width ==> '0' <= r[i] <= '9'
  {
    if width == 0 then "" else Decimal(n / 10, width - 1) + ['0' + (n % 10) as char]
  }

  /** JavaScript's `<` on strings. */
  predicate Less(a: string, b: string) {
    b != "" && (a == "" || a[0] < b[0] || (a[0] == b[0] && Less(a[1..], b[1..])))
  }

  lemma {:induction false} LessIrreflexive(a: string)
    ensures !Less(a, a)
  {
    if a != "" {
      LessIrreflexive(a[1..]);
    }
  }

  lemma {:induction false} LessAsymmetric(a: string, b: string)
    requires Less(a, b)
    ensures !Less(b, a) && a != b
  {
    if a != "" && a[0] == b[0] {
      LessAsymmetric(a[1..], b[1..]);
    }
  }

  /** A difference in texts of equal length decides, whatever follows. */
  lemma {:induction false} LessHead(a: string, b: string, x: string, y: string)
    requires |a| == |b| && Less(a, b)
    ensures Less(a + x, b + y)
    decreases |a|
  {
    if a != "" {
      assert (a + x)[1..] == a[1..] + x && (b + y)[1..] == b[1..] + y;
      if a[0] == b[0] {
        LessHead(a[1..], b[1..], x, y);
      }
    }
  }

  lemma {:induction false} LessTail(p: string, a: string, b: string)
    requires Less(a, b)
    ensures Less(p + a, p + b)
    decreases |p|
  {
    if p == "" {
      assert p + a == a && p + b == b;
    } else {
      assert (p + a)[1..] == p[1..] + a && (p + b)[1..] == p[1..] + b;
      LessTail(p[1..], a, b);
    }
  }

  lemma {:induction false} DecimalOrder(m: nat, n: nat, width: nat)
    requires m < n < Pow10(width)
    ensures Less(Decimal(m, width), Decimal(n, width))
    decreases width
  {
    assert width > 0;
    var x, y := ['0' + (m % 10) as char], ['0' + (n % 10) as char];
    if m / 10 == n / 10 {
      assert Less(x, y);
      LessTail(Decimal(m / 10, width - 1), x, y);
    } else {
      DecimalOrder(m / 10, n / 10, width - 1);
      LessHead(Decimal(m / 10, width - 1), Decimal(n / 10, width - 1), x, y);
    }
  }
}
