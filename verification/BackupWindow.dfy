/** `backupWindow`: the name of the twelve-hour UTC window of an instant. */
module BackupWindow {
  import opened Calendar

  const MS_PER_WINDOW: int := 43200000
  /** The largest time value of a Date. */
  const MAX_TIME: int := 8640000000000000

  predicate IsTime(t: int) {
    -MAX_TIME <= t <= MAX_TIME
  }

  /** getUTCHours() */
  function Hours(t: int): (h: nat)
    ensures h < 24
  {
    (t % MS_PER_DAY) / MS_PER_HOUR
  }

  predicate InRange(c: Civil) {
    -1000000 < c.year < 1000000 && c.month < 12 && 1 <= c.date <= 31
  }

  /** The year has four digits in toISOString(). */
  predicate Plain(c: Civil) {
    0 <= c.year <= 9999
  }

  /** Four digits, or a sign and six. */
  function YearText(y: int): (r: string)
    requires -1000000 < y < 1000000
    ensures |r| == if 0 <= y <= 9999 then 4 else 7
  {
    if 0 <= y <= 9999 then Decimal(y, 4) else if y < 0 then "-" + Decimal(-y, 6) else "+" + Decimal(y, 6)
  }

  /** The date part of toISOString(). */
  function IsoDate(c: Civil): (r: string)
    requires InRange(c)
    ensures |r| == if Plain(c) then 10 else 13
  {
    YearText(c.year) + "-" + Decimal(c.month + 1, 2) + "-" + Decimal(c.date, 2)
  }

  /** The first ten characters of the ISO text, and the hour the window starts at. */
  function Name(c: Civil, half: nat): string
    requires InRange(c) && half < 2
  {
    IsoDate(c)[..10] + ("T" + Decimal(half * 12, 2))
  }

  lemma {:induction false} YearsInRange(t: int)
    requires IsTime(t)
    ensures InRange(CivilOf(Day(t)))
  {
    var y := CivilOf(Day(t)).year;
    assert -100000000 <= Day(t) <= 100000000;
    if y >= 1000000 {
      YearsGrow(1000000, y);
    } else if y <= -1000000 {
      YearsGrow(y + 1, -999999);
    }
  }

  ghost function WindowName(t: int): string
    requires IsTime(t)
  {
    YearsInRange(t);
    Name(CivilOf(Day(t)), Hours(t) / 12)
  }

  /** Which window since the epoch: floor(t / 43200000). */
  function Index(t: int): int {
    t / MS_PER_WINDOW
  }

  lemma IndexParts(t: int)
    ensures Index(t) == 2 * Day(t) + Hours(t) / 12
  {
    var d, r := Day(t), t % MS_PER_DAY;
    assert t == d * MS_PER_DAY + r;
    assert Hours(t) / 12 == r / MS_PER_WINDOW;
  }

  lemma IndexOrder(t: int, u: int)
    requires Index(t) < Index(u)
    ensures Day(t) < Day(u) || (Day(t) == Day(u) && Hours(t) / 12 < Hours(u) / 12)
  {
    IndexParts(t);
    IndexParts(u);
  }

  lemma SameIndex(t: int, u: int)
    requires Index(t) == Index(u)
    ensures Day(t) == Day(u) && Hours(t) / 12 == Hours(u) / 12
  {
    IndexParts(t);
    IndexParts(u);
  }

  // ----- four-digit years

  function MonthText(c: Civil, half: nat): string
    requires InRange(c) && half < 2
  {
    "-" + (Decimal(c.month + 1, 2) + DateText(c, half))
  }

  function DateText(c: Civil, half: nat): string
    requires InRange(c) && half < 2
  {
    "-" + (Decimal(c.date, 2) + ("T" + Decimal(half * 12, 2)))
  }

  lemma PlainName(c: Civil, half: nat)
    requires InRange(c) && Plain(c) && half < 2
    ensures Name(c, half) == Decimal(c.year, 4) + MonthText(c, half)
  {
    assert IsoDate(c)[..10] == IsoDate(c);
  }

  lemma DateLess(c: Civil, h: nat, d: Civil, k: nat)
    requires InRange(c) && InRange(d) && h < 2 && k < 2 && (c.date < d.date || (c.date == d.date && h < k))
    ensures Less(DateText(c, h), DateText(d, k))
  {
    var x, y := "T" + Decimal(h * 12, 2), "T" + Decimal(k * 12, 2);
    if c.date < d.date {
      DecimalOrder(c.date, d.date, 2);
      LessHead(Decimal(c.date, 2), Decimal(d.date, 2), x, y);
    } else {
      DecimalOrder(h * 12, k * 12, 2);
      LessTail("T", Decimal(h * 12, 2), Decimal(k * 12, 2));
      LessTail(Decimal(c.date, 2), x, y);
    }
    LessTail("-", Decimal(c.date, 2) + x, Decimal(d.date, 2) + y);
  }

  lemma MonthLess(c: Civil, h: nat, d: Civil, k: nat)
    requires InRange(c) && InRange(d) && h < 2 && k < 2
    requires c.month < d.month || (c.month == d.month && (c.date < d.date || (c.date == d.date && h < k)))
    ensures Less(MonthText(c, h), MonthText(d, k))
  {
    var p, q := Decimal(c.month + 1, 2), Decimal(d.month + 1, 2);
    if c.month < d.month {
      DecimalOrder(c.month + 1, d.month + 1, 2);
      LessHead(p, q, DateText(c, h), DateText(d, k));
    } else {
      DateLess(c, h, d, k);
      LessTail(p, DateText(c, h), DateText(d, k));
    }
    LessTail("-", p + DateText(c, h), q + DateText(d, k));
  }

  lemma NameLess(c: Civil, h: nat, d: Civil, k: nat)
    requires InRange(c) && InRange(d) && Plain(c) && Plain(d) && h < 2 && k < 2
    requires Earlier(c, d) || (c == d && h < k)
    ensures Less(Name(c, h), Name(d, k))
  {
    PlainName(c, h);
    PlainName(d, k);
    if c.year < d.year {
      DecimalOrder(c.year, d.year, 4);
      LessHead(Decimal(c.year, 4), Decimal(d.year, 4), MonthText(c, h), MonthText(d, k));
    } else {
      MonthLess(c, h, d, k);
      LessTail(Decimal(c.year, 4), MonthText(c, h), MonthText(d, k));
    }
  }

  lemma EarlierName(t: int, u: int)
    requires IsTime(t) && IsTime(u) && Plain(CivilOf(Day(t))) && Plain(CivilOf(Day(u))) && Index(t) < Index(u)
    ensures Less(WindowName(t), WindowName(u))
  {
    IndexOrder(t, u);
    CivilOrder(Day(t), Day(u));
    YearsInRange(t);
    YearsInRange(u);
    NameLess(CivilOf(Day(t)), Hours(t) / 12, CivilOf(Day(u)), Hours(u) / 12);
  }

  /** For four-digit years a name stands for exactly one window, and names sort as the windows do. */
  lemma NamesAreWindows(t: int, u: int)
    requires IsTime(t) && IsTime(u) && Plain(CivilOf(Day(t))) && Plain(CivilOf(Day(u)))
    ensures WindowName(t) == WindowName(u) <==> Index(t) == Index(u)
    ensures Less(WindowName(t), WindowName(u)) <==> Index(t) < Index(u)
  {
    if Index(t) < Index(u) {
      EarlierName(t, u);
      LessAsymmetric(WindowName(t), WindowName(u));
    } else if Index(u) < Index(t) {
      EarlierName(u, t);
      LessAsymmetric(WindowName(u), WindowName(t));
    } else {
      SameIndex(t, u);
      LessIrreflexive(WindowName(t));
    }
  }

  // ----- other years lose the date

  lemma DecimalInjective(m: nat, n: nat, width: nat)
    requires m < Pow10(width) && n < Pow10(width) && Decimal(m, width) == Decimal(n, width)
    ensures m == n
  {
    LessIrreflexive(Decimal(m, width));
    if m < n {
      DecimalOrder(m, n, width);
    } else if n < m {
      DecimalOrder(n, m, width);
    }
  }

  /** The name of a year that needs a sign: the year, the month and the half of the day. */
  lemma ExpandedName(c: Civil, half: nat)
    requires InRange(c) && !Plain(c) && half < 2
    ensures Name(c, half) == YearText(c.year) + "-" + Decimal(c.month + 1, 2) + ("T" + Decimal(half * 12, 2))
    ensures |Name(c, half)| == 13 && Name(c, half)[..7] == YearText(c.year)
    ensures Name(c, half)[8..10] == Decimal(c.month + 1, 2) && Name(c, half)[11..] == Decimal(half * 12, 2)
  {
    assert IsoDate(c)[..10] == YearText(c.year) + "-" + Decimal(c.month + 1, 2);
  }

  lemma YearTextInjective(a: int, b: int)
    requires -1000000 < a < 1000000 && -1000000 < b < 1000000 && YearText(a) == YearText(b)
    ensures a == b
  {
    var s, t := YearText(a), YearText(b);
    if 0 <= a <= 9999 {
      DecimalInjective(a, b, 4);
    } else {
      assert s[0] == (if a < 0 then '-' else '+') && t[0] == (if b < 0 then '-' else '+');
      var m, n := if a < 0 then -a else a, if b < 0 then -b else b;
      assert s[1..] == Decimal(m, 6) && t[1..] == Decimal(n, 6);
      DecimalInjective(m, n, 6);
    }
  }

  /**
    When two instants share a name, for any years: with four-digit years exactly when the window is the same,
    otherwise exactly when year, month and half of the day are the same. The date is lost.
   */
  lemma SharedName(t: int, u: int)
    requires IsTime(t) && IsTime(u)
    ensures var c, d := CivilOf(Day(t)), CivilOf(Day(u));
            WindowName(t) == WindowName(u) <==>
            if Plain(c) && Plain(d) then Index(t) == Index(u)
            else c.year == d.year && c.month == d.month && Hours(t) / 12 == Hours(u) / 12
  {
    var c, d, h, k := CivilOf(Day(t)), CivilOf(Day(u)), Hours(t) / 12, Hours(u) / 12;
    YearsInRange(t);
    YearsInRange(u);
    if Plain(c) && Plain(d) {
      NamesAreWindows(t, u);
    } else if Plain(c) || Plain(d) {
      MixedNames(c, h, d, k);
    } else {
      ExpandedNames(c, h, d, k);
    }
  }

  lemma MixedNames(c: Civil, h: nat, d: Civil, k: nat)
    requires InRange(c) && InRange(d) && h < 2 && k < 2 && Plain(c) != Plain(d)
    ensures Name(c, h) != Name(d, k)
  {
    var e, f := if Plain(c) then c else d, if Plain(c) then d else c;
    var i, j := if Plain(c) then h else k, if Plain(c) then k else h;
    PlainName(e, i);
    ExpandedName(f, j);
    assert Name(e, i)[0] == Decimal(e.year, 4)[0];
    assert Name(f, j)[0] == YearText(f.year)[0];
  }

  lemma ExpandedNames(c: Civil, h: nat, d: Civil, k: nat)
    requires InRange(c) && InRange(d) && h < 2 && k < 2 && !Plain(c) && !Plain(d)
    ensures Name(c, h) == Name(d, k) <==> c.year == d.year && c.month == d.month && h == k
  {
    ExpandedName(c, h);
    ExpandedName(d, k);
    if Name(c, h) == Name(d, k) {
      PartsInjective(c, h, d, k);
    }
  }

  lemma PartsInjective(c: Civil, h: nat, d: Civil, k: nat)
    requires InRange(c) && InRange(d) && h < 2 && k < 2 && YearText(c.year) == YearText(d.year)
    requires Decimal(c.month + 1, 2) == Decimal(d.month + 1, 2) && Decimal(h * 12, 2) == Decimal(k * 12, 2)
    ensures c.year == d.year && c.month == d.month && h == k
  {
    YearTextInjective(c.year, d.year);
    DecimalInjective(c.month + 1, d.month + 1, 2);
    DecimalInjective(h * 12, k * 12, 2);
  }

  /** In every year written with a sign, windows of the first two days have the same name. */
  lemma NamesCollide(t: int, y: int)
    requires (y < 0 || y > 9999) && Day(t) == DayFromYear(y) && IsTime(t) && IsTime(t + MS_PER_DAY)
    ensures WindowName(t) == WindowName(t + MS_PER_DAY) && Index(t) != Index(t + MS_PER_DAY)
  {
    FirstTwoDays(t, y);
    SharedName(t, t + MS_PER_DAY);
  }

  lemma FirstTwoDays(t: int, y: int)
    requires Day(t) == DayFromYear(y)
    ensures var c, d := CivilOf(Day(t)), CivilOf(Day(t + MS_PER_DAY));
            c.year == d.year == y && c.month == d.month == 0
    ensures Hours(t + MS_PER_DAY) == Hours(t) && Index(t + MS_PER_DAY) != Index(t)
  {
    NextDay(t);
    FirstDays(y);
  }

  lemma NextDay(t: int)
    ensures Day(t + MS_PER_DAY) == Day(t) + 1 && Hours(t + MS_PER_DAY) == Hours(t)
    ensures Index(t + MS_PER_DAY) == Index(t) + 2
  {
    IndexParts(t);
    IndexParts(t + MS_PER_DAY);
  }

  /** The instants of four-digit years: from 0000-01-01 up to the end of 9999-12-31. */
  lemma PlainRange(t: int)
    ensures Plain(CivilOf(Day(t))) <==> -62167219200000 <= t < 253402300800000
  {
    var y := CivilOf(Day(t)).year;
    assert DayFromYear(0) == -719528 && DayFromYear(10000) == 2932897;
    if y < 0 {
      YearsGrow(y + 1, 0);
    } else if y > 9999 {
      YearsGrow(10000, y);
    } else {
      YearsGrow(0, y);
      YearsGrow(y + 1, 10000);
    }
  }

  lemma FirstDays(y: int)
    ensures var c, d := CivilOf(DayFromYear(y)), CivilOf(DayFromYear(y) + 1);
            c.year == d.year == y && c.month == d.month == 0
  {
    EarlyDay(CivilOf(DayFromYear(y)), DayFromYear(y), y);
    EarlyDay(CivilOf(DayFromYear(y) + 1), DayFromYear(y) + 1, y);
  }

  lemma EarlyDay(c: Civil, day: int, y: int)
    requires c.month < 12 && InYear(day, c.year) && DayFromYear(y) <= day <= DayFromYear(y) + 1
    requires DayFromYear(c.year) + MonthStart(Leap(c.year), c.month) < day + 1
    ensures c.year == y && c.month == 0
  {
    YearLength(y);
    YearUnique(day, c.year, y);
    MonthsGrow(Leap(y), 1, c.month + 1);
  }
}
