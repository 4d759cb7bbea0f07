/** The mail time format: the days-to-civil conversion against the calendar itself, and the
    order of the printed text. */
module Calendar {
  datatype Date = Date(year: int, month: int, day: int)

  /** The date of day `days` since 1970-01-01, as computed. */
  function CivilOf(days: int): Date {
    var z := days + 719_468;
    DateInEra(z / 146_097, z % 146_097)
  }

  /** The date of day `doe` of an era of 400 years starting on 1 March. */
  function DateInEra(era: int, doe: int): Date {
    var yoe := YearOfEra(doe);
    var doy := doe - EraDays(yoe);
    DateInYear(yoe + era * 400, doy)
  }

  /** The date of day `doy` of the year starting on 1 March of `year`. */
  function DateInYear(year: int, doy: int): Date {
    var mp := (5 * doy + 2) / 153;
    var day := doy - (153 * mp + 2) / 5 + 1;
    var month := if mp < 10 then mp + 3 else mp - 9;
    Date(year + (if month <= 2 then 1 else 0), month, day)
  }

  function YearOfEra(doe: int): int {
    (doe - doe / 1460 + doe / 36_524 - doe / 146_096) / 365
  }

  // ----- the proleptic Gregorian calendar -----

  predicate Leap(year: int) {
    year % 4 == 0 && (year % 100 != 0 || year % 400 == 0)
  }

  function DaysIn(year: int, month: int): int {
    if month == 2 then (if Leap(year) then 29 else 28)
    else if month == 4 || month == 6 || month == 9 || month == 11 then 30
    else 31
  }

  predicate ValidDate(d: Date) {
    1 <= d.month <= 12 && 1 <= d.day <= DaysIn(d.year, d.month)
  }

  function NextDay(d: Date): Date {
    if d.day < DaysIn(d.year, d.month) then d.(day := d.day + 1)
    else if d.month < 12 then Date(d.year, d.month + 1, 1)
    else Date(d.year + 1, 1, 1)
  }

  // ----- days counted in eras of 400 years from 1 March -----

  /** Days of an era before its `y`-th year. */
  function EraDays(y: int): int {
    365 * y + y / 4 - y / 100
  }

  /** Length of the `y`-th year of an era: it ends with the February of the next. */
  function EraYearLength(y: int): int {
    if Leap(y + 1) then 366 else 365
  }

  lemma EraDaysStep(y: int)
    requires 0 <= y < 400
    ensures EraDays(y) + EraYearLength(y) == if y == 399 then 146_097 else EraDays(y + 1)
  {
  }

  /** A day of an era is a century, a four-year block, a year in it and a day of that. */
  lemma YearOfEraOfParts(c: int, q: int, t: int)
    requires 0 <= c <= 3 && 0 <= q <= 24 && 0 <= t <= 1460 && (q == 24 && c < 3 ==> t < 1460)
    ensures var k := if t == 1460 then 3 else t / 365;
            var doe := 36_524 * c + 1461 * q + t;
            YearOfEra(doe) == 100 * c + 4 * q + k && EraDays(100 * c + 4 * q + k) == doe - t + 365 * k
  {
    var k := if t == 1460 then 3 else t / 365;
    var doe := 36_524 * c + 1461 * q + t;
    var late := if 24 * c + q + t < 1460 then 0 else 1;
    assert doe / 1460 == 25 * c + q + late;
    if doe < 146_096 {
      assert doe / 36_524 == c;
      assert doe - doe / 1460 + doe / 36_524 - doe / 146_096 == 365 * (100 * c + 4 * q) + t - late;
    }
    assert (100 * c + 4 * q + k) / 4 == 25 * c + q;
    assert (100 * c + 4 * q + k) / 100 == c;
  }

  lemma YearOfEraFits(doe: int)
    requires 0 <= doe < 146_097
    ensures 0 <= YearOfEra(doe) < 400
    ensures EraDays(YearOfEra(doe)) <= doe < EraDays(YearOfEra(doe)) + EraYearLength(YearOfEra(doe))
  {
    var c, q, t := PartsOf(doe);
    YearOfEraOfParts(c, q, t);
    PartsFit(c, q, t);
  }

  lemma PartsOf(doe: int) returns (c: int, q: int, t: int)
    requires 0 <= doe < 146_097
    ensures doe == 36_524 * c + 1461 * q + t
    ensures 0 <= c <= 3 && 0 <= q <= 24 && 0 <= t <= 1460 && (q == 24 && c < 3 ==> t < 1460)
  {
    c := if doe == 146_096 then 3 else doe / 36_524;
    var r := doe - 36_524 * c;
    q, t := r / 1461, r % 1461;
  }

  /** The last day of a four-year block is the one its fourth year has more. */
  lemma PartsFit(c: int, q: int, t: int)
    requires 0 <= c <= 3 && 0 <= q <= 24 && 0 <= t <= 1460 && (q == 24 && c < 3 ==> t < 1460)
    ensures var k := if t == 1460 then 3 else t / 365;
            0 <= 100 * c + 4 * q + k < 400 && 0 <= t - 365 * k < EraYearLength(100 * c + 4 * q + k)
  {
  }

  lemma {:induction false} EraDaysMonotone(x: int, y: int)
    requires 0 <= x < y < 400
    ensures EraDays(x) + EraYearLength(x) <= EraDays(y)
    decreases y - x
  {
    EraDaysStep(x);
    if x + 1 < y {
      EraDaysMonotone(x + 1, y);
    }
  }

  /** The year a day falls in is the only one it fits. */
  lemma YearOfEraUnique(y: int, doy: int)
    requires 0 <= y < 400 && 0 <= doy < EraYearLength(y)
    ensures 0 <= EraDays(y) + doy < 146_097 && YearOfEra(EraDays(y) + doy) == y
  {
    EraDaysStep(y);
    if y < 399 {
      EraDaysMonotone(y, 399);
    }
    assert EraDays(399) + EraYearLength(399) == 146_097;
    YearOfEraFits(EraDays(y) + doy);
    var found := YearOfEra(EraDays(y) + doy);
    if found < y {
      EraDaysMonotone(found, y);
    } else if y < found {
      EraDaysMonotone(y, found);
    }
  }

  // ----- the inverse -----

  /** Days from 1 March to the first of the `mp`-th month after it. */
  function MonthStart(mp: int): int {
    (153 * mp + 2) / 5
  }

  /** The March-based year of a date. */
  function YearFromMarch(d: Date): int {
    if d.month <= 2 then d.year - 1 else d.year
  }

  function DayFromMarch(d: Date): int {
    MonthStart(if d.month <= 2 then d.month + 9 else d.month - 3) + d.day - 1
  }

  /** The number of days since 1970-01-01. */
  function DayNumber(d: Date): int {
    NumberFromMarch(YearFromMarch(d), DayFromMarch(d))
  }

  function NumberFromMarch(year: int, doy: int): int {
    365 * year + year / 4 - year / 100 + year / 400 + doy - 719_468
  }

  function YearLength(year: int): int {
    if Leap(year + 1) then 366 else 365
  }

  lemma NextQuotient(x: int, k: int)
    requires k == 4 || k == 100 || k == 400
    ensures (x + 1) / k == x / k + if (x + 1) % k == 0 then 1 else 0
  {
  }

  lemma EraQuotient(era: int, y: int, k: int)
    requires k == 4 || k == 100 || k == 400
    ensures (y + era * 400) / k == y / k + era * (400 / k) && (y + era * 400) % k == y % k
  {
    if k == 4 {
    } else if k == 100 {
    } else {
    }
  }

  /** A year of an era has the length and the days before it that its era says. */
  lemma YearInEra(era: int, yoe: int, doy: int)
    requires 0 <= yoe < 400
    ensures YearLength(yoe + era * 400) == EraYearLength(yoe)
    ensures NumberFromMarch(yoe + era * 400, doy) == 146_097 * era + EraDays(yoe) + doy - 719_468
  {
    LeapInEra(era, yoe + 1);
    var year := yoe + era * 400;
    assert year / 4 == yoe / 4 + era * 100 by { EraQuotient(era, yoe, 4); }
    assert year / 100 == yoe / 100 + era * 4 by { EraQuotient(era, yoe, 100); }
    assert year / 400 == era by { EraQuotient(era, yoe, 400); }
  }

  lemma LeapInEra(era: int, y: int)
    ensures Leap(y + era * 400) <==> Leap(y)
  {
    EraQuotient(era, y, 4);
    EraQuotient(era, y, 100);
    EraQuotient(era, y, 400);
  }

  /** The day of a March-based year and its month and day determine each other. */
  lemma MonthOfDay(doy: int)
    requires 0 <= doy <= 365
    ensures var mp := (5 * doy + 2) / 153;
            0 <= mp <= 11 && MonthStart(mp) <= doy && (mp < 11 ==> doy < MonthStart(mp + 1))
  {
  }

  /** Each month starts where the one before it ends. */
  lemma MonthLength(year: int, mp: int)
    requires 0 <= mp < 11
    ensures MonthStart(mp + 1) == MonthStart(mp) + DaysIn(year, if mp < 10 then mp + 3 else mp - 9)
    ensures MonthStart(11) == 337
  {
  }

  lemma DateInYearInverse(year: int, doy: int)
    requires 0 <= doy < YearLength(year)
    ensures ValidDate(DateInYear(year, doy))
    ensures YearFromMarch(DateInYear(year, doy)) == year && DayFromMarch(DateInYear(year, doy)) == doy
  {
    MonthOfDay(doy);
    var mp := (5 * doy + 2) / 153;
    if mp < 11 {
      MonthLength(DateInYear(year, doy).year, mp);
    } else {
      MonthLength(year, 0);
    }
  }

  lemma DateInYearOfDate(d: Date)
    requires ValidDate(d)
    ensures 0 <= DayFromMarch(d) < YearLength(YearFromMarch(d))
    ensures DateInYear(YearFromMarch(d), DayFromMarch(d)) == d
  {
  }

  lemma CivilYear(days: int) returns (year: int, doy: int)
    ensures CivilOf(days) == DateInYear(year, doy)
    ensures 0 <= doy < YearLength(year) && NumberFromMarch(year, doy) == days
  {
    var z := days + 719_468;
    var era, doe := z / 146_097, z % 146_097;
    var yoe := YearOfEra(doe);
    YearOfEraFits(doe);
    year, doy := yoe + era * 400, doe - EraDays(yoe);
    YearInEra(era, yoe, doy);
  }

  lemma CivilOfYear(year: int, doy: int)
    requires 0 <= doy < YearLength(year)
    ensures CivilOf(NumberFromMarch(year, doy)) == DateInYear(year, doy)
  {
    var era, yoe := year / 400, year % 400;
    assert yoe + era * 400 == year;
    YearInEra(era, yoe, doy);
    YearOfEraUnique(yoe, doy);
    EraAndDay(era, EraDays(yoe) + doy);
    DateInEraOfYear(era, yoe, doy);
  }

  lemma DateInEraOfYear(era: int, yoe: int, doy: int)
    requires YearOfEra(EraDays(yoe) + doy) == yoe
    ensures DateInEra(era, EraDays(yoe) + doy) == DateInYear(yoe + era * 400, doy)
  {
  }

  lemma EraAndDay(era: int, doe: int)
    requires 0 <= doe < 146_097
    ensures CivilOf(146_097 * era + doe - 719_468) == DateInEra(era, doe)
  {
    assert (146_097 * era + doe) / 146_097 == era && (146_097 * era + doe) % 146_097 == doe;
  }

  /** Every computed date is valid, and its number is the day it came from. */
  lemma CivilInverse(days: int)
    ensures ValidDate(CivilOf(days))
    ensures DayNumber(CivilOf(days)) == days
  {
    var year, doy := CivilYear(days);
    DateInYearInverse(year, doy);
  }

  /** Every valid date is the date of its day number. */
  lemma CivilOfDayNumber(d: Date)
    requires ValidDate(d)
    ensures CivilOf(DayNumber(d)) == d
  {
    DateInYearOfDate(d);
    CivilOfYear(YearFromMarch(d), DayFromMarch(d));
  }

  lemma NextMarch(year: int)
    ensures NumberFromMarch(year + 1, 0) == NumberFromMarch(year, YearLength(year))
  {
    NextQuotient(year, 4);
    NextQuotient(year, 100);
    NextQuotient(year, 400);
    if (year + 1) % 400 == 0 {
      Multiples((year + 1) / 400);
    }
    if (year + 1) % 100 == 0 {
      Multiples((year + 1) / 100);
    }
  }

  lemma Multiples(q: int)
    ensures 400 * q % 100 == 0 && 100 * q % 4 == 0
  {
    assert 400 * q == 100 * (4 * q) && 100 * q == 4 * (25 * q);
  }

  lemma NextDayFromMarch(d: Date)
    requires ValidDate(d)
    ensures ValidDate(NextDay(d))
    ensures d.month == 2 && d.day == DaysIn(d.year, 2) ==>
      && YearFromMarch(NextDay(d)) == d.year && DayFromMarch(NextDay(d)) == 0
      && YearFromMarch(d) == d.year - 1 && DayFromMarch(d) + 1 == YearLength(d.year - 1)
    ensures !(d.month == 2 && d.day == DaysIn(d.year, 2)) ==>
      YearFromMarch(NextDay(d)) == YearFromMarch(d) && DayFromMarch(NextDay(d)) == DayFromMarch(d) + 1
  {
    MonthLength(d.year, if d.month == 2 then 0 else if d.month == 1 then 10 else if d.month == 12 then 9 else d.month - 3);
  }

  lemma NextDayNumber(d: Date)
    requires ValidDate(d)
    ensures ValidDate(NextDay(d)) && DayNumber(NextDay(d)) == DayNumber(d) + 1
  {
    NextDayFromMarch(d);
    if d.month == 2 && d.day == DaysIn(d.year, 2) {
      NextMarch(d.year - 1);
    }
  }

  /** The computed dates are the calendar: day 0 is 1970-01-01, and every next day, in
      both directions without end, is the calendar's next date. */
  lemma CivilIsTheCalendar(days: int)
    ensures CivilOf(0) == Date(1970, 1, 1)
    ensures CivilOf(days + 1) == NextDay(CivilOf(days))
  {
    CivilEpoch();
    CivilInverse(days);
    CivilAfter(CivilOf(days), days);
  }

  lemma CivilEpoch()
    ensures CivilOf(0) == Date(1970, 1, 1)
  {
    assert DayNumber(Date(1970, 1, 1)) == 0;
    CivilOfDayNumber(Date(1970, 1, 1));
  }

  lemma CivilAfter(d: Date, days: int)
    requires ValidDate(d) && DayNumber(d) == days
    ensures CivilOf(days + 1) == NextDay(d)
  {
    NextDayNumber(d);
    CivilOfDayNumber(NextDay(d));
  }

  // ----- the printed text -----

  function Digit(n: int): char
    requires 0 <= n < 10
  {
    '0' + n as char
  }

  function Decimal(n: nat): string {
    if n < 10 then [Digit(n)] else Decimal(n / 10) + [Digit(n % 10)]
  }

  function ZeroPadded(digits: string, width: nat): string {
    if |digits| >= width then digits else seq(width - |digits|, _ => '0') + digits
  }

  /** `n` in at least `width` characters, the sign of a negative number among them. */
  function Padded(n: int, width: nat): string {
    if n < 0 then "-" + ZeroPadded(Decimal(-n), if width == 0 then 0 else width - 1)
    else ZeroPadded(Decimal(n), width)
  }

  /** Date, hour and minute of a unix time. */
  function FormatUtcMinute(unix: int): string {
    var date := CivilOf(unix / 86_400);
    var seconds := unix % 86_400;
    Text(date, seconds / 3600, seconds % 3600 / 60)
  }

  function Text(date: Date, hour: int, minute: int): string {
    Padded(date.year, 4) + "-" + (Padded(date.month, 2) + "-" + (Padded(date.day, 2) + " "
      + (Padded(hour, 2) + ":" + (Padded(minute, 2) + " UTC"))))
  }

  /** The order of texts, character by character. */
  predicate Before(a: string, b: string) {
    b != [] && (a == [] || a[0] < b[0] || (a[0] == b[0] && Before(a[1..], b[1..])))
  }

  lemma {:induction false} BeforeIrreflexive(a: string)
    ensures !Before(a, a)
  {
    if a != [] {
      BeforeIrreflexive(a[1..]);
    }
  }

  lemma {:induction false} BeforeConcat(a: string, b: string, a': string, b': string)
    requires |a| == |b|
    ensures Before(a + a', b + b') <==> Before(a, b) || (a == b && Before(a', b'))
  {
    if a == [] {
      assert a + a' == a' && b + b' == b';
    } else {
      assert (a + a')[1..] == a[1..] + a' && (b + b')[1..] == b[1..] + b';
      BeforeConcat(a[1..], b[1..], a', b');
      assert a == [a[0]] + a[1..] && b == [b[0]] + b[1..];
    }
  }

  function Pow10(n: nat): nat {
    if n == 0 then 1 else 10 * Pow10(n - 1)
  }

  /** The last `width` decimal digits of `n`. */
  function LastDigits(n: nat, width: nat): string {
    if width == 0 then [] else LastDigits(n / 10, width - 1) + [Digit(n % 10)]
  }

  lemma {:induction false} LastDigitsOfZero(width: nat)
    ensures LastDigits(0, width) == seq(width, _ => '0')
  {
    if width > 0 {
      LastDigitsOfZero(width - 1);
    }
  }

  lemma {:induction false} PaddedIsLastDigits(n: nat, width: nat)
    requires width > 0 && n < Pow10(width)
    ensures |Decimal(n)| <= width && Padded(n, width) == LastDigits(n, width)
  {
    if n < 10 {
      LastDigitsOfZero(width - 1);
    } else {
      PaddedIsLastDigits(n / 10, width - 1);
    }
  }

  lemma {:induction false} LastDigitsOrder(x: nat, y: nat, width: nat)
    requires x < Pow10(width) && y < Pow10(width)
    ensures |LastDigits(x, width)| == |LastDigits(y, width)| == width
    ensures Before(LastDigits(x, width), LastDigits(y, width)) <==> x < y
    ensures LastDigits(x, width) == LastDigits(y, width) <==> x == y
    decreases width
  {
    if width > 0 {
      LastDigitsOrder(x / 10, y / 10, width - 1);
      var a, b := LastDigits(x / 10, width - 1), LastDigits(y / 10, width - 1);
      BeforeConcat(a, b, [Digit(x % 10)], [Digit(y % 10)]);
      assert LastDigits(x, width)[..width - 1] == a && LastDigits(y, width)[..width - 1] == b;
      assert LastDigits(x, width)[width - 1] == Digit(x % 10) && LastDigits(y, width)[width - 1] == Digit(y % 10);
    }
  }

  /** A padded number followed by fixed text decides first, then what follows. */
  lemma PieceOrder(x: nat, y: nat, width: nat, fixed: string, a: string, b: string)
    requires width > 0 && x < Pow10(width) && y < Pow10(width)
    ensures Before(Padded(x, width) + fixed + a, Padded(y, width) + fixed + b) <==> x < y || (x == y && Before(a, b))
  {
    PaddedIsLastDigits(x, width);
    PaddedIsLastDigits(y, width);
    LastDigitsOrder(x, y, width);
    BeforeConcat(Padded(x, width), Padded(y, width), fixed + a, fixed + b);
    BeforeConcat(fixed, fixed, a, b);
    BeforeIrreflexive(fixed);
    assert Padded(x, width) + fixed + a == Padded(x, width) + (fixed + a);
    assert Padded(y, width) + fixed + b == Padded(y, width) + (fixed + b);
  }

  predicate DateBefore(d: Date, e: Date) {
    d.year < e.year || (d.year == e.year && (d.month < e.month || (d.month == e.month && d.day < e.day)))
  }

  /** `d` after `days` more days. */
  function DaysLater(d: Date, days: nat): Date
    decreases days
  {
    if days == 0 then d else DaysLater(NextDay(d), days - 1)
  }

  lemma {:induction false} DaysLaterIsAfter(d: Date, days: nat)
    requires ValidDate(d)
    ensures days > 0 ==> DateBefore(d, DaysLater(d, days))
    decreases days
  {
    if days > 0 {
      NextDayStaysValid(d);
      NextDayIsAfter(d);
      DaysLaterIsAfter(NextDay(d), days - 1);
    }
  }

  lemma NextDayStaysValid(d: Date)
    requires ValidDate(d)
    ensures ValidDate(NextDay(d))
  {
  }

  lemma {:induction false} DaysLaterNumber(d: Date, days: nat)
    requires ValidDate(d)
    ensures ValidDate(DaysLater(d, days)) && DayNumber(DaysLater(d, days)) == DayNumber(d) + days
    decreases days
  {
    if days > 0 {
      NextDayNumber(d);
      DaysLaterNumber(NextDay(d), days - 1);
    }
  }

  lemma NumberDetermines(d: Date, e: Date)
    requires ValidDate(d) && ValidDate(e) && DayNumber(d) == DayNumber(e)
    ensures d == e
  {
    CivilOfDayNumber(d);
    CivilOfDayNumber(e);
  }

  lemma NumberOrder(d: Date, e: Date)
    requires ValidDate(d) && ValidDate(e) && DayNumber(d) < DayNumber(e)
    ensures DateBefore(d, e)
  {
    var days := DayNumber(e) - DayNumber(d);
    DaysLaterNumber(d, days);
    DaysLaterIsAfter(d, days);
    NumberDetermines(DaysLater(d, days), e);
  }

  lemma NextDayIsAfter(d: Date)
    requires ValidDate(d)
    ensures DateBefore(d, NextDay(d))
  {
  }

  lemma CivilOrder(m: int, n: int)
    ensures DateBefore(CivilOf(m), CivilOf(n)) <==> m < n
    ensures CivilOf(m) == CivilOf(n) <==> m == n
  {
    CivilInverse(m);
    CivilInverse(n);
    NumbersOrder(CivilOf(m), CivilOf(n));
  }

  lemma NumbersOrder(d: Date, e: Date)
    requires ValidDate(d) && ValidDate(e)
    ensures DateBefore(d, e) <==> DayNumber(d) < DayNumber(e)
    ensures d == e <==> DayNumber(d) == DayNumber(e)
  {
    if DayNumber(d) < DayNumber(e) {
      NumberOrder(d, e);
    } else if DayNumber(e) < DayNumber(d) {
      NumberOrder(e, d);
    } else {
      NumberDetermines(d, e);
    }
  }

  lemma TextOrder(d: Date, e: Date, h: nat, m: nat, h': nat, m': nat)
    requires ValidDate(d) && ValidDate(e) && 0 <= d.year <= 9999 && 0 <= e.year <= 9999
    requires h < 24 && m < 60 && h' < 24 && m' < 60
    ensures Before(Text(d, h, m), Text(e, h', m')) <==> DateBefore(d, e) || (d == e && 60 * h + m < 60 * h' + m')
  {
    assert Pow10(2) == 100 && Pow10(4) == 10_000 by { assert Pow10(1) == 10; assert Pow10(3) == 1000; }
    var a4, b4 := Padded(m, 2) + " UTC", Padded(m', 2) + " UTC";
    var a3, b3 := Padded(h, 2) + ":" + a4, Padded(h', 2) + ":" + b4;
    var a2, b2 := Padded(d.day, 2) + " " + a3, Padded(e.day, 2) + " " + b3;
    var a1, b1 := Padded(d.month, 2) + "-" + a2, Padded(e.month, 2) + "-" + b2;
    PieceOrder(d.year, e.year, 4, "-", a1, b1);
    PieceOrder(d.month, e.month, 2, "-", a2, b2);
    PieceOrder(d.day, e.day, 2, " ", a3, b3);
    PieceOrder(h, h', 2, ":", a4, b4);
    PieceOrder(m, m', 2, " UTC", "", "");
    assert a4 == Padded(m, 2) + " UTC" + "" && b4 == Padded(m', 2) + " UTC" + "";
  }

  /** From year 0 through 9999 the printed texts are ordered exactly as the minutes. */
  lemma FormatOrder(t: int, u: int)
    requires 0 <= CivilOf(t / 86_400).year <= 9999 && 0 <= CivilOf(u / 86_400).year <= 9999
    ensures Before(FormatUtcMinute(t), FormatUtcMinute(u)) <==> t / 60 < u / 60
  {
    CivilInverse(t / 86_400);
    CivilInverse(u / 86_400);
    CivilOrder(t / 86_400, u / 86_400);
    MinuteOfDay(t);
    MinuteOfDay(u);
    var s, r := t % 86_400, u % 86_400;
    TextOrder(CivilOf(t / 86_400), CivilOf(u / 86_400), s / 3600, s % 3600 / 60, r / 3600, r % 3600 / 60);
  }

  lemma MinuteOfDay(t: int)
    ensures var s := t % 86_400;
            0 <= s / 3600 < 24 && 0 <= s % 3600 / 60 < 60
            && t / 60 == 1440 * (t / 86_400) + 60 * (s / 3600) + s % 3600 / 60
  {
  }

  // ----- reading it back -----

  /** The number decimal digits stand for. */
  function Number(digits: string): int {
    if digits == [] then 0 else 10 * Number(digits[..|digits| - 1]) + ((digits[|digits| - 1] as int) - ('0' as int))
  }

  lemma {:induction false} NumberOfLastDigits(n: nat, width: nat)
    requires n < Pow10(width)
    ensures |LastDigits(n, width)| == width && Number(LastDigits(n, width)) == n
    decreases width
  {
    if width > 0 {
      NumberOfLastDigits(n / 10, width - 1);
      var digits := LastDigits(n, width);
      assert digits[..|digits| - 1] == LastDigits(n / 10, width - 1);
    }
  }

  lemma NumberOfPadded(n: nat, width: nat)
    requires width > 0 && n < Pow10(width)
    ensures |Padded(n, width)| == width && Number(Padded(n, width)) == n
  {
    PaddedIsLastDigits(n, width);
    NumberOfLastDigits(n, width);
  }

  /** The text of a time in the years 0 to 9999 has a fixed form, and its five numbers are
      the year, month and day of the date, the hour and the minute of that time. */
  lemma FormatReadsBack(t: int)
    requires 0 <= CivilOf(t / 86_400).year <= 9999
    ensures var text, date := FormatUtcMinute(t), CivilOf(t / 86_400);
            && |text| == 20 && text[4] == text[7] == '-' && text[10] == ' ' && text[13] == ':' && text[16..] == " UTC"
            && Date(Number(text[..4]), Number(text[5..7]), Number(text[8..10])) == date
            && Number(text[11..13]) == t % 86_400 / 3600 && Number(text[14..16]) == t % 3600 / 60
  {
    var date, s := CivilOf(t / 86_400), t % 86_400;
    CivilInverse(t / 86_400);
    MinuteOfDay(t);
    MinuteOfHour(t);
    assert Pow10(2) == 100 && Pow10(4) == 10_000 by {
      assert Pow10(3) == 1000;
    }
    TextReadsBack(date, s / 3600, s % 3600 / 60);
  }

  lemma MinuteOfHour(t: int)
    ensures t % 86_400 % 3600 == t % 3600
  {
    var q, r := t / 86_400, t % 86_400;
    assert t == 3600 * (24 * q) + r;
    assert r == 3600 * (r / 3600) + r % 3600;
    assert t == 3600 * (24 * q + r / 3600) + r % 3600;
  }

  lemma TextReadsBack(d: Date, hour: nat, minute: nat)
    requires ValidDate(d) && 0 <= d.year <= 9999 && hour < 24 && minute < 60 && Pow10(2) == 100 && Pow10(4) == 10_000
    ensures var text := Text(d, hour, minute);
            && |text| == 20 && text[4] == text[7] == '-' && text[10] == ' ' && text[13] == ':' && text[16..] == " UTC"
            && Number(text[..4]) == d.year && Number(text[5..7]) == d.month && Number(text[8..10]) == d.day
            && Number(text[11..13]) == hour && Number(text[14..16]) == minute
  {
    NumberOfPadded(d.year, 4);
    NumberOfPadded(d.month, 2);
    NumberOfPadded(d.day, 2);
    NumberOfPadded(hour, 2);
    NumberOfPadded(minute, 2);
    TextParts(Padded(d.year, 4), Padded(d.month, 2), Padded(d.day, 2), Padded(hour, 2), Padded(minute, 2));
  }

  lemma TextParts(year: string, month: string, day: string, hour: string, minute: string)
    requires |year| == 4 && |month| == |day| == |hour| == |minute| == 2
    ensures var text := year + "-" + (month + "-" + (day + " " + (hour + ":" + (minute + " UTC"))));
            && |text| == 20 && text[4] == text[7] == '-' && text[10] == ' ' && text[13] == ':' && text[16..] == " UTC"
            && text[..4] == year && text[5..7] == month && text[8..10] == day && text[11..13] == hour && text[14..16] == minute
  {
    var fourth := minute + " UTC";
    var third := hour + ":" + fourth;
    var second := day + " " + third;
    var first := month + "-" + second;
    var text := year + "-" + first;
    assert text[5..] == first && first[3..] == second && second[3..] == third && third[3..] == fourth;
    assert text[8..] == second && text[11..] == third && text[14..] == fourth && text[16..] == fourth[2..];
    assert text[5..7] == first[..2] && text[8..10] == second[..2] && text[11..13] == third[..2] && text[14..16] == fourth[..2];
    assert text[7] == first[2] && text[10] == second[2] && text[13] == third[2];
  }
}
