/** Days to dates and back to strings (src/enrichment.rs): `civil_from_days` and
    the lookback cutoff that compares dates as text. */
module Calendar {
  import opened Basics
  import opened Decimal
  import opened StringOrder

  datatype Date = Date(year: int, month: int, day: int)

  // Rust's integer division truncates toward zero.
  function TruncDiv(a: int, b: nat): int
    requires b > 0
  {
    if a >= 0 then a / b else -((-a) / b)
  }

  function CivilFromDays(days: int): Date {
    var z := days + 719468;
    var era := TruncDiv(if z >= 0 then z else z - 146096, 146097);
    var doe := z - era * 146097;
    var yoe := (doe - doe / 1460 + doe / 36524 - doe / 146096) / 365;
    var y := yoe + era * 400;
    var doy := doe - (365 * yoe + yoe / 4 - yoe / 100);
    var mp := (5 * doy + 2) / 153;
    var d := doy - (153 * mp + 2) / 5 + 1;
    var m := if mp < 10 then mp + 3 else mp - 9;
    Date(if m <= 2 then y + 1 else y, m, d)
  }

  // ----- the proleptic Gregorian calendar -----

  predicate Leap(y: int) {
    y % 4 == 0 && (y % 100 != 0 || y % 400 == 0)
  }

  function DaysIn(y: int, m: int): int {
    if m == 2 then (if Leap(y) then 29 else 28)
    else if m == 4 || m == 6 || m == 9 || m == 11 then 30
    else 31
  }

  predicate Valid(d: Date) {
    1 <= d.month <= 12 && 1 <= d.day <= DaysIn(d.year, d.month)
  }

  function NextDay(d: Date): Date {
    if d.day < DaysIn(d.year, d.month) then d.(day := d.day + 1)
    else if d.month < 12 then Date(d.year, d.month + 1, 1)
    else Date(d.year + 1, 1, 1)
  }

  // Counting day by day from the epoch.
  function CalendarDay(n: nat): Date {
    if n == 0 then Date(1970, 1, 1) else NextDay(CalendarDay(n - 1))
  }

  predicate Earlier(a: Date, b: Date) {
    a.year < b.year || (a.year == b.year && (a.month < b.month || (a.month == b.month && a.day < b.day)))
  }

  // ----- the computation, in years that start in March -----

  // Where a day of the 400-year era lies: century, four-year block, year of the
  // block and day of the year.
  ghost predicate Splits(doe: int, c: int, a: int, b: int, doy: int) {
    && 0 <= c <= 3 && 0 <= a <= 24 && 0 <= b <= 3 && 0 <= doy <= 365
    && doe == 36524 * c + 1461 * a + 365 * b + doy
    && (doy == 365 ==> b == 3 && (a < 24 || c == 3))
  }

  lemma SplitExists(doe: int) returns (c: int, a: int, b: int, doy: int)
    requires 0 <= doe < 146097
    ensures Splits(doe, c, a, b, doy)
  {
    c := if doe >= 109572 then 3 else doe / 36524;
    var r := doe - 36524 * c;
    a := r / 1461;
    var s := r - 1461 * a;
    b := if s >= 1095 then 3 else s / 365;
    doy := s - 365 * b;
  }

  // The closed formula finds that year.
  lemma YearOfEra(doe: int, c: int, a: int, b: int, doy: int)
    requires Splits(doe, c, a, b, doy)
    ensures (doe - doe / 1460 + doe / 36524 - doe / 146096) / 365 == 100 * c + 4 * a + b
  {
    var e := 24 * c + a + 365 * b + doy;
    assert doe == 1460 * (25 * c + a) + e && 0 <= e < 2920;
    var k := if e >= 1460 then 1 else 0;
    assert doe / 1460 == 25 * c + a + k;
    CenturyTerm(doe, c, a, b, doy);
    assert doe - doe / 1460 + c == 365 * (100 * c + 4 * a + b) + (doy - k);
  }

  lemma CenturyTerm(doe: int, c: int, a: int, b: int, doy: int)
    requires Splits(doe, c, a, b, doy)
    ensures doe / 36524 - doe / 146096 == c
  {
    var r := doe - 36524 * c;
    assert 0 <= r <= 36524;
    if r == 36524 {
      assert c == 3 && doe == 146096;
    } else {
      assert doe / 36524 == c && doe < 146096;
    }
  }

  lemma DayOfYear(c: int, a: int, b: int)
    requires 0 <= c <= 3 && 0 <= a <= 24 && 0 <= b <= 3
    ensures var y := 100 * c + 4 * a + b; 365 * y + y / 4 - y / 100 == 36524 * c + 1461 * a + 365 * b
  {
    var y := 100 * c + 4 * a + b;
    assert y / 4 == 25 * c + a;
    assert y / 100 == c;
  }

  // The year, month and day of a day of a March year.
  function FromMarchYear(y: int, doy: int): Date {
    var mp := (5 * doy + 2) / 153;
    var m := if mp < 10 then mp + 3 else mp - 9;
    Date(if m <= 2 then y + 1 else y, m, doy - (153 * mp + 2) / 5 + 1)
  }

  lemma EraIsFloor(z: int)
    ensures TruncDiv(if z >= 0 then z else z - 146096, 146097) == z / 146097
  {
    if z < 0 {
      var q, r := z / 146097, z % 146097;
      assert -(z - 146096) == 146097 * (-q) + (146096 - r);
    }
  }

  // Every day count has its March year and day of year, and the code finds them.
  lemma CivilSplits(days: int) returns (era: int, c: int, a: int, b: int, doy: int)
    ensures var doe := days + 719468 - era * 146097;
            0 <= doe < 146097 && Splits(doe, c, a, b, doy)
    ensures CivilFromDays(days) == FromMarchYear(400 * era + 100 * c + 4 * a + b, doy)
  {
    var z := days + 719468;
    EraIsFloor(z);
    era := z / 146097;
    var doe := z - era * 146097;
    c, a, b, doy := SplitExists(doe);
    YearOfEra(doe, c, a, b, doy);
    DayOfYear(c, a, b);
    CivilAt(days, era, doe, 100 * c + 4 * a + b, doy);
  }

  lemma CivilAt(days: int, era: int, doe: int, yoe: int, doy: int)
    requires var z := days + 719468; era == TruncDiv(if z >= 0 then z else z - 146096, 146097) && doe == z - era * 146097
    requires yoe == (doe - doe / 1460 + doe / 36524 - doe / 146096) / 365
    requires doy == doe - (365 * yoe + yoe / 4 - yoe / 100)
    ensures CivilFromDays(days) == FromMarchYear(400 * era + yoe, doy)
  {
  }

  // A March year of a leap February has 366 days.
  lemma LeapFebruary(era: int, c: int, a: int, b: int)
    requires 0 <= c <= 3 && 0 <= a <= 24 && 0 <= b <= 3
    ensures Leap(400 * era + 100 * c + 4 * a + b + 1) <==> b == 3 && (a < 24 || c == 3)
  {
    var h := 4 * a + b + 1;
    Mod4(100 * era + 25 * c + a, b + 1);
    Mod100(4 * era + c, h);
    Mod400(era, 100 * c + h);
    assert h % 100 == 0 <==> h == 100;
    assert (100 * c + h) % 400 == 0 <==> 100 * c + h == 400;
  }

  lemma Mod4(q: int, r: int)
    ensures (4 * q + r) % 4 == r % 4
  {
  }

  lemma Mod100(q: int, r: int)
    ensures (100 * q + r) % 100 == r % 100
  {
  }

  lemma Mod400(q: int, r: int)
    ensures (400 * q + r) % 400 == r % 400
  {
  }

  function MonthStart(mp: int): int {
    (153 * mp + 2) / 5
  }

  lemma MonthOf(doy: int) returns (mp: int)
    requires 0 <= doy <= 365
    ensures mp == (5 * doy + 2) / 153 && 0 <= mp <= 11
    ensures MonthStart(mp) <= doy < MonthStart(mp + 1)
  {
    mp := (5 * doy + 2) / 153;
  }

  lemma MonthLength(mp: int)
    requires 0 <= mp <= 11
    ensures MonthStart(0) == 0 && MonthStart(11) == 337
    ensures mp <= 10 ==> MonthStart(mp + 1) - MonthStart(mp) == DaysIn(1, if mp < 10 then mp + 3 else mp - 9)
  {
  }

  lemma ThirtyDaysAnyYear(y: int, m: int)
    requires m != 2
    ensures DaysIn(y, m) == DaysIn(1, m)
  {
  }

  // Within one March year, the next day of the year is the next day of the
  // calendar; `long` says whether the year's February has 29 days.
  lemma NextInMarchYear(y: int, doy: int, long: bool)
    requires 0 <= doy <= (if long then 365 else 364)
    requires Leap(y + 1) <==> long
    ensures Valid(FromMarchYear(y, doy))
    ensures doy < (if long then 365 else 364) ==> NextDay(FromMarchYear(y, doy)) == FromMarchYear(y, doy + 1)
    ensures doy == (if long then 365 else 364) ==> NextDay(FromMarchYear(y, doy)) == Date(y + 1, 3, 1)
  {
    var mp := MonthOf(doy);
    MonthLength(mp);
    var d := FromMarchYear(y, doy);
    if mp <= 10 {
      ThirtyDaysAnyYear(d.year, d.month);
    }
    if doy < 365 {
      var mp' := MonthOf(doy + 1);
      if mp <= 10 {
        MonthLength(mp + 1);
      }
    }
  }

  // The date the code gives is valid, and the next day count gives the
  // calendar's next day; both for every day count.
  lemma CivilIsTheCalendar(days: int)
    ensures Valid(CivilFromDays(days))
    ensures CivilFromDays(days + 1) == NextDay(CivilFromDays(days))
  {
    hide CivilFromDays, FromMarchYear, Valid, NextDay;
    var era, c, a, b, doy := CivilSplits(days);
    var y := 400 * era + 100 * c + 4 * a + b;
    var long := b == 3 && (a < 24 || c == 3);
    LeapFebruary(era, c, a, b);
    NextInMarchYear(y, doy, long);
    var era', c', a', b', doy' := CivilSplits(days + 1);
    SplitIsUnique(days, era, c, a, b, doy, era', c', a', b', doy');
    FirstOfMarch(y + 1);
  }

  lemma FirstOfMarch(y: int)
    ensures FromMarchYear(y, 0) == Date(y, 3, 1)
  {
  }

  // Two neighbouring days lie in the same March year, or the second opens the
  // next one.
  lemma SplitIsUnique(days: int, era: int, c: int, a: int, b: int, doy: int, era': int, c': int, a': int, b': int, doy': int)
    requires 0 <= days + 719468 - era * 146097 < 146097 && Splits(days + 719468 - era * 146097, c, a, b, doy)
    requires 0 <= days + 719469 - era' * 146097 < 146097 && Splits(days + 719469 - era' * 146097, c', a', b', doy')
    ensures var y, y' := 400 * era + 100 * c + 4 * a + b, 400 * era' + 100 * c' + 4 * a' + b';
            var last := if b == 3 && (a < 24 || c == 3) then 365 else 364;
            if doy < last then y' == y && doy' == doy + 1 else y' == y + 1 && doy' == 0
  {
    assert era' == era || era' == era + 1;
  }

  lemma Epoch()
    ensures CivilFromDays(0) == Date(1970, 1, 1)
  {
    hide CivilFromDays;
    CivilAt(0, 4, 135080, 369, 306);
  }

  // From the epoch on, the code counts days as the calendar does.
  lemma {:induction false} CountingAgrees(n: nat)
    ensures CivilFromDays(n) == CalendarDay(n)
  {
    hide CivilFromDays;
    if n == 0 {
      Epoch();
    } else {
      CountingAgrees(n - 1);
      CivilIsTheCalendar(n - 1);
    }
  }

  lemma {:induction false} LaterIsLater(a: int, b: int)
    requires a < b
    ensures Earlier(CivilFromDays(a), CivilFromDays(b))
    decreases b - a
  {
    hide CivilFromDays;
    CivilIsTheCalendar(b - 1);
    if a < b - 1 {
      LaterIsLater(a, b - 1);
    }
  }

  // ----- dates as text -----

  // `{:04}` and `{:02}`: zero-padded to a minimum width, a sign counting.
  function ZeroPad(s: string, width: nat): string {
    if |s| >= width then s else seq(width - |s|, i => '0') + s
  }

  function PadInt(n: int, width: nat): string {
    if n >= 0 then ZeroPad(Format(n), width) else "-" + ZeroPad(Format(-n), SatSub(width, 1))
  }

  function Iso(d: Date): string {
    PadInt(d.year, 4) + "-" + PadInt(d.month, 2) + "-" + PadInt(d.day, 2)
  }

  function Two(n: nat): string
    requires n < 100
  {
    [DigitChar(n / 10), DigitChar(n % 10)]
  }

  lemma FormatSmall(n: nat)
    requires n < 100
    ensures n < 10 ==> Format(n) == [DigitChar(n)]
    ensures n >= 10 ==> Format(n) == Two(n)
  {
    if n >= 10 {
      assert Format(n) == Format(n / 10) + [DigitChar(n % 10)];
      assert Format(n / 10) == [DigitChar(n / 10)];
    }
  }

  lemma PadTwo(n: nat)
    requires n < 100
    ensures PadInt(n, 2) == Two(n)
  {
    FormatSmall(n);
    hide Format;
  }

  lemma PadFour(n: nat)
    requires n < 10000
    ensures PadInt(n, 4) == Two(n / 100) + Two(n % 100)
  {
    if n < 100 {
      FormatSmall(n);
    } else {
      FormatHundreds(n);
      FormatSmall(n / 100);
    }
    hide Format;
  }

  lemma FormatHundreds(n: nat)
    requires n >= 100
    ensures Format(n) == Format(n / 100) + Two(n % 100)
  {
    assert Format(n) == Format(n / 10) + [DigitChar(n % 10)];
    assert Format(n / 10) == Format(n / 100) + [DigitChar(n / 10 % 10)];
    assert n % 100 / 10 == n / 10 % 10 && n % 100 % 10 == n % 10;
  }

  // Two digits compare like the numbers, whatever follows.
  lemma TwoLess(a: nat, b: nat, s: string, t: string)
    requires a < 100 && b < 100
    ensures a < b ==> Less(Two(a) + s, Two(b) + t)
    ensures a == b ==> (Less(Two(a) + s, Two(b) + t) <==> Less(s, t))
  {
    if a == b {
      LessByPrefix(Two(a), s, t);
    } else if a < b {
      var x, y := Two(a) + s, Two(b) + t;
      DigitOrder(a / 10, b / 10);
      DigitOrder(a % 10, b % 10);
      assert x[0] == DigitChar(a / 10) && y[0] == DigitChar(b / 10);
      if a / 10 == b / 10 {
        assert x[1..][0] == DigitChar(a % 10) && y[1..][0] == DigitChar(b % 10);
        assert Less(x[1..], y[1..]);
      }
    }
  }

  lemma DigitOrder(a: nat, b: nat)
    requires a < 10 && b < 10
    ensures DigitChar(a) < DigitChar(b) <==> a < b
  {
  }

  predicate FourDigitYear(d: Date) {
    0 <= d.year <= 9999
  }

  lemma NothingIsLessThanEmpty(s: string)
    ensures !Less(s, "")
  {
  }

  // Two digits in front decide, and otherwise the rest does.
  lemma Compare(a: nat, b: nat, s: string, t: string)
    requires a < 100 && b < 100
    ensures Less(Two(a) + s, Two(b) + t) <==> a < b || (a == b && Less(s, t))
  {
    TwoLess(a, b, s, t);
    if b < a {
      TwoLess(b, a, t, s);
      LessTotal(Two(a) + s, Two(b) + t);
    }
  }

  // ----- years of any length -----

  lemma FormatLength(n: nat)
    requires n >= 1000
    ensures |Format(n)| >= 4
  {
    FormatHundreds(n);
    FormatHundredth(n / 100);
  }

  lemma FormatHundredth(n: nat)
    requires n >= 10
    ensures |Format(n)| >= 2
  {
    assert Format(n) == Format(n / 10) + [DigitChar(n % 10)];
  }

  lemma LongYear(y: nat)
    requires y >= 10000
    ensures PadInt(y, 4) == PadInt(y / 10, 4) + [DigitChar(y % 10)]
    ensures |PadInt(y / 10, 4)| >= 4
  {
    FormatLength(y / 10);
    assert Format(y) == Format(y / 10) + [DigitChar(y % 10)];
    hide Format;
  }

  lemma {:induction false} YearLength(x: nat, y: nat)
    requires x <= y
    ensures 4 <= |PadInt(x, 4)| <= |PadInt(y, 4)|
    ensures |PadInt(x, 4)| == 4 <==> x < 10000
  {
    hide PadInt;
    if x < 10000 {
      PadFour(x);
      if y < 10000 {
        PadFour(y);
      } else {
        LongYear(y);
      }
    } else {
      LongYear(x);
      LongYear(y);
      YearLength(x / 10, y / 10);
    }
  }

  // Years written with the same number of digits compare as numbers.
  lemma {:induction false} SameLengthOrder(x: nat, y: nat, s: string, t: string)
    requires |PadInt(x, 4)| == |PadInt(y, 4)|
    ensures Less(PadInt(x, 4) + s, PadInt(y, 4) + t) <==> x < y || (x == y && Less(s, t))
  {
    hide PadInt, Less, Two;
    YearLength(x, x);
    YearLength(y, y);
    if x < 10000 {
      PadFour(x);
      PadFour(y);
      var lx, ly := Two(x % 100) + s, Two(y % 100) + t;
      assert Two(x / 100) + Two(x % 100) + s == Two(x / 100) + lx;
      assert Two(y / 100) + Two(y % 100) + t == Two(y / 100) + ly;
      Compare(x % 100, y % 100, s, t);
      Compare(x / 100, y / 100, lx, ly);
    } else {
      LongYear(x);
      LongYear(y);
      var s', t' := [DigitChar(x % 10)] + s, [DigitChar(y % 10)] + t;
      assert PadInt(x, 4) + s == PadInt(x / 10, 4) + s';
      assert PadInt(y, 4) + t == PadInt(y / 10, 4) + t';
      SameLengthOrder(x / 10, y / 10, s', t');
      DigitLess(x % 10, y % 10, s, t);
    }
  }

  lemma DigitLess(a: nat, b: nat, s: string, t: string)
    requires a < 10 && b < 10
    ensures Less([DigitChar(a)] + s, [DigitChar(b)] + t) <==> a < b || (a == b && Less(s, t))
  {
    DigitOrder(a, b);
    DigitOrder(b, a);
    assert ([DigitChar(a)] + s)[1..] == s && ([DigitChar(b)] + t)[1..] == t;
  }

  // The number written by all but the last `n` digits.
  function Leading(y: nat, n: nat): nat {
    if n == 0 then y else Leading(y / 10, n - 1)
  }

  lemma {:induction false} YearLeads(y: nat, n: nat) returns (rest: string)
    requires |PadInt(y, 4)| >= 4 + n
    ensures PadInt(y, 4) == PadInt(Leading(y, n), 4) + rest && |rest| == n && (n > 0 ==> '0' <= rest[0] <= '9')
  {
    hide PadInt;
    rest := [];
    if n > 0 {
      YearLength(y, y);
      LongYear(y);
      var more := YearLeads(y / 10, n - 1);
      rest := more + [DigitChar(y % 10)];
    }
  }

  // Month and day behind a year.
  function AfterYear(d: Date, tail: string): string {
    "-" + (PadInt(d.month, 2) + ("-" + (PadInt(d.day, 2) + tail)))
  }

  lemma IsoShape(d: Date, tail: string)
    ensures Iso(d) + tail == PadInt(d.year, 4) + AfterYear(d, tail)
  {
    hide PadInt;
    assert "-" + PadInt(d.day, 2) + tail == "-" + (PadInt(d.day, 2) + tail);
  }

  lemma AfterYearOrder(a: Date, b: Date, s: string, t: string)
    requires Valid(a) && Valid(b)
    ensures Less(AfterYear(a, s), AfterYear(b, t)) <==>
      a.month < b.month || (a.month == b.month && (a.day < b.day || (a.day == b.day && Less(s, t))))
  {
    PadTwo(a.month);
    PadTwo(b.month);
    PadTwo(a.day);
    PadTwo(b.day);
    hide Less, Two, PadInt;
    var da, db := Two(a.day) + s, Two(b.day) + t;
    var ma, mb := Two(a.month) + ("-" + da), Two(b.month) + ("-" + db);
    Compare(a.day, b.day, s, t);
    LessByPrefix("-", da, db);
    Compare(a.month, b.month, "-" + da, "-" + db);
    LessByPrefix("-", ma, mb);
  }

  // How many digits longer the later year is.
  function Longer(a: Date, b: Date): int
    requires a.year >= 0 && b.year >= 0
  {
    |PadInt(b.year, 4)| - |PadInt(a.year, 4)|
  }

  // The earlier date is below the later one, with any time of day behind either,
  // exactly when its year is at most the number that the later year starts with.
  // Otherwise the later one is below.
  lemma TextOrderIff(a: Date, b: Date, tail: string)
    requires Valid(a) && Valid(b) && 0 <= a.year && Earlier(a, b)
    ensures Longer(a, b) >= 0
    ensures Less(Iso(a) + tail, Iso(b)) <==> a.year <= Leading(b.year, Longer(a, b))
    ensures Less(Iso(b) + tail, Iso(a)) <==> a.year > Leading(b.year, Longer(a, b))
  {
    hide PadInt, Less, AfterYear, Iso;
    YearLength(a.year, b.year);
    IsoShape(a, tail);
    IsoShape(b, "");
    IsoShape(b, tail);
    IsoShape(a, "");
    assert Iso(b) + "" == Iso(b) && Iso(a) + "" == Iso(a);
    var n := Longer(a, b);
    if n == 0 {
      SameLengthOrder(a.year, b.year, AfterYear(a, tail), AfterYear(b, ""));
      SameLengthOrder(b.year, a.year, AfterYear(b, tail), AfterYear(a, ""));
      AfterYearOrder(a, b, tail, "");
      AfterYearOrder(b, a, tail, "");
    } else {
      var rest := YearLeads(b.year, n);
      var lead := Leading(b.year, n);
      assert PadInt(b.year, 4) + AfterYear(b, "") == PadInt(lead, 4) + (rest + AfterYear(b, ""));
      assert PadInt(b.year, 4) + AfterYear(b, tail) == PadInt(lead, 4) + (rest + AfterYear(b, tail));
      SameLengthOrder(a.year, lead, AfterYear(a, tail), rest + AfterYear(b, ""));
      SameLengthOrder(lead, a.year, rest + AfterYear(b, tail), AfterYear(a, ""));
      DashIsBelowDigits(a, tail, rest + AfterYear(b, ""));
      DashIsBelowDigits(a, "", rest + AfterYear(b, tail));
    }
  }

  lemma DashIsBelowDigits(a: Date, tail: string, s: string)
    requires s != "" && '0' <= s[0] <= '9'
    ensures Less(AfterYear(a, tail), s) && !Less(s, AfterYear(a, tail))
  {
    hide PadInt;
    assert AfterYear(a, tail)[0] == '-';
  }

  // For years of four digits the text of a date, with any time of day behind it,
  // is below another date exactly when its day count is.
  lemma TextOrderIsDayOrder(a: int, b: int, tail: string)
    ensures 0 <= CivilFromDays(a).year <= 9999 && 0 <= CivilFromDays(b).year <= 9999 ==>
      (Less(Iso(CivilFromDays(a)) + tail, Iso(CivilFromDays(b))) <==> a < b)
  {
    CivilIsTheCalendar(a);
    CivilIsTheCalendar(b);
    hide CivilFromDays, Iso, PadInt, Less;
    var x, y := CivilFromDays(a), CivilFromDays(b);
    if FourDigitYear(x) && FourDigitYear(y) {
      YearLength(x.year, x.year);
      YearLength(y.year, y.year);
      if a < b {
        LaterIsLater(a, b);
        TextOrderIff(x, y, tail);
      } else if b < a {
        LaterIsLater(b, a);
        TextOrderIff(y, x, tail);
      } else {
        LessByPrefix(Iso(x), tail, "");
        NothingIsLessThanEmpty(tail);
        assert Iso(x) + "" == Iso(x);
      }
    }
  }

  // For any two days from year 0 on: the text order is the day order exactly
  // when the earlier year is at most the number the later one starts with.
  lemma TextOrderIsDayOrderIff(a: int, b: int, tail: string)
    requires a < b
    ensures var x, y := CivilFromDays(a), CivilFromDays(b);
      0 <= x.year ==>
        && 0 <= y.year && Longer(x, y) >= 0
        && (Less(Iso(x) + tail, Iso(y)) <==> x.year <= Leading(y.year, Longer(x, y)))
        && (Less(Iso(y) + tail, Iso(x)) <==> x.year > Leading(y.year, Longer(x, y)))
  {
    CivilIsTheCalendar(a);
    CivilIsTheCalendar(b);
    LaterIsLater(a, b);
    hide CivilFromDays, Iso, Longer, Less, Leading;
    if 0 <= CivilFromDays(a).year {
      TextOrderIff(CivilFromDays(a), CivilFromDays(b), tail);
    }
  }

  // So the first day of year 10000 sorts before the last day of 9999, as 9999 is
  // more than 1000.
  lemma FiveDigitYearsSortWrong()
    ensures CivilFromDays(2932896) == Date(9999, 12, 31) && CivilFromDays(2932897) == Date(10000, 1, 1)
    ensures Less(Iso(CivilFromDays(2932897)), Iso(CivilFromDays(2932896)))
  {
    TurnOfTheMillennium();
    hide CivilFromDays, Iso, PadInt;
    var a, b := Date(9999, 12, 31), Date(10000, 1, 1);
    TextOrderIff(a, b, "");
    assert Iso(b) + "" == Iso(b);
    PadFour(9999);
    PadFour(1000);
    LongYear(10000);
    assert Longer(a, b) == 1 && Leading(10000, 1) == 1000;
  }

  lemma TurnOfTheMillennium()
    ensures CivilFromDays(2932896) == Date(9999, 12, 31) && CivilFromDays(2932897) == Date(10000, 1, 1)
  {
    LastOf9999();
    hide CivilFromDays;
    CivilIsTheCalendar(2932896);
  }

  lemma LastOf9999()
    ensures CivilFromDays(2932896) == Date(9999, 12, 31)
  {
    hide CivilFromDays;
    CivilAt(2932896, 24, 146036, 399, 305);
  }

  const SECONDS_PER_DAY := 86400

  function LookbackDays(nowSecs: nat, daysAgo: nat): nat {
    nowSecs / SECONDS_PER_DAY - Min(daysAgo, nowSecs / SECONDS_PER_DAY)
  }

  function LookbackBoundary(nowSecs: nat, daysAgo: nat): string {
    Iso(CivilFromDays(LookbackDays(nowSecs, daysAgo)))
  }

  // The boundary is that many days before the day of `nowSecs`, not before the
  // epoch.
  lemma LookbackDayIs(nowSecs: nat, daysAgo: nat)
    ensures var d := LookbackDays(nowSecs, daysAgo);
      if 86400 * daysAgo <= nowSecs then 86400 * (d + daysAgo) <= nowSecs < 86400 * (d + daysAgo + 1) else d == 0
  {
  }

  // The cutoff test on a row's `updatedAt` drops exactly the rows of earlier
  // days.
  lemma LookbackDropsEarlierDays(nowSecs: nat, daysAgo: nat, day: int, time: string)
    ensures var boundary := LookbackDays(nowSecs, daysAgo);
      0 <= CivilFromDays(day).year <= 9999 && 0 <= CivilFromDays(boundary).year <= 9999 ==>
        (Less(Iso(CivilFromDays(day)) + time, LookbackBoundary(nowSecs, daysAgo)) <==> day < boundary)
  {
    hide CivilFromDays, Iso;
    TextOrderIsDayOrder(day, LookbackDays(nowSecs, daysAgo), time);
  }
}
