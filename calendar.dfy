/** Day and month arithmetic on day numbers and millisecond instants. */
module Calendar {
  import opened Records

  const MsPerDay: int := 1000 * 60 * 60 * 24

  /** The instant of midnight (UTC) at the start of a day. */
  function StartOf(d: Day): int
  {
    d * MsPerDay
  }

  /**
    `Math.floor((now - new Date(last).getTime()) / (1000 * 60 * 60 * 24))`: the
    whole days elapsed from midnight of `last` to the instant `nowMs`.
  */
  function DaysSince(nowMs: int, last: Day): (r: int)
    ensures StartOf(last) + r * MsPerDay <= nowMs < StartOf(last) + (r + 1) * MsPerDay
  {
    (nowMs - StartOf(last)) / MsPerDay
  }

  /** The day `new Date().toISOString().split('T')[0]` names for the instant `nowMs`. */
  function DayOf(nowMs: int): (r: Day)
    ensures StartOf(r) <= nowMs < StartOf(r + 1)
  {
    nowMs / MsPerDay
  }

  /** A month of a year: the app writes it as "YYYY-MM". */
  datatype MonthKey = MonthKey(year: int, month: int)

  /**
    The order of "YYYY-MM" strings under `localeCompare`, for four-digit years:
    by year, then by month.
  */
  predicate MonthLe(a: MonthKey, b: MonthKey)
  {
    a.year < b.year || (a.year == b.year && a.month <= b.month)
  }

  lemma MonthLeTotalPreorder()
    ensures forall a, b :: MonthLe(a, b) || MonthLe(b, a)
    ensures forall a, b, c :: MonthLe(a, b) && MonthLe(b, c) ==> MonthLe(a, c)
  {
  }

  /**
    The (year, month) of a day number in the proleptic Gregorian calendar. Years
    are first counted from 1 March, so that a leap day is always the last day of
    its year: a 400-year era has three centuries of 36524 days and a last one of
    36525, a century has four-year blocks of 1461 days, and a block has three
    years of 365 days and a last one of 366.
  */
  function MonthOf(d: Day): (r: MonthKey)
    ensures 1 <= r.month <= 12
  {
    var z := d + 719468;             // days since 0000-03-01
    MonthOfEra(z / 146097, z % 146097)
  }

  /** The (year, month) of day `doe` (0 .. 146096) of 400-year era `era`. */
  function MonthOfEra(era: int, doe: int): (r: MonthKey)
    requires 0 <= doe < 146097
    ensures 1 <= r.month <= 12
  {
    var cen := Min(doe / 36524, 3);
    var doc := doe - cen * 36524;    // day of the century, 0 .. 36524
    var quad := doc / 1461;
    var doq := doc % 1461;           // day of the four-year block, 0 .. 1460
    var yq := Min(doq / 365, 3);
    var doy := doq - yq * 365;       // day of the March-based year, 0 .. 365
    var mp := (5 * doy + 2) / 153;   // month counted from March, 0 .. 11
    var m := if mp < 10 then mp + 3 else mp - 9;
    var y := era * 400 + cen * 100 + quad * 4 + yq;
    MonthKey(if m <= 2 then y + 1 else y, m)
  }

  function Min(a: int, b: int): int
  {
    if a <= b then a else b
  }

  /** The Gregorian leap-year rule. */
  predicate IsLeapYear(y: int)
  {
    y % 4 == 0 && (y % 100 != 0 || y % 400 == 0)
  }

  /** The length of month `m` of year `y`. */
  function DaysInMonth(y: int, m: int): (r: int)
    requires 1 <= m <= 12
    ensures 28 <= r <= 31
    ensures r == 29 <==> m == 2 && IsLeapYear(y)
  {
    if m == 2 then (if IsLeapYear(y) then 29 else 28)
    else if m == 4 || m == 6 || m == 9 || m == 11 then 30
    else 31
  }

  /**
    The day number of day `d` of month `m` of year `y`, counted the same way as in
    MonthOf: the era of the March-based year, the year of the era, and the day of
    that year.
  */
  function DaysFromCivil(y: int, m: int, d: int): Day
    requires 1 <= m <= 12
  {
    var yy := if m <= 2 then y - 1 else y;
    var era := yy / 400;
    var yoe := yy % 400;
    var mp := if m >= 3 then m - 3 else m + 9;
    var doy := (153 * mp + 2) / 5 + d - 1;
    var doe := yoe * 365 + yoe / 4 - yoe / 100 + doy;
    era * 146097 + doe - 719468
  }

  /** Every day of every month, in every year, before or after 1970, is placed in that month. */
  lemma MonthOfCivil(y: int, m: int, d: int)
    requires 1 <= m <= 12 && 1 <= d <= DaysInMonth(y, m)
    ensures MonthOf(DaysFromCivil(y, m, d)) == MonthKey(y, m)
  {
    var era, c, q, y1, doy := CivilParts(y, m, d);
    var doe := c * 36524 + q * 1461 + y1 * 365 + doy;
    DivModUnique(DaysFromCivil(y, m, d) + 719468, 146097, era, doe);
    MonthOfEraParts(era, c, q, y1, doy);
  }

  /** A date split into the era, century, block, year and day of its March-based year. */
  lemma CivilParts(y: int, m: int, d: int) returns (era: int, c: int, q: int, y1: int, doy: int)
    requires 1 <= m <= 12 && 1 <= d <= DaysInMonth(y, m)
    ensures 0 <= c <= 3 && 0 <= q <= 24 && 0 <= y1 <= 3 && 0 <= doy <= 365
    ensures doy == 365 ==> y1 == 3 && (q == 24 ==> c == 3)
    ensures DaysFromCivil(y, m, d) + 719468 == era * 146097 + c * 36524 + q * 1461 + y1 * 365 + doy
    ensures era * 400 + c * 100 + q * 4 + y1 == (if m <= 2 then y - 1 else y)
    ensures var mp := (5 * doy + 2) / 153; m == (if mp < 10 then mp + 3 else mp - 9)
  {
    var yy := if m <= 2 then y - 1 else y;
    era := yy / 400;
    var yoe := yy % 400;
    var mp := if m >= 3 then m - 3 else m + 9;
    doy := (153 * mp + 2) / 5 + d - 1;
    DayOfYear(y, m, d);
    c, q, y1 := yoe / 100, yoe % 100 / 4, yoe % 4;
    YearOfEra(yoe);
    if doy == 365 {
      LeapDayPlace(y, era, c, q, y1);
    }
  }

  /** The day of the March-based year of a date, and the month it gives back. */
  lemma DayOfYear(y: int, m: int, d: int)
    requires 1 <= m <= 12 && 1 <= d <= DaysInMonth(y, m)
    ensures var mp := if m >= 3 then m - 3 else m + 9;
      var doy := (153 * mp + 2) / 5 + d - 1;
      0 <= doy <= 365 && (5 * doy + 2) / 153 == mp &&
      (doy == 365 ==> m == 2 && d == 29 && IsLeapYear(y))
  {
  }

  /** A year of an era split into centuries, four-year blocks and years. */
  lemma YearOfEra(yoe: int)
    requires 0 <= yoe < 400
    ensures var c, q, y1 := yoe / 100, yoe % 100 / 4, yoe % 4;
      0 <= c <= 3 && 0 <= q <= 24 && 0 <= y1 <= 3 &&
      yoe == 100 * c + 4 * q + y1 && yoe / 4 == 25 * c + q
  {
  }

  /**
    The leap day ends a March-based year only when the next civil year is a leap
    year: the fourth year of a block, and of the last block of a century only in
    the last century of an era.
  */
  lemma LeapDayPlace(y: int, era: int, c: int, q: int, y1: int)
    requires 0 <= c <= 3 && 0 <= q <= 24 && 0 <= y1 <= 3
    requires y == era * 400 + 100 * c + 4 * q + y1 + 1 && IsLeapYear(y)
    ensures y1 == 3 && (q == 24 ==> c == 3)
  {
    DivModUnique(y, 4, era * 100 + 25 * c + q + (if y1 == 3 then 1 else 0), if y1 == 3 then 0 else y1 + 1);
    if q == 24 {
      DivModUnique(y, 100, era * 4 + c + 1, 0);
      DivModUnique(y, 400, era + (if c == 3 then 1 else 0), if c == 3 then 0 else 100 * (c + 1));
    }
  }

  /** MonthOfEra read off a day of an era given by its century, block, year and day of the year. */
  lemma MonthOfEraParts(era: int, c: int, q: int, y1: int, doy: int)
    requires 0 <= c <= 3 && 0 <= q <= 24 && 0 <= y1 <= 3 && 0 <= doy <= 365
    requires doy == 365 ==> y1 == 3 && (q == 24 ==> c == 3)
    ensures var mp := (5 * doy + 2) / 153;
      var m := if mp < 10 then mp + 3 else mp - 9;
      var y := era * 400 + c * 100 + q * 4 + y1;
      MonthOfEra(era, c * 36524 + q * 1461 + y1 * 365 + doy) == MonthKey(if m <= 2 then y + 1 else y, m)
  {
    DayOfEraParts(c, q, y1, doy);
  }

  /** The century, block, year and day of the year that MonthOf reads off a day of an era. */
  lemma DayOfEraParts(c: int, q: int, y1: int, doy: int)
    requires 0 <= c <= 3 && 0 <= q <= 24 && 0 <= y1 <= 3 && 0 <= doy <= 365
    requires doy == 365 ==> y1 == 3 && (q == 24 ==> c == 3)
    ensures var doe := c * 36524 + q * 1461 + y1 * 365 + doy;
      var cen := Min(doe / 36524, 3);
      var doc := doe - cen * 36524;
      var doq := doc % 1461;
      var yq := Min(doq / 365, 3);
      cen == c && doc / 1461 == q && yq == y1 && doq - yq * 365 == doy
  {
    var doe := c * 36524 + q * 1461 + y1 * 365 + doy;
    var doc := q * 1461 + y1 * 365 + doy;
    if doc < 36524 {
      DivModUnique(doe, 36524, c, doc);
    } else {
      DivModUnique(doe, 36524, 4, 0);
    }
    DivModUnique(doc, 1461, q, y1 * 365 + doy);
    if doy < 365 {
      DivModUnique(y1 * 365 + doy, 365, y1, doy);
    } else {
      DivModUnique(y1 * 365 + doy, 365, 4, 0);
    }
  }

  /** Quotient and remainder are fixed by any decomposition with the remainder in range. */
  lemma DivModUnique(z: int, b: int, q: int, r: int)
    requires b > 0 && 0 <= r < b && z == q * b + r
    ensures z / b == q && z % b == r
  {
    var k, m := z / b, z % b;
    assert (k - q) * b == r - m;
    if k > q {
      MulAtLeast(k - q, b);
    } else if k < q {
      MulAtLeast(q - k, b);
    }
  }

  lemma MulAtLeast(a: int, b: int)
    requires a >= 1 && b > 0
    ensures a * b >= b
  {
    assert a * b == (a - 1) * b + b;
  }

  /** Day 0 is 1 January 1970. */
  lemma MonthOfEpoch()
    ensures MonthOf(0) == MonthKey(1970, 1)
  {
    assert 719468 / 146097 == 4 && 719468 % 146097 == 135080;
    assert 25508 / 1461 == 17 && 25508 % 1461 == 671;
    assert (5 * 306 + 2) / 153 == 10;
  }

  /** 29 February 2024 is a leap day. */
  lemma MonthOfLeapDay()
    ensures MonthOf(19782) == MonthKey(2024, 2)
  {
    assert 739250 / 146097 == 5 && 739250 % 146097 == 8765;
    assert 8765 / 1461 == 5 && 8765 % 1461 == 1460;
    assert (5 * 365 + 2) / 153 == 11;
  }

  /** The day after 29 February 2024 is 1 March. */
  lemma MonthOfAfterLeapDay()
    ensures MonthOf(19783) == MonthKey(2024, 3)
  {
    assert 739251 / 146097 == 5 && 739251 % 146097 == 8766;
    assert 8766 / 1461 == 6 && 8766 % 1461 == 0;
  }

  /** The day before day 0 is 31 December 1969. */
  lemma MonthOfBeforeEpoch()
    ensures MonthOf(-1) == MonthKey(1969, 12)
  {
    assert 719467 / 146097 == 4 && 719467 % 146097 == 135079;
    assert 25507 / 1461 == 17 && 25507 % 1461 == 670;
    assert (5 * 305 + 2) / 153 == 9;
  }
}
