/**
 Day numbers of the proleptic Gregorian calendar: `days_from_civil` and `civil_from_days`, against
 a calendar that knows only leap years and month lengths.
 */
module Calendar {
  import opened Arith

  datatype Date = Date(y: int, m: int, d: int)

  // ----- the independent calendar -----

  predicate IsLeap(y: int) {
    y % 4 == 0 && (y % 100 != 0 || y % 400 == 0)
  }

  function DaysInMonth(y: int, m: int): int {
    if m == 2 then (if IsLeap(y) then 29 else 28)
    else if m == 4 || m == 6 || m == 9 || m == 11 then 30
    else 31
  }

  predicate ValidDate(t: Date) {
    1 <= t.m <= 12 && 1 <= t.d <= DaysInMonth(t.y, t.m)
  }

  function NextDay(t: Date): Date {
    if t.d < DaysInMonth(t.y, t.m) then Date(t.y, t.m, t.d + 1)
    else if t.m < 12 then Date(t.y, t.m + 1, 1)
    else Date(t.y + 1, 1, 1)
  }

  predicate Earlier(a: Date, b: Date) {
    a.y < b.y || (a.y == b.y && (a.m < b.m || (a.m == b.m && a.d < b.d)))
  }

  // ----- the code -----

  /** Machine division, which truncates toward zero. */
  function TruncDiv(a: int, b: int): int
    requires b > 0
  {
    if a >= 0 then a / b else -((-a) / b)
  }

  function DaysFromCivil(t: Date): int {
    var y := if t.m <= 2 then t.y - 1 else t.y;
    var era := TruncDiv(if y >= 0 then y else y - 399, 400);
    var yoe := y - era * 400;
    var mp := (t.m + 9) % 12;
    var doy := (153 * mp + 2) / 5 + t.d - 1;
    var doe := yoe * 365 + yoe / 4 - yoe / 100 + doy;
    era * 146097 + doe - 719468
  }

  function CivilFromDays(days: int): Date {
    var z := days + 719468;
    var era := TruncDiv(if z >= 0 then z else z - 146096, 146097);
    var doe := z - era * 146097;
    var yoe := (doe - doe / 1460 + doe / 36524 - doe / 146096) / 365;
    var doy := doe - (365 * yoe + yoe / 4 - yoe / 100);
    var mp := (5 * doy + 2) / 153;
    var d := doy - (153 * mp + 2) / 5 + 1;
    var m := if mp < 10 then mp + 3 else mp - 9;
    Date(if m <= 2 then yoe + era * 400 + 1 else yoe + era * 400, m, d)
  }

  // ----- the March-based year both directions pass through -----

  /** Days before the March-based year `y`, in closed form. */
  function YearStart(y: int): int {
    365 * y + y / 4 - y / 100 + y / 400
  }

  /** A March-based year ends with the February of the next civil year. */
  function YearLength(y: int): int {
    if IsLeap(y + 1) then 366 else 365
  }

  function MonthStart(mp: int): int {
    (153 * mp + 2) / 5
  }

  function MarchYear(t: Date): int {
    if t.m <= 2 then t.y - 1 else t.y
  }

  function MarchDay(t: Date): int {
    MonthStart((t.m + 9) % 12) + t.d - 1
  }

  lemma EraIsFloor(y: int, p: int)
    requires p > 0
    ensures TruncDiv(if y >= 0 then y else y - (p - 1), p) == y / p
  {
    if y < 0 {
      var q, r := y / p, y % p;
      var n := -(y - (p - 1));
      assert n == p * (-q) + (p - 1 - r);
      assert n / p == -q by { DivUnique(n, p, -q, p - 1 - r); }
    }
  }

  lemma DaysClosedForm(t: Date)
    ensures DaysFromCivil(t) == YearStart(MarchYear(t)) + MarchDay(t) - 719468
  {
    var y := MarchYear(t);
    EraIsFloor(y, 400);
    var era := y / 400;
    assert (y - era * 400) / 4 == y / 4 - 100 * era;
    assert (y - era * 400) / 100 == y / 100 - 4 * era;
  }

  lemma YearStartNext(y: int)
    ensures YearStart(y + 1) == YearStart(y) + YearLength(y)
  {
    var q := (y + 1) / 4;
    assert (y + 1) / 100 == q / 25 && (y + 1) / 400 == q / 100;
    assert y % 4 != 3 ==> y / 4 == q;
    assert y % 4 == 3 ==> y / 4 == q - 1;
    assert y / 100 == (y / 4) / 25 && y / 400 == (y / 4) / 100;
  }

  lemma YearStartGrows(a: int, b: int)
    requires a < b
    ensures YearStart(a) + YearLength(a) <= YearStart(b)
    decreases b - a
  {
    if a + 1 < b {
      YearStartGrows(a, b - 1);
      YearStartNext(b - 1);
    } else {
      YearStartNext(a);
    }
  }

  /** Month `mp` of the March-based year holds days `MonthStart(mp)` up to `MonthStart(mp + 1)`. */
  lemma MonthOfDay(mp: int, k: int)
    requires 0 <= mp < 12 && 0 <= k && MonthStart(mp) + k < MonthStart(mp + 1)
    ensures (5 * (MonthStart(mp) + k) + 2) / 153 == mp
  {
    var r := (153 * mp + 2) % 5;
    assert 153 * mp + 2 == 5 * MonthStart(mp) + r;
    DivUnique(5 * (MonthStart(mp) + k) + 2, 153, mp, 5 * k + 4 - r);
  }

  lemma MonthFits(t: Date)
    requires ValidDate(t)
    ensures var mp := (t.m + 9) % 12; 0 <= mp < 12 && MarchDay(t) < MonthStart(mp + 1)
    ensures MarchDay(t) < YearLength(MarchYear(t))
  {
  }

  lemma MarchDayInYear(t: Date)
    requires ValidDate(t)
    ensures 0 <= MarchDay(t) < YearLength(MarchYear(t))
    ensures (5 * MarchDay(t) + 2) / 153 == (t.m + 9) % 12
  {
    MonthFits(t);
    MonthOfDay((t.m + 9) % 12, t.d - 1);
  }

  /** The year-of-era formula inverts the day-of-era layout on every day of the 400-year cycle. */
  lemma YearOfEra(yoe: int, doy: int)
    requires 0 <= yoe < 400 && 0 <= doy < YearLength(yoe)
    ensures var doe := 365 * yoe + yoe / 4 - yoe / 100 + doy;
      0 <= doe < 146097 && (doe - doe / 1460 + doe / 36524 - doe / 146096) / 365 == yoe
  {
    var c, q, r := Groups(yoe, doy);
    YearOfGroups(c, q, r, doy);
  }

  /** A year of the cycle as centuries, four-year groups and years. */
  lemma Groups(yoe: int, doy: int) returns (c: int, q: int, r: int)
    requires 0 <= yoe < 400 && 0 <= doy < YearLength(yoe)
    ensures 0 <= c < 4 && 0 <= q < 25 && 0 <= r < 4 && 0 <= doy <= 365
    ensures yoe == 100 * c + 4 * q + r && yoe / 4 == 25 * c + q && yoe / 100 == c
    ensures doy == 365 ==> r == 3 && (q == 24 ==> c == 3)
  {
    c, q, r := yoe / 100, yoe % 100 / 4, yoe % 4;
  }

  lemma YearOfGroups(c: int, q: int, r: int, doy: int)
    requires 0 <= c < 4 && 0 <= q < 25 && 0 <= r < 4 && 0 <= doy <= 365
    requires doy == 365 ==> r == 3 && (q == 24 ==> c == 3)
    ensures var doe := 365 * (100 * c + 4 * q + r) + (25 * c + q) - c + doy;
      0 <= doe < 146097 && (doe - doe / 1460 + doe / 36524 - doe / 146096) / 365 == 100 * c + 4 * q + r
  {
    CorrectionTerms(c, q, r, doy);
    var doe := 36524 * c + 1461 * q + 365 * r + doy;
    var rest := if 24 * c + q + 365 * r + doy >= 1460 then doy - 1 else doy;
    assert 365 * (100 * c + 4 * q + r) + (25 * c + q) - c + doy == doe;
    DivUnique(doe - doe / 1460 + doe / 36524 - doe / 146096, 365, 100 * c + 4 * q + r, rest);
  }

  lemma CorrectionTerms(c: int, q: int, r: int, doy: int)
    requires 0 <= c < 4 && 0 <= q < 25 && 0 <= r < 4 && 0 <= doy <= 365
    requires doy == 365 ==> r == 3 && (q == 24 ==> c == 3)
    ensures var doe := 36524 * c + 1461 * q + 365 * r + doy;
      && 0 <= doe < 146097
      && doe / 1460 == 25 * c + q + (if 24 * c + q + 365 * r + doy >= 1460 then 1 else 0)
      && doe / 36524 - doe / 146096 == c
  {
    var doe := 36524 * c + 1461 * q + 365 * r + doy;
    var w := 24 * c + q + 365 * r + doy;
    if w >= 1460 {
      DivUnique(doe, 1460, 25 * c + q + 1, w - 1460);
    } else {
      DivUnique(doe, 1460, 25 * c + q, w);
    }
    var v := 1461 * q + 365 * r + doy;
    assert v == 36524 ==> c == 3 && doe == 146096;
    if v < 36524 { DivUnique(doe, 36524, c, v); }
  }

  /** Where a day of the 400-year cycle lies: its March-based year and the day in that year. */
  lemma LocateInEra(doe: int) returns (yoe: int, doy: int)
    requires 0 <= doe < 146097
    ensures 0 <= yoe < 400 && 0 <= doy < YearLength(yoe)
    ensures doe == 365 * yoe + yoe / 4 - yoe / 100 + doy
  {
    var c := if doe == 146096 then 3 else doe / 36524;
    var v := doe - 36524 * c;
    var q := v / 1461;
    var w := v % 1461;
    var r := if w == 1460 then 3 else w / 365;
    doy := w - 365 * r;
    yoe := 100 * c + 4 * q + r;
    assert 0 <= c < 4 && 0 <= v <= 36524 && 0 <= q < 25 && 0 <= r < 4;
    assert yoe / 4 == 25 * c + q && yoe / 100 == c;
    assert yoe % 4 == r;
    if doy == 365 {
      assert q == 24 ==> v == 36524;
      assert (yoe + 1) % 4 == 0;
      assert q < 24 ==> (yoe + 1) % 100 == 4 * q + 4;
    }
  }

  /** The date at day `doy` of the March-based year `y`. */
  function DateOf(y: int, doy: int): Date {
    var mp := (5 * doy + 2) / 153;
    var m := if mp < 10 then mp + 3 else mp - 9;
    Date(if m <= 2 then y + 1 else y, m, doy - MonthStart(mp) + 1)
  }

  lemma DateOfInverse(y: int, doy: int)
    requires 0 <= doy < YearLength(y)
    ensures var t := DateOf(y, doy); ValidDate(t) && MarchYear(t) == y && MarchDay(t) == doy
  {
    var mp := (5 * doy + 2) / 153;
    assert 0 <= mp < 12;
    assert mp == 0 || mp == 1 || mp == 2 || mp == 3 || mp == 4 || mp == 5
        || mp == 6 || mp == 7 || mp == 8 || mp == 9 || mp == 10 || mp == 11;
  }

  lemma YearStartInEra(era: int, yoe: int)
    requires 0 <= yoe < 400
    ensures YearStart(400 * era + yoe) == 146097 * era + 365 * yoe + yoe / 4 - yoe / 100
    ensures YearLength(400 * era + yoe) == YearLength(yoe)
  {
    var y := 400 * era + yoe;
    DivUnique(y, 4, 100 * era + yoe / 4, yoe % 4);
    DivUnique(y, 100, 4 * era + yoe / 100, yoe % 100);
    DivUnique(y, 400, era, yoe);
    DivUnique(y + 1, 4, 100 * era + (yoe + 1) / 4, (yoe + 1) % 4);
    DivUnique(y + 1, 100, 4 * era + (yoe + 1) / 100, (yoe + 1) % 100);
    DivUnique(y + 1, 400, era + (yoe + 1) / 400, (yoe + 1) % 400);
  }

  lemma DateOfPosition(t: Date)
    requires ValidDate(t)
    ensures DateOf(MarchYear(t), MarchDay(t)) == t
  {
    hide MonthStart, YearLength, DaysInMonth;
    MarchDayInYear(t);
  }

  lemma EraSplit(era: int, doe: int)
    requires 0 <= doe < 146097
    ensures var z := 146097 * era + doe; TruncDiv(if z >= 0 then z else z - 146096, 146097) == era
  {
    var z := 146097 * era + doe;
    DivUnique(z, 146097, era, doe);
    EraIsFloor(z, 146097);
  }

  lemma CivilOfEra(era: int, yoe: int, doy: int)
    requires 0 <= yoe < 400 && 0 <= doy < YearLength(yoe)
    ensures var doe := 365 * yoe + yoe / 4 - yoe / 100 + doy;
      CivilFromDays(146097 * era + doe - 719468) == DateOf(400 * era + yoe, doy)
  {
    hide *;
    YearOfEra(yoe, doy);
    var doe := 365 * yoe + yoe / 4 - yoe / 100 + doy;
    EraSplit(era, doe);
    CivilUnfolded(146097 * era + doe - 719468, era, doe, yoe);
  }

  lemma CivilUnfolded(days: int, era: int, doe: int, yoe: int)
    requires var z := days + 719468;
      TruncDiv(if z >= 0 then z else z - 146096, 146097) == era && doe == z - era * 146097
    requires (doe - doe / 1460 + doe / 36524 - doe / 146096) / 365 == yoe
    ensures CivilFromDays(days) == DateOf(yoe + era * 400, doe - (365 * yoe + yoe / 4 - yoe / 100))
  {
    hide TruncDiv;
  }

  lemma CivilOfPosition(y: int, doy: int)
    requires 0 <= doy < YearLength(y)
    ensures CivilFromDays(YearStart(y) + doy - 719468) == DateOf(y, doy)
  {
    var era, yoe := y / 400, y % 400;
    assert y == 400 * era + yoe;
    YearStartInEra(era, yoe);
    CivilOfEra(era, yoe, doy);
  }

  // ----- main results -----

  /** Every valid date survives the trip through its day number. */
  lemma DateRoundTrip(t: Date)
    requires ValidDate(t)
    ensures CivilFromDays(DaysFromCivil(t)) == t
  {
    hide *;
    DaysClosedForm(t);
    assert 0 <= MarchDay(t) < YearLength(MarchYear(t)) by { MarchDayInYear(t); }
    CivilOfPosition(MarchYear(t), MarchDay(t));
    DateOfPosition(t);
  }

  /** Every integer is the day number of the valid date computed for it. */
  lemma DayRoundTrip(days: int)
    ensures ValidDate(CivilFromDays(days)) && DaysFromCivil(CivilFromDays(days)) == days
  {
    hide *;
    var z := days + 719468;
    var era, doe := z / 146097, z % 146097;
    var yoe, doy := LocateInEra(doe);
    YearStartInEra(era, yoe);
    var y := 400 * era + yoe;
    CivilOfPosition(y, doy);
    DateOfInverse(y, doy);
    DaysClosedForm(DateOf(y, doy));
  }

  /** Day numbers count calendar days: the epoch is 0 and the next date is the next number. */
  lemma NextDayIsNextNumber(t: Date)
    requires ValidDate(t)
    ensures ValidDate(NextDay(t)) && DaysFromCivil(NextDay(t)) == DaysFromCivil(t) + 1
    ensures DaysFromCivil(Date(1970, 1, 1)) == 0
  {
    hide *;
    NextDayIsValid(t);
    Epoch();
    DaysClosedForm(t);
    DaysClosedForm(NextDay(t));
    NextPosition(t);
    YearStartNext(MarchYear(t));
  }

  lemma NextDayIsValid(t: Date)
    requires ValidDate(t)
    ensures ValidDate(NextDay(t))
  {
  }

  lemma Epoch()
    ensures DaysFromCivil(Date(1970, 1, 1)) == 0
  {
  }

  lemma NextPosition(t: Date)
    requires ValidDate(t)
    ensures var u := NextDay(t);
      || (MarchYear(u) == MarchYear(t) && MarchDay(u) == MarchDay(t) + 1)
      || (MarchYear(u) == MarchYear(t) + 1 && MarchDay(u) == 0 && MarchDay(t) + 1 == YearLength(MarchYear(t)))
  {
  }

  /** Day numbers order dates exactly as the calendar does. */
  lemma DayOrderIsDateOrder(a: Date, b: Date)
    requires ValidDate(a) && ValidDate(b)
    ensures Earlier(a, b) <==> DaysFromCivil(a) < DaysFromCivil(b)
  {
    if Earlier(a, b) {
      EarlierIsSmaller(a, b);
    } else if a != b {
      EarlierIsSmaller(b, a);
    }
  }

  lemma EarlierIsSmaller(a: Date, b: Date)
    requires ValidDate(a) && ValidDate(b) && Earlier(a, b)
    ensures DaysFromCivil(a) < DaysFromCivil(b)
  {
    EarlierPosition(a, b);
    hide *;
    DaysClosedForm(a);
    DaysClosedForm(b);
    MarchDayInYear(a);
    MarchDayInYear(b);
    if MarchYear(a) < MarchYear(b) {
      YearStartGrows(MarchYear(a), MarchYear(b));
    }
  }

  lemma EarlierPosition(a: Date, b: Date)
    requires ValidDate(a) && ValidDate(b) && Earlier(a, b)
    ensures MarchYear(a) < MarchYear(b) || (MarchYear(a) == MarchYear(b) && MarchDay(a) < MarchDay(b))
  {
    if a.m != b.m && MarchYear(a) == MarchYear(b) {
      MonthFits(a);
      MonthStartGrows((a.m + 9) % 12 + 1, (b.m + 9) % 12);
    }
  }

  lemma MonthStartGrows(p: int, q: int)
    requires 0 <= p <= q
    ensures MonthStart(p) <= MonthStart(q)
  {
  }
}
