/** Serial days to calendar dates (crates/io/src/xlsx.rs): Excel's 1900 date
    system, integer part. Leap years follow section 3.2.1 of ISO 8601:2004. */
module ExcelDate {

  datatype Date = Date(year: int, month: int, day: int)

  /** Division that truncates toward zero. */
  function Quotient(a: int, b: int): int
    requires b > 0
  {
    if a >= 0 then a / b else -((-a) / b)
  }

  function Era(z: int): int { Quotient(if z >= 0 then z else z - 146_096, 146_097) }

  function YearOfEra(doe: int): int
  {
    Quotient(doe - Quotient(doe, 1460) + Quotient(doe, 36_524) - Quotient(doe, 146_096), 365)
  }

  /** Day of the year that begins on 1 March. */
  function DayOfYear(doe: int, yoe: int): int { doe - (365 * yoe + Quotient(yoe, 4) - Quotient(yoe, 100)) }

  function MonthIndex(doy: int): int { Quotient(5 * doy + 2, 153) }

  /** `excel_serial_to_iso` for a whole serial. */
  function FromSerial(serial: int): Date {
    var z := serial - 25569 + 719_468;
    var era := Era(z);
    var doe := z - era * 146_097;
    var yoe := YearOfEra(doe);
    var y := yoe + era * 400;
    var doy := DayOfYear(doe, yoe);
    var mp := MonthIndex(doy);
    var d := doy - Quotient(153 * mp + 2, 5) + 1;
    var m := if mp < 10 then mp + 3 else mp - 9;
    Date(if m <= 2 then y + 1 else y, m, d)
  }

  // ---------- the calendar ----------

  predicate IsLeap(y: int) { y % 4 == 0 && (y % 100 != 0 || y % 400 == 0) }

  function DaysIn(y: int, m: int): int {
    if m == 2 then (if IsLeap(y) then 29 else 28) else if m == 4 || m == 6 || m == 9 || m == 11 then 30 else 31
  }

  predicate ValidDate(d: Date) { 1 <= d.month <= 12 && 1 <= d.day <= DaysIn(d.year, d.month) }

  /** The calendar day after. */
  function Tomorrow(d: Date): Date {
    if d.day < DaysIn(d.year, d.month) then d.(day := d.day + 1)
    else if d.month < 12 then Date(d.year, d.month + 1, 1)
    else Date(d.year + 1, 1, 1)
  }

  predicate Before(a: Date, b: Date) {
    a.year < b.year || (a.year == b.year && (a.month < b.month || (a.month == b.month && a.day < b.day)))
  }

  // ---------- eras ----------

  lemma EraOk(z: int)
    ensures 0 <= z - Era(z) * 146_097 < 146_097
  {
  }

  lemma EraUnique(z: int, era: int, doe: int)
    requires z == era * 146_097 + doe && 0 <= doe < 146_097
    ensures Era(z) == era
  {
    EraOk(z);
  }

  // ---------- the year within an era ----------

  /** A day of an era as century, four-year cycle, year and day of the year. */
  datatype Place = Place(century: int, cycle: int, year: int, day: int)

  /** The years of a 400-year era run from March to February, so that only the
      last year of a cycle has a leap day, except at the end of a century that
      is not the last. */
  function LastDay(p: Place): int { if p.year == 3 && (p.cycle < 24 || p.century == 3) then 365 else 364 }

  predicate PlaceOk(p: Place) { 0 <= p.century <= 3 && 0 <= p.cycle <= 24 && 0 <= p.year <= 3 && 0 <= p.day <= LastDay(p) }

  function DayOf(p: Place): int { 36_524 * p.century + 1461 * p.cycle + 365 * p.year + p.day }

  function YearOf(p: Place): int { 100 * p.century + 4 * p.cycle + p.year }

  /** The divisions of the year formula, one by one. */
  lemma Centuries(p: Place)
    requires PlaceOk(p)
    ensures DayOf(p) / 36_524 - DayOf(p) / 146_096 == p.century
    ensures 0 <= DayOf(p) < 146_097
  {
    var r := 1461 * p.cycle + 365 * p.year + p.day;
    assert 0 <= r <= 36_524 && (r == 36_524 ==> p.century == 3);
  }

  lemma Cycles(p: Place)
    requires PlaceOk(p)
    ensures var s := 365 * p.year + p.day;
      DayOf(p) / 1460 == 25 * p.century + p.cycle + (if 24 * p.century + p.cycle + s >= 1460 then 1 else 0)
  {
    var s := 365 * p.year + p.day;
    var low := 24 * p.century + p.cycle + s;
    assert DayOf(p) == 1460 * (25 * p.century + p.cycle) + low;
    assert 0 <= low < 2920;
  }

  /** The formula finds the year. */
  lemma YearFound(p: Place)
    requires PlaceOk(p)
    ensures YearOfEra(DayOf(p)) == YearOf(p) && DayOfYear(DayOf(p), YearOf(p)) == p.day
  {
    Centuries(p);
    Cycles(p);
    var s := 365 * p.year + p.day;
    var e := if 24 * p.century + p.cycle + s >= 1460 then 1 else 0;
    var n := DayOf(p) - DayOf(p) / 1460 + DayOf(p) / 36_524 - DayOf(p) / 146_096;
    assert n == 36_500 * p.century + 1460 * p.cycle + s - e;
    assert n == 365 * YearOf(p) + (p.day - e);
    assert 0 <= p.day - e < 365;
    assert YearOf(p) / 4 == 25 * p.century + p.cycle && YearOf(p) / 100 == p.century;
  }

  /** Every day of an era has a place. */
  lemma PlaceExists(doe: int) returns (p: Place)
    requires 0 <= doe < 146_097
    ensures PlaceOk(p) && DayOf(p) == doe
  {
    var c := if doe / 36_524 > 3 then 3 else doe / 36_524;
    var r := doe - 36_524 * c;
    var q := r / 1461;
    var s := r - 1461 * q;
    var y := if s / 365 > 3 then 3 else s / 365;
    p := Place(c, q, y, s - 365 * y);
  }

  /** The next day of the era, if there is one. */
  function NextPlace(p: Place): Place {
    if p.day < LastDay(p) then p.(day := p.day + 1)
    else if p.year < 3 then Place(p.century, p.cycle, p.year + 1, 0)
    else if p.cycle < 24 then Place(p.century, p.cycle + 1, 0, 0)
    else Place(p.century + 1, 0, 0, 0)
  }

  lemma NextPlaceOk(p: Place)
    requires PlaceOk(p) && DayOf(p) < 146_096
    ensures PlaceOk(NextPlace(p)) && DayOf(NextPlace(p)) == DayOf(p) + 1
  {
  }

  // ---------- the date of a place ----------

  /** Day and month from the day of the March year. */
  function DateOf(year: int, doy: int): Date {
    var mp := (5 * doy + 2) / 153;
    var m := if mp < 10 then mp + 3 else mp - 9;
    Date(if m <= 2 then year + 1 else year, m, doy - (153 * mp + 2) / 5 + 1)
  }

  lemma Mod4(y: int, k: int, r: int)
    requires 0 <= r < 4 && y == 4 * k + r
    ensures y % 4 == r
  {
  }

  lemma Mod100(y: int, k: int, r: int)
    requires 0 <= r < 100 && y == 100 * k + r
    ensures y % 100 == r
  {
  }

  lemma Mod400(y: int, k: int, r: int)
    requires 0 <= r < 400 && y == 400 * k + r
    ensures y % 400 == r
  {
  }

  /** The February that ends a March year is a leap one exactly when the year
      has 366 days. */
  lemma LeapAtEnd(p: Place, era: int)
    requires PlaceOk(p)
    ensures IsLeap(YearOf(p) + 400 * era + 1) <==> LastDay(p) == 365
  {
    var y := YearOf(p) + 400 * era + 1;
    var cycles := 25 * p.century + p.cycle + 100 * era;
    if p.year < 3 {
      Mod4(y, cycles, p.year + 1);
    } else if p.cycle < 24 {
      Mod4(y, cycles + 1, 0);
      Mod100(y, p.century + 4 * era, 4 * (p.cycle + 1));
    } else {
      Mod4(y, cycles + 1, 0);
      Mod100(y, p.century + 1 + 4 * era, 0);
      if p.century < 3 { Mod400(y, era, 100 * (p.century + 1)); } else { Mod400(y, era + 1, 0); }
    }
  }

  lemma DateValid(year: int, doy: int)
    requires 0 <= doy <= 364 || (doy == 365 && IsLeap(year + 1))
    ensures ValidDate(DateOf(year, doy))
  {
  }

  lemma DateNext(year: int, doy: int)
    requires 0 <= doy < 364 || (doy == 364 && IsLeap(year + 1))
    ensures DateOf(year, doy + 1) == Tomorrow(DateOf(year, doy))
  {
  }

  lemma YearNext(year: int, doy: int)
    requires doy == if IsLeap(year + 1) then 365 else 364
    ensures DateOf(year + 1, 0) == Tomorrow(DateOf(year, doy))
  {
  }

  predicate Places(serial: int, era: int, p: Place) {
    PlaceOk(p) && serial - 25569 + 719_468 == era * 146_097 + DayOf(p)
  }

  /** The date of a serial, without the formula. */
  ghost predicate Dated(serial: int, d: Date) {
    exists era, p :: Places(serial, era, p) && d == DateOf(YearOf(p) + 400 * era, p.day)
  }

  lemma PlaceSerial(serial: int, era: int, p: Place)
    requires Places(serial, era, p)
    ensures FromSerial(serial) == DateOf(YearOf(p) + 400 * era, p.day)
  {
    Centuries(p);
    EraUnique(serial - 25569 + 719_468, era, DayOf(p));
    YearFound(p);
    SameFormula(serial, era, p);
  }

  /** With era and year known, the rest of the formula is the month table. */
  lemma SameFormula(serial: int, era: int, p: Place)
    requires PlaceOk(p) && Era(serial - 25569 + 719_468) == era && serial - 25569 + 719_468 == era * 146_097 + DayOf(p)
    requires YearOfEra(DayOf(p)) == YearOf(p) && DayOfYear(DayOf(p), YearOf(p)) == p.day
    ensures FromSerial(serial) == DateOf(YearOf(p) + 400 * era, p.day)
  {
    hide Era, YearOfEra, DayOfYear, DayOf, YearOf;
    assert serial - 25569 + 719_468 - era * 146_097 == DayOf(p);
    MonthTable(p.day);
  }

  lemma MonthTable(doy: int)
    requires 0 <= doy
    ensures var mp := (5 * doy + 2) / 153; MonthIndex(doy) == mp && Quotient(153 * mp + 2, 5) == (153 * mp + 2) / 5
  {
  }

  lemma SerialPlace(serial: int) returns (era: int, p: Place)
    ensures Places(serial, era, p)
  {
    var z := serial - 25569 + 719_468;
    EraOk(z);
    era := Era(z);
    p := PlaceExists(z - era * 146_097);
  }

  /** The formula computes the date. */
  lemma FormulaIsDate(serial: int, d: Date)
    ensures Dated(serial, d) <==> d == FromSerial(serial)
  {
    hide DateOf, FromSerial, YearOf, DayOf;
    var era, p := SerialPlace(serial);
    PlaceSerial(serial, era, p);
    if e, q :| Places(serial, e, q) && d == DateOf(YearOf(q) + 400 * e, q.day) { PlaceSerial(serial, e, q); }
  }

  // ---------- what the conversion promises ----------

  lemma AlwaysValid(serial: int)
    ensures ValidDate(FromSerial(serial))
  {
    var era, p := SerialPlace(serial);
    PlaceSerial(serial, era, p);
    LeapAtEnd(p, era);
    DateValid(YearOf(p) + 400 * era, p.day);
  }

  lemma Epoch()
    ensures FromSerial(25569) == Date(1970, 1, 1)
  {
  }

  lemma NextInEra(p: Place, era: int)
    requires PlaceOk(p) && DayOf(p) < 146_096
    ensures DateOf(YearOf(NextPlace(p)) + 400 * era, NextPlace(p).day) == Tomorrow(DateOf(YearOf(p) + 400 * era, p.day))
  {
    hide DateOf, Tomorrow;
    LeapAtEnd(p, era);
    var year := YearOf(p) + 400 * era;
    if p.day < LastDay(p) {
      DateNext(year, p.day);
    } else {
      NextPlaceOk(p);
      assert YearOf(NextPlace(p)) == YearOf(p) + 1 && NextPlace(p).day == 0;
      YearNext(year, p.day);
    }
  }

  lemma LastPlace(p: Place)
    requires PlaceOk(p) && DayOf(p) == 146_096
    ensures YearOf(p) == 399 && p.day == 365 && LastDay(p) == 365
  {
  }

  lemma FirstPlace() returns (q: Place)
    ensures PlaceOk(q) && YearOf(q) == 0 && DayOf(q) == 0 && q.day == 0
  {
    q := Place(0, 0, 0, 0);
  }

  /** From the last day of an era to the first of the next. */
  lemma NextEra(p: Place, era: int, last: int)
    requires PlaceOk(p) && DayOf(p) == 146_096 && last == YearOf(p) + 400 * era
    ensures last == 399 + 400 * era && p.day == 365 && DateOf(last + 1, 0) == Tomorrow(DateOf(last, 365))
  {
    LastPlace(p);
    LeapAtEnd(p, era);
    YearNext(last, 365);
  }

  lemma EraSteps(serial: int, era: int)
    requires serial - 25569 + 719_468 == era * 146_097 + 146_096
    ensures serial + 1 - 25569 + 719_468 == (era + 1) * 146_097 + 0
    ensures 0 + 400 * (era + 1) == 399 + 400 * era + 1
  {
  }

  lemma FirstPlaces(serial: int, next: int, q: Place, day: int)
    requires PlaceOk(q) && DayOf(q) == day && day == 0 && serial - 25569 + 719_468 == next * 146_097
    ensures Places(serial, next, q)
  {
  }

  lemma SameDate(year: int, day: int, next: int, first: int)
    requires year == 0 && day == 0 && first == 400 * next
    ensures DateOf(year + 400 * next, day) == DateOf(first, 0)
  {
    assert year + 400 * next == first;
  }

  lemma NextEraPlaces(serial: int, next: int, q: Place, d: Date, first: int)
    requires PlaceOk(q) && YearOf(q) == 0 && DayOf(q) == 0 && q.day == 0
    requires serial - 25569 + 719_468 == next * 146_097 && first == 400 * next && d == DateOf(first, 0)
    ensures Dated(serial, d)
  {
    SameDate(YearOf(q), q.day, next, first);
    FirstPlaces(serial, next, q, 0);
    PlaceDated(serial, next, q, d);
  }

  lemma DatedInEra(serial: int, era: int, p: Place)
    requires Places(serial, era, p) && DayOf(p) != 146_096
    ensures Dated(serial + 1, Tomorrow(DateOf(YearOf(p) + 400 * era, p.day)))
  {
    NextPlaces(serial, era, p);
    NextInEra(p, era);
    PlaceDated(serial + 1, era, NextPlace(p), Tomorrow(DateOf(YearOf(p) + 400 * era, p.day)));
  }

  lemma DatedNext(serial: int, d: Date)
    requires Dated(serial, d)
    ensures Dated(serial + 1, Tomorrow(d))
  {
    hide DateOf, Tomorrow, YearOf;
    var era, p :| Places(serial, era, p) && d == DateOf(YearOf(p) + 400 * era, p.day);
    if DayOf(p) == 146_096 {
      NextEra(p, era, YearOf(p) + 400 * era);
      EraSteps(serial, era);
      var q := FirstPlace();
      NextEraPlaces(serial + 1, era + 1, q, Tomorrow(d), YearOf(p) + 400 * era + 1);
    } else {
      DatedInEra(serial, era, p);
    }
  }

  lemma NextPlaces(serial: int, era: int, p: Place)
    requires Places(serial, era, p) && DayOf(p) != 146_096
    ensures Places(serial + 1, era, NextPlace(p)) && DayOf(p) < 146_096
  {
    Centuries(p);
    NextPlaceOk(p);
  }

  lemma PlaceDated(serial: int, era: int, p: Place, d: Date)
    requires Places(serial, era, p) && d == DateOf(YearOf(p) + 400 * era, p.day)
    ensures Dated(serial, d)
  {
  }

  /** The next serial is the next calendar day, across months, years, leap
      days, centuries and eras, before the epoch as after it. */
  lemma SerialSuccessor(serial: int)
    ensures FromSerial(serial + 1) == Tomorrow(FromSerial(serial))
  {
    FormulaIsDate(serial, FromSerial(serial));
    DatedNext(serial, FromSerial(serial));
    FormulaIsDate(serial + 1, Tomorrow(FromSerial(serial)));
  }

  lemma TomorrowIsLater(d: Date)
    requires ValidDate(d)
    ensures Before(d, Tomorrow(d))
  {
  }

  lemma BeforeTransitive(a: Date, b: Date, c: Date)
    requires Before(a, b) && Before(b, c)
    ensures Before(a, c)
  {
  }

  /** So the conversion keeps order, and no two serials share a date. */
  lemma {:induction false} SerialOrder(a: int, b: int)
    requires a < b
    ensures Before(FromSerial(a), FromSerial(b)) && FromSerial(a) != FromSerial(b)
    decreases b - a
  {
    AlwaysValid(b - 1);
    SerialSuccessor(b - 1);
    TomorrowIsLater(FromSerial(b - 1));
    if a < b - 1 {
      SerialOrder(a, b - 1);
      BeforeTransitive(FromSerial(a), FromSerial(b - 1), FromSerial(b));
    }
  }
}
