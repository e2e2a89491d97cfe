/**
  The server's date-range helpers: `isISO` (a regular-expression test on the
  text of a date), `datesOK` (the two dates, parsed by JavaScript's Date, are in
  order) and `daysBetween` (the millisecond difference of the two dates divided
  by one day and rounded up).

  The server runs on Node.js, whose date parser (V8) reads a date-only string
  `YYYY-MM-DD` as midnight UTC when the month is 1-12 and the day 1-31. A day
  past the end of its month is counted on into the next month, so 2024-02-30
  is 2024-03-01. Its time value is therefore its day number times 86 400 000.
  Any other ISO-shaped string is modelled as an Invalid Date (time value NaN),
  which makes every comparison false and every difference NaN; strings of other
  shapes are modelled as Invalid Date too.
*/
module DateRange {
  import opened Wrappers
  import opened Text
  import opened Calendar

  /** Milliseconds in a day: 1000 * 60 * 60 * 24. */
  const MsPerDay: int := 86400000

  // ---------- the isISO regular expression ----------

  /** One atom of a regular expression. */
  datatype Atom = AnyDigit | Literal(c: char)

  /** An atom repeated an exact number of times, as in `\d{4}` or `-`. */
  datatype Piece = Piece(atom: Atom, count: nat)

  predicate AtomMatches(a: Atom, c: char) {
    match a
    case AnyDigit => IsDigit(c)
    case Literal(x) => c == x
  }

  /** A match anchored at both ends (`^ ... $`): the pieces, in order, consume
      the whole string. Fixed repetition counts leave nothing to backtrack over. */
  predicate FullMatch(p: seq<Piece>, s: string)
    decreases |p|
  {
    if p == [] then s == []
    else
      && |s| >= p[0].count
      && (forall i :: 0 <= i < p[0].count ==> AtomMatches(p[0].atom, s[i]))
      && FullMatch(p[1..], s[p[0].count..])
  }

  /** The pattern `^\d{4}-\d{2}-\d{2}$`. */
  const IsoDatePattern: seq<Piece> :=
    [Piece(AnyDigit, 4), Piece(Literal('-'), 1), Piece(AnyDigit, 2), Piece(Literal('-'), 1), Piece(AnyDigit, 2)]

  /** The shape spelled out character by character. */
  predicate IsoShape(s: string) {
    && |s| == 10
    && (forall i :: 0 <= i < 10 && i != 4 && i != 7 ==> IsDigit(s[i]))
    && s[4] == '-' && s[7] == '-'
  }

  /** `isISO(d)`: the string has the shape of an ISO 8601 calendar date: exactly
      ten characters, digits except a dash at positions 4 and 7. */
  predicate IsISO(s: string)
    ensures IsISO(s) <==> IsoShape(s)
  {
    IsoPatternIffShape(s);
    FullMatch(IsoDatePattern, s)
  }

  /** The fields a well-formed string spells (whether or not they name a real date). */
  function Fields(s: string): CivilDate
    requires IsISO(s)
  {
    CivilDate(DigitsValue(s[..4]), DigitsValue(s[5..7]), DigitsValue(s[8..]))
  }

  /** A well-formed string the date parser accepts: month 1-12, day 1-31. */
  predicate ParsesAsDate(s: string) {
    IsISO(s) && 1 <= Fields(s).month <= 12 && 1 <= Fields(s).day <= 31
  }

  /** A well-formed string that names a date the calendar has. */
  predicate IsCalendarDate(s: string) {
    IsISO(s) && IsValid(Fields(s))
  }

  // ---------- Date, datesOK, daysBetween ----------

  /** `new Date(s)`: Some(time value in milliseconds since 1970-01-01T00:00Z),
      or None for an Invalid Date. */
  function DateValue(s: string): (r: Option<int>)
    ensures r.Some? <==> ParsesAsDate(s)
    ensures r.Some? ==> r.value % MsPerDay == 0
  {
    if ParsesAsDate(s) then
      WholeDays(DayNumber(Fields(s)));
      Some(DayNumber(Fields(s)) * MsPerDay)
    else None
  }

  /** `datesOK(s, e)`: `new Date(s) <= new Date(e)`; false when either is NaN. */
  predicate DatesOK(s: string, e: string)
    ensures DatesOK(s, e) <==>
      ParsesAsDate(s) && ParsesAsDate(e) && DayNumber(Fields(s)) <= DayNumber(Fields(e))
  {
    DateValue(s).Some? && DateValue(e).Some? && DateValue(s).value <= DateValue(e).value
  }

  /** `Math.ceil(a / b)` for a positive divisor. */
  function CeilDiv(a: int, b: int): (q: int)
    requires b > 0
    ensures (q - 1) * b < a <= q * b
  {
    -((-a) / b)
  }

  /** `daysBetween(s, e)`, None standing for NaN: defined when both strings parse,
      and then the number of nights from s to e. */
  function DaysBetween(s: string, e: string): (r: Option<int>)
    ensures r.Some? <==> ParsesAsDate(s) && ParsesAsDate(e)
    ensures r.Some? ==> r.value == DayNumber(Fields(e)) - DayNumber(Fields(s))
  {
    if DateValue(s).Some? && DateValue(e).Some?
    then
      var k := DayNumber(Fields(e)) - DayNumber(Fields(s));
      assert DateValue(e).value - DateValue(s).value == k * MsPerDay;
      CeilDivExact(k);
      Some(CeilDiv(DateValue(e).value - DateValue(s).value, MsPerDay))
    else None
  }

  // ---------- isISO ----------

  /** The pattern accepts exactly ten characters: digits, except a dash at
      positions 4 and 7; nothing may come before or after. */
  lemma IsoPatternIffShape(s: string)
    ensures FullMatch(IsoDatePattern, s) <==> IsoShape(s)
  {
  }

  /** The test is about shape only: a month 13 and a day 99 pass it, yet the
      parser rejects the string, so datesOK fails even against itself. */
  lemma IsISOIsFormatOnly()
    ensures IsISO("2024-13-99")
    ensures !ParsesAsDate("2024-13-99") && !IsCalendarDate("2024-13-99")
    ensures DateValue("2024-13-99") == None
    ensures !DatesOK("2024-13-99", "2024-13-99")
  {
    ExampleFields('2', '0', '2', '4', '1', '3', '9', '9');
  }

  /** A well-formed string is the concatenation of its three digit fields. */
  lemma IsoSplit(s: string)
    requires IsISO(s)
    ensures |s| == 10
    ensures AllDigits(s[..4]) && AllDigits(s[5..7]) && AllDigits(s[8..])
    ensures s == s[..4] + ("-" + (s[5..7] + ("-" + s[8..])))
  {
  }

  /** Two well-formed strings with the same fields are the same string. */
  lemma FieldsInjective(s: string, e: string)
    requires IsISO(s) && IsISO(e) && Fields(s) == Fields(e)
    ensures s == e
  {
    IsoSplit(s);
    IsoSplit(e);
    DigitsValueInjective(s[..4], e[..4]);
    DigitsValueInjective(s[5..7], e[5..7]);
    DigitsValueInjective(s[8..], e[8..]);
  }

  /** On well-formed strings, JavaScript string order is (year, month, day) order:
      the reason ISO dates sort as text. */
  lemma StrLeIffDateLe(s: string, e: string)
    requires IsISO(s) && IsISO(e)
    ensures StrLe(s, e) <==> DateLe(Fields(s), Fields(e))
  {
    IsoSplit(s);
    IsoSplit(e);
    var ys, ms, ds := s[..4], s[5..7], s[8..];
    var ye, me, de := e[..4], e[5..7], e[8..];
    StrLeIffValueLe(ys, ye);
    StrLeIffValueLe(ye, ys);
    StrLeIffValueLe(ms, me);
    StrLeIffValueLe(me, ms);
    StrLeIffValueLe(ds, de);
    if DigitsValue(ys) == DigitsValue(ye) { DigitsValueInjective(ys, ye); }
    if DigitsValue(ms) == DigitsValue(me) { DigitsValueInjective(ms, me); }
    StrLeConcat(ys, "-" + (ms + ("-" + ds)), ye, "-" + (me + ("-" + de)));
    StrLeConcat("-", ms + ("-" + ds), "-", me + ("-" + de));
    StrLeConcat(ms, "-" + ds, me, "-" + de);
    StrLeConcat("-", ds, "-", de);
  }

  // ---------- datesOK ----------

  /** On real dates, datesOK is calendar order. */
  lemma DatesOKIffDateLe(s: string, e: string)
    requires IsCalendarDate(s) && IsCalendarDate(e)
    ensures DatesOK(s, e) <==> DateLe(Fields(s), Fields(e))
  {
    DateLeIffDayNumberLe(Fields(s), Fields(e));
  }

  /** On real dates, datesOK is plain string order. */
  lemma DatesOKIffStrLe(s: string, e: string)
    requires IsCalendarDate(s) && IsCalendarDate(e)
    ensures DatesOK(s, e) <==> StrLe(s, e)
  {
    DatesOKIffDateLe(s, e);
    StrLeIffDateLe(s, e);
  }

  lemma DatesOKReflexive(s: string)
    requires ParsesAsDate(s)
    ensures DatesOK(s, s)
  {
  }

  lemma DatesOKTransitive(a: string, b: string, c: string)
    requires DatesOK(a, b) && DatesOK(b, c)
    ensures DatesOK(a, c)
  {
  }

  /** Two real dates each on or before the other are the same string. */
  lemma DatesOKAntisymmetric(s: string, e: string)
    requires IsCalendarDate(s) && IsCalendarDate(e)
    requires DatesOK(s, e) && DatesOK(e, s)
    ensures s == e
  {
    DatesOKIffStrLe(s, e);
    DatesOKIffStrLe(e, s);
    StrLeAntisymmetric(s, e);
  }

  lemma DatesOKTotal(s: string, e: string)
    requires ParsesAsDate(s) && ParsesAsDate(e)
    ensures DatesOK(s, e) || DatesOK(e, s)
  {
  }

  /** A day past its month's end is rolled over: 2024-02-30 is the same instant as
      2024-03-01, so the two are each in order with the other and zero days apart,
      although they are different strings. */
  lemma DatesOKRollsOver()
    ensures ParsesAsDate("2024-02-30") && !IsCalendarDate("2024-02-30")
    ensures DatesOK("2024-02-30", "2024-03-01") && DatesOK("2024-03-01", "2024-02-30")
    ensures DaysBetween("2024-02-30", "2024-03-01") == Some(0)
  {
    ExampleFields('2', '0', '2', '4', '0', '2', '3', '0');
    ExampleFields('2', '0', '2', '4', '0', '3', '0', '1');
    DayNumberRollsOver(2024, 2, 30);
  }

  /** After rollover, datesOK and string order part ways: 2024-02-31 is
      2024-03-02, after 2024-03-01, although it sorts before it as text. */
  lemma DatesOKDisagreesWithStrLeOnRollover()
    ensures DatesOK("2024-03-01", "2024-02-31")
    ensures !StrLe("2024-03-01", "2024-02-31")
  {
    ExampleFields('2', '0', '2', '4', '0', '3', '0', '1');
    ExampleFields('2', '0', '2', '4', '0', '2', '3', '1');
    var start, end := "2024-03-01", "2024-02-31";
    assert Fields(start) == CivilDate(2024, 3, 1) && Fields(end) == CivilDate(2024, 2, 31);
    DayNumberRollsOver(2024, 2, 31);
    assert DayNumber(Fields(end)) == DayNumber(CivilDate(2024, 3, 2));
    assert DatesOK(start, end);
    StrLeIffDateLe(start, end);
  }

  /** Day 00 and day 32 are not read as dates. */
  lemma DayOutOfRangeIsInvalid()
    ensures IsISO("2024-01-00") && DateValue("2024-01-00") == None
    ensures IsISO("2024-01-32") && DateValue("2024-01-32") == None
  {
    ExampleFields('2', '0', '2', '4', '0', '1', '0', '0');
    ExampleFields('2', '0', '2', '4', '0', '1', '3', '2');
  }

  // ---------- daysBetween ----------

  /** A whole number of days is a whole number of milliseconds past midnight. */
  lemma WholeDays(k: int)
    ensures (k * MsPerDay) % MsPerDay == 0
  {
    var q, r := (k * MsPerDay) / MsPerDay, (k * MsPerDay) % MsPerDay;
    assert k * MsPerDay == q * MsPerDay + r;
    assert (k - q) * MsPerDay == r;
  }

  /** Rounding up a whole number of days gives that number back. */
  lemma CeilDivExact(k: int)
    ensures CeilDiv(k * MsPerDay, MsPerDay) == k
  {
  }

  lemma DaysBetweenSelf(s: string)
    requires ParsesAsDate(s)
    ensures DaysBetween(s, s) == Some(0)
  {
  }

  /** The count is never negative exactly when the range is in order. */
  lemma DaysBetweenNonNegativeIffDatesOK(s: string, e: string)
    requires ParsesAsDate(s) && ParsesAsDate(e)
    ensures DaysBetween(s, e).Some?
    ensures DatesOK(s, e) <==> DaysBetween(s, e).value >= 0
  {
  }

  /** On real dates, zero nights only from a date to itself. */
  lemma DaysBetweenZeroIffSame(s: string, e: string)
    requires IsCalendarDate(s) && IsCalendarDate(e)
    ensures DaysBetween(s, e) == Some(0) <==> s == e
  {
    if DaysBetween(s, e) == Some(0) {
      DayNumberInjective(Fields(s), Fields(e));
      FieldsInjective(s, e);
    }
  }

  /** Swapping the ends negates the count. */
  lemma DaysBetweenSwap(s: string, e: string)
    requires ParsesAsDate(s) && ParsesAsDate(e)
    ensures DaysBetween(e, s).Some? && DaysBetween(s, e).Some?
    ensures DaysBetween(e, s).value == -DaysBetween(s, e).value
  {
  }

  /** Consecutive ranges add up. */
  lemma DaysBetweenAdditive(a: string, b: string, c: string)
    requires ParsesAsDate(a) && ParsesAsDate(b) && ParsesAsDate(c)
    ensures DaysBetween(a, b).Some? && DaysBetween(b, c).Some? && DaysBetween(a, c).Some?
    ensures DaysBetween(a, b).value + DaysBetween(b, c).value == DaysBetween(a, c).value
  {
  }

  /** Three nights from the 1st to the 4th. */
  lemma DaysBetweenCountsNights()
    ensures DaysBetween("2024-01-01", "2024-01-04") == Some(3)
  {
    ExampleFields('2', '0', '2', '4', '0', '1', '0', '1');
    ExampleFields('2', '0', '2', '4', '0', '1', '0', '4');
  }

  /** The leap day of 2024 counts as a night. */
  lemma DaysBetweenAcrossLeapDay()
    ensures DaysBetween("2024-02-28", "2024-03-01") == Some(2)
  {
    ExampleFields('2', '0', '2', '4', '0', '2', '2', '8');
    ExampleFields('2', '0', '2', '4', '0', '3', '0', '1');
  }

  /** 2023 has no leap day. */
  lemma DaysBetweenCommonYear()
    ensures DaysBetween("2023-02-28", "2023-03-01") == Some(1)
  {
    ExampleFields('2', '0', '2', '3', '0', '2', '2', '8');
    ExampleFields('2', '0', '2', '3', '0', '3', '0', '1');
  }

  /** Reading a concrete well-formed string, given its eight digits. */
  lemma ExampleFields(y0: char, y1: char, y2: char, y3: char, m0: char, m1: char, d0: char, d1: char)
    requires IsDigit(y0) && IsDigit(y1) && IsDigit(y2) && IsDigit(y3)
    requires IsDigit(m0) && IsDigit(m1) && IsDigit(d0) && IsDigit(d1)
    ensures var s := [y0, y1, y2, y3, '-', m0, m1, '-', d0, d1];
      IsISO(s) && Fields(s) == CivilDate(
        1000 * DigitValue(y0) + 100 * DigitValue(y1) + 10 * DigitValue(y2) + DigitValue(y3),
        10 * DigitValue(m0) + DigitValue(m1),
        10 * DigitValue(d0) + DigitValue(d1))
  {
    var s := [y0, y1, y2, y3, '-', m0, m1, '-', d0, d1];
    assert IsoShape(s);
    IsoSplit(s);
    DigitsValueOfFour(s[..4]);
    DigitsValueOfTwo(s[5..7]);
    DigitsValueOfTwo(s[8..]);
  }
}
