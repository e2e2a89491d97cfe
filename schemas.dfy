/**
  The request-body validators of the server: the availability range (two strings
  that must form an ordered range of real dates), the car listing and the
  booking request. Each takes the JSON body and returns either the typed value
  or the list of issues found, in field order, as the schema library reports them.
*/
module Schemas {
  import opened Wrappers
  import opened Text
  import opened DateRange

  /** A JSON value, as the JSON body parser delivers it. Numbers are finite. */
  datatype Json =
    | Null
    | Bool(b: bool)
    | Num(n: real)
    | Str(s: string)
    | Arr(items: seq<Json>)
    | Obj(fields: map<string, Json>)

  /** The kinds of issue reported. NotInteger stands for the library's report of
      `.int()` failing, which it files as an invalid type with "integer" expected;
      it is kept apart here from a value of the wrong JSON type. */
  datatype IssueCode = InvalidType | TooSmall | NotInteger | InvalidEnumValue | Custom(message: string)

  /** One validation failure: where it is (field names from the root) and what. */
  datatype Issue = Issue(path: seq<string>, code: IssueCode)

  /** The message the availability refinement attaches to its failure. */
  const InvalidDateRange: string := "Invalid date range"

  datatype AvailabilityRange = AvailabilityRange(start_date: string, end_date: string)

  datatype Car = Car(
    title: string,
    brand: Option<string>,
    model: Option<string>,
    year: Option<int>,
    transmission: Option<string>,
    seats: Option<int>,
    doors: Option<int>,
    trunk_liters: Option<real>,
    fuel_type: Option<string>,
    options: Option<string>,
    daily_price: real,
    location: string,
    image_url: Option<string>,
    description: Option<string>)

  datatype BookingRequest = BookingRequest(
    car_id: int,
    start_date: string,
    end_date: string,
    customer_name: string,
    customer_email: string)

  // ---------- field access and the primitive checks ----------

  /** The value under a key; None when the key is absent (undefined). */
  function Field(body: map<string, Json>, key: string): Option<Json> {
    if key in body then Some(body[key]) else None
  }

  predicate IsInteger(n: real) {
    n == n.Floor as real
  }

  /** `z.string().min(min)` on one field (min 0 is plain `z.string()`), followed
      by `.optional()` when `optional` is set: an absent key then passes, and a
      present one is checked as usual. */
  function StringIssues(key: string, v: Option<Json>, min: nat, optional: bool): (issues: seq<Issue>)
    ensures issues == [] <==> (optional && v.None?) || (v.Some? && v.value.Str? && |v.value.s| >= min)
    ensures |issues| <= 1
  {
    match v
    case None => if optional then [] else [Issue([key], InvalidType)]
    case Some(Str(s)) => if |s| >= min then [] else [Issue([key], TooSmall)]
    case _ => [Issue([key], InvalidType)]
  }

  /** `z.number()` with the checks `.int()` and `.positive()` as asked, in that
      order, and `.optional()` when `optional` is set; every failing check is
      reported. */
  function NumberIssues(key: string, v: Option<Json>, integer: bool, positive: bool, optional: bool): (issues: seq<Issue>)
    ensures issues == [] <==>
      (optional && v.None?)
      || (v.Some? && v.value.Num? && (integer ==> IsInteger(v.value.n)) && (positive ==> v.value.n > 0.0))
  {
    match v
    case None => if optional then [] else [Issue([key], InvalidType)]
    case Some(Num(n)) =>
      (if integer && !IsInteger(n) then [Issue([key], NotInteger)] else [])
      + (if positive && n <= 0.0 then [Issue([key], TooSmall)] else [])
    case _ => [Issue([key], InvalidType)]
  }

  /** `z.enum(options)` on one field, with `.optional()` when `optional` is set. */
  function EnumIssues(key: string, v: Option<Json>, options: seq<string>, optional: bool): (issues: seq<Issue>)
    ensures issues == [] <==> (optional && v.None?) || (v.Some? && v.value.Str? && v.value.s in options)
  {
    match v
    case None => if optional then [] else [Issue([key], InvalidType)]
    case Some(Str(s)) => if s in options then [] else [Issue([key], InvalidEnumValue)]
    case _ => [Issue([key], InvalidType)]
  }

  function OptString(v: Option<Json>): Option<string> {
    if v.Some? && v.value.Str? then Some(v.value.s) else None
  }

  function OptInt(v: Option<Json>): Option<int> {
    if v.Some? && v.value.Num? then Some(v.value.n.Floor) else None
  }

  function OptNumber(v: Option<Json>): Option<real> {
    if v.Some? && v.value.Num? then Some(v.value.n) else None
  }

  // ---------- AvailabilitySchema ----------

  /** `{ start_date: string, end_date: string }` refined by
      `isISO(start) && isISO(end) && datesOK(start, end)`. The refinement runs only
      when both fields are strings; when it fails the one issue is at the root. */
  function AvailabilitySchema(body: Json): (r: Result<AvailabilityRange, seq<Issue>>)
    ensures r.Err? ==> r.error != []
    ensures r.Ok? ==>
      body.Obj? && Field(body.fields, "start_date") == Some(Str(r.value.start_date))
      && Field(body.fields, "end_date") == Some(Str(r.value.end_date))
  {
    if !body.Obj? then Err([Issue([], InvalidType)])
    else
      var start, end := Field(body.fields, "start_date"), Field(body.fields, "end_date");
      var issues := StringIssues("start_date", start, 0, false) + StringIssues("end_date", end, 0, false);
      if issues != [] then Err(issues)
      else
        var s, e := start.value.s, end.value.s;
        if IsISO(s) && IsISO(e) && DatesOK(s, e) then Ok(AvailabilityRange(s, e))
        else Err([Issue([], Custom(InvalidDateRange))])
  }

  // ---------- CarSchema ----------

  /** The car listing body. `image_url` is checked as a string only. */
  function CarSchema(body: Json): (r: Result<Car, seq<Issue>>)
    ensures r.Err? ==> r.error != []
    ensures r.Ok? ==> r.value.daily_price > 0.0 && |r.value.title| >= 2 && |r.value.location| >= 2
    ensures r.Ok? ==> body.Obj? && Field(body.fields, "daily_price") == Some(Num(r.value.daily_price))
    ensures r.Ok? ==> (
      && body.Obj?
      && Field(body.fields, "title") == Some(Str(r.value.title))
      && Field(body.fields, "location") == Some(Str(r.value.location)))
  {
    if !body.Obj? then Err([Issue([], InvalidType)])
    else
      var f := body.fields;
      var issues :=
        StringIssues("title", Field(f, "title"), 2, false)
        + StringIssues("brand", Field(f, "brand"), 0, true)
        + StringIssues("model", Field(f, "model"), 0, true)
        + NumberIssues("year", Field(f, "year"), true, false, true)
        + EnumIssues("transmission", Field(f, "transmission"), ["manual", "automatic"], true)
        + NumberIssues("seats", Field(f, "seats"), true, false, true)
        + NumberIssues("doors", Field(f, "doors"), true, false, true)
        + NumberIssues("trunk_liters", Field(f, "trunk_liters"), false, false, true)
        + StringIssues("fuel_type", Field(f, "fuel_type"), 0, true)
        + StringIssues("options", Field(f, "options"), 0, true)
        + NumberIssues("daily_price", Field(f, "daily_price"), false, true, false)
        + StringIssues("location", Field(f, "location"), 2, false)
        + StringIssues("image_url", Field(f, "image_url"), 0, true)
        + StringIssues("description", Field(f, "description"), 0, true);
      if issues != [] then Err(issues)
      else
        Ok(Car(
          Field(f, "title").value.s,
          OptString(Field(f, "brand")),
          OptString(Field(f, "model")),
          OptInt(Field(f, "year")),
          OptString(Field(f, "transmission")),
          OptInt(Field(f, "seats")),
          OptInt(Field(f, "doors")),
          OptNumber(Field(f, "trunk_liters")),
          OptString(Field(f, "fuel_type")),
          OptString(Field(f, "options")),
          Field(f, "daily_price").value.n,
          Field(f, "location").value.s,
          OptString(Field(f, "image_url")),
          OptString(Field(f, "description"))))
  }

  // ---------- BookingSchema ----------

  /** The booking request body, as far as its fields are visible: `customer_email`
      is checked as a string only. */
  function BookingSchema(body: Json): (r: Result<BookingRequest, seq<Issue>>)
    ensures r.Err? ==> r.error != []
    ensures r.Ok? ==> r.value.car_id > 0 && |r.value.customer_name| >= 2
    ensures r.Ok? ==> body.Obj? && Field(body.fields, "car_id") == Some(Num(r.value.car_id as real))
    ensures r.Ok? ==> (
      && body.Obj?
      && Field(body.fields, "start_date") == Some(Str(r.value.start_date))
      && Field(body.fields, "end_date") == Some(Str(r.value.end_date))
      && Field(body.fields, "customer_name") == Some(Str(r.value.customer_name))
      && Field(body.fields, "customer_email") == Some(Str(r.value.customer_email)))
  {
    if !body.Obj? then Err([Issue([], InvalidType)])
    else
      var f := body.fields;
      var issues :=
        NumberIssues("car_id", Field(f, "car_id"), true, true, false)
        + StringIssues("start_date", Field(f, "start_date"), 0, false)
        + StringIssues("end_date", Field(f, "end_date"), 0, false)
        + StringIssues("customer_name", Field(f, "customer_name"), 2, false)
        + StringIssues("customer_email", Field(f, "customer_email"), 0, false);
      if issues != [] then Err(issues)
      else
        Ok(BookingRequest(
          Field(f, "car_id").value.n.Floor,
          Field(f, "start_date").value.s,
          Field(f, "end_date").value.s,
          Field(f, "customer_name").value.s,
          Field(f, "customer_email").value.s))
  }

  // ---------- lemmas ----------

  /** An availability body is accepted exactly when both fields are strings that
      the date parser reads, the start on or before the end. */
  lemma AvailabilityAcceptsIff(body: Json)
    ensures AvailabilitySchema(body).Ok? <==>
      && body.Obj?
      && Field(body.fields, "start_date").Some? && Field(body.fields, "start_date").value.Str?
      && Field(body.fields, "end_date").Some? && Field(body.fields, "end_date").value.Str?
      && var s, e := Field(body.fields, "start_date").value.s, Field(body.fields, "end_date").value.s;
         ParsesAsDate(s) && ParsesAsDate(e) && Calendar.DayNumber(Fields(s)) <= Calendar.DayNumber(Fields(e))
  {
  }

  /** When both strings name real dates, acceptance is string order. */
  lemma AvailabilityOnCalendarDates(body: Json, s: string, e: string)
    requires body.Obj?
    requires Field(body.fields, "start_date") == Some(Str(s))
    requires Field(body.fields, "end_date") == Some(Str(e))
    requires IsCalendarDate(s) && IsCalendarDate(e)
    ensures AvailabilitySchema(body).Ok? <==> Text.StrLe(s, e)
  {
    DatesOKIffStrLe(s, e);
  }

  /** A day past the month's end is rolled over before the comparison: the range
      2024-03-01 .. 2024-02-31 is accepted, its end being 2024-03-02. */
  lemma AvailabilityAcceptsRolledOverEnd(body: Json)
    requires body.Obj?
    requires Field(body.fields, "start_date") == Some(Str("2024-03-01"))
    requires Field(body.fields, "end_date") == Some(Str("2024-02-31"))
    ensures AvailabilitySchema(body) == Ok(AvailabilityRange("2024-03-01", "2024-02-31"))
  {
    DatesOKDisagreesWithStrLeOnRollover();
  }

  /** An accepted range has a day count, and it is not negative. */
  lemma AvailabilityAcceptedHasNights(body: Json)
    requires AvailabilitySchema(body).Ok?
    ensures var range := AvailabilitySchema(body).value;
      DaysBetween(range.start_date, range.end_date).Some?
      && DaysBetween(range.start_date, range.end_date).value >= 0
  {
    var range := AvailabilitySchema(body).value;
    DaysBetweenNonNegativeIffDatesOK(range.start_date, range.end_date);
  }

  /** Two strings that do not form a range are refused with the one message
      "Invalid date range", attached to the whole body, whatever other keys the
      body carries. */
  lemma AvailabilityRejectsWithMessage(body: Json, s: string, e: string)
    requires body.Obj?
    requires Field(body.fields, "start_date") == Some(Str(s))
    requires Field(body.fields, "end_date") == Some(Str(e))
    requires !(IsISO(s) && IsISO(e) && DatesOK(s, e))
    ensures AvailabilitySchema(body) == Err([Issue([], Custom(InvalidDateRange))])
  {
  }

  /** A car whose price is present but not above zero is refused, and the issue
      names the price. */
  lemma CarRejectsNonPositivePrice(body: Json, n: real)
    requires body.Obj? && Field(body.fields, "daily_price") == Some(Num(n)) && n <= 0.0
    ensures CarSchema(body).Err?
    ensures Issue(["daily_price"], TooSmall) in CarSchema(body).error
  {
    var price := NumberIssues("daily_price", Field(body.fields, "daily_price"), false, true, false);
    assert price == [Issue(["daily_price"], TooSmall)];
  }

  /** A booking whose car id is a number but not a whole one, or not above
      zero, is refused, with an issue for each failing check. */
  lemma BookingRejectsBadCarId(body: Json, n: real)
    requires body.Obj? && Field(body.fields, "car_id") == Some(Num(n))
    requires !IsInteger(n) || n <= 0.0
    ensures BookingSchema(body).Err?
    ensures !IsInteger(n) ==> Issue(["car_id"], NotInteger) in BookingSchema(body).error
    ensures n <= 0.0 ==> Issue(["car_id"], TooSmall) in BookingSchema(body).error
  {
  }

  /** A booking without a car id is refused, and the first issue says so. */
  lemma BookingRejectsMissingCarId(body: Json)
    requires body.Obj? && "car_id" !in body.fields
    ensures BookingSchema(body).Err?
    ensures BookingSchema(body).error[0] == Issue(["car_id"], InvalidType)
  {
  }

  /** A car without a price is refused with a type issue on the price. */
  lemma CarRejectsMissingPrice(body: Json)
    requires body.Obj? && "daily_price" !in body.fields
    ensures CarSchema(body).Err?
    ensures Issue(["daily_price"], InvalidType) in CarSchema(body).error
  {
    var price := NumberIssues("daily_price", Field(body.fields, "daily_price"), false, true, false);
    assert price == [Issue(["daily_price"], InvalidType)];
  }

  /** `.optional()`: a car body carrying only the required keys is accepted, and
      every optional field of the result is absent. */
  lemma CarOptionalKeysMayBeAbsent(t: string, p: real, l: string)
    requires |t| >= 2 && |l| >= 2 && p > 0.0
    ensures var body := Obj(map["title" := Str(t), "daily_price" := Num(p), "location" := Str(l)]);
      CarSchema(body) == Ok(Car(t, None, None, None, None, None, None, None, None, None, p, l, None, None))
  {
  }

  /** `.optional()` does not accept a present key of the wrong type: a year given
      as a string is refused with a type issue on year. */
  lemma CarOptionalKeyIsStillChecked(body: Json, y: string)
    requires body.Obj? && Field(body.fields, "year") == Some(Str(y))
    ensures CarSchema(body).Err?
    ensures Issue(["year"], InvalidType) in CarSchema(body).error
  {
    var year := NumberIssues("year", Field(body.fields, "year"), true, false, true);
    assert year == [Issue(["year"], InvalidType)];
  }
}
