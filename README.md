# Car-rental date ranges: a verified model

This project models the date-range helpers of the car-rental marketplace server
and the request-body validators built on them, from `server/src/index.js`:

- `isISO` (line 33) tests a string against the regular expression
  `^\d{4}-\d{2}-\d{2}$`. It checks shape only, not whether the date exists.
- `datesOK` (line 34) compares `new Date(s) <= new Date(e)`.
- `daysBetween` (lines 35-37) is `Math.ceil((new Date(e) - new Date(s)) / 86400000)`.
- `AvailabilitySchema` (lines 64-65) accepts `{start_date, end_date}` only when both
  fields are strings, both pass `isISO` and `datesOK` holds. When a field is
  missing or not a string, the body fails with a type issue on that field and
  the refinement never runs. When both are strings but the refinement fails, the
  body fails with the single issue `"Invalid date range"`
  (`Schemas.AvailabilityRejectsWithMessage`).
- `CarSchema` (lines 48-63) requires a positive `daily_price`. `BookingSchema`
  (lines 66-71) requires a positive whole `car_id`.

Files:

- `calendar.dfy` (module `Calendar`): the proleptic Gregorian calendar used by
  JavaScript's `Date`. `DayNumber` gives a date's day count from 1970-01-01. The
  days before a year are given in closed form. That form is proved equal to a
  year-by-year sum, and day numbers are proved strictly increasing in (year,
  month, day) order.
- `text.dfy` (module `Text`): JavaScript string order (`StrLe`) and the value of a
  digit string. On digit strings of equal length, string order is numeric order.
- `date_range.dfy` (module `DateRange`): `IsISO` is an anchored matcher over the
  pattern's pieces. `DateValue` models `new Date(s)`. `DatesOK`, `CeilDiv` and
  `DaysBetween` model the other two helpers.
- `schemas.dfy` (module `Schemas`): the JSON body, the schema library's field
  checks (string, minimum length, number, integer, positive, enum, optional), and
  the three schemas. Issues are listed in field order. A refinement runs only when
  the object itself parsed without a type issue.
- `wrappers.dfy` (module `Wrappers`): `Option` and `Result`.

How `new Date(s)` is modelled: the server runs on Node.js, whose date parser
reads a date-only `YYYY-MM-DD` string as midnight UTC when the month is 1-12 and
the day 1-31 (`DateRange.ParsesAsDate`). A day past the end of its month is
counted on into the next month: `2024-02-30` is `2024-03-01`, and `2024-02-31`
is `2024-03-02`. The time value is therefore `DayNumber * 86400000`, with
`Calendar.DayNumber` computing exactly that rollover. Any other ISO-shaped
string is modelled as an Invalid Date (NaN): every comparison with it is false, and every
difference with it is NaN (`None`). Strings of other shapes are modelled as
Invalid Date too (see "Left out"). Years run from 0000 to 9999, so time values stay far
below 2^53. The double-precision subtraction and division in `daysBetween` are
therefore exact, and the integer model `CeilDiv` is exact as well.

`isISO` checks only the shape of a date, and `datesOK` compares `Date` values,
not strings. On real calendar dates the two orders agree
(`DateRange.DatesOKIffStrLe`). On rolled-over dates they do not: the
availability range `2024-03-01 .. 2024-02-31` is accepted
(`Schemas.AvailabilityAcceptsRolledOverEnd`), and `2024-02-30` and `2024-03-01`
are different strings zero days apart (`DateRange.DatesOKRollsOver`).

## Model

| member | source | states |
|---|---|---|
| `DateRange.IsISO` | server/src/index.js:33 | isISO holds iff the string has exactly 10 characters, with ASCII digits at positions 0-3, 5-6 and 8-9 and '-' at 4 and 7; nothing before or after |
| `DateRange.IsoPatternIffShape` | server/src/index.js:33 | the anchored pattern `^\d{4}-\d{2}-\d{2}$` matches exactly the strings of that ten-character shape |
| `DateRange.IsISOIsFormatOnly` | server/src/index.js:33-34 | "2024-13-99" passes isISO, yet the date parser rejects it, Date gives NaN for it, and datesOK fails even against itself |
| `DateRange.FieldsInjective` | server/src/index.js:33 | two well-formed strings with the same year, month and day are the same string |
| `DateRange.StrLeIffDateLe` | server/src/index.js:33 | on isISO strings, JavaScript string order equals (year, month, day) tuple order |
| `DateRange.DateValue` | server/src/index.js:34-36 | `new Date(s)` is a time value exactly when s is well formed with month 1-12 and day 1-31, and that value is a UTC midnight (a whole number of days) |
| `DateRange.DatesOK` | server/src/index.js:34 | datesOK holds iff both strings parse as dates and the start's day number is not after the end's |
| `DateRange.DatesOKIffDateLe` | server/src/index.js:34 | on real calendar dates, datesOK is calendar order |
| `DateRange.DatesOKIffStrLe` | server/src/index.js:33-34 | on real calendar dates, datesOK is exactly string order `s <= e` |
| `DateRange.DatesOKReflexive` | server/src/index.js:34 | every string that parses as a date is in order with itself |
| `DateRange.DatesOKTransitive` | server/src/index.js:34 | datesOK is transitive |
| `DateRange.DatesOKAntisymmetric` | server/src/index.js:34 | two real calendar dates each in order with the other are the same string |
| `DateRange.DatesOKTotal` | server/src/index.js:34 | any two strings that parse as dates are in order one way or the other |
| `DateRange.DatesOKRollsOver` | server/src/index.js:34-37 | "2024-02-30" parses though it is no calendar date; it and "2024-03-01" are each in order with the other and zero days apart |
| `DateRange.DatesOKDisagreesWithStrLeOnRollover` | server/src/index.js:34 | datesOK("2024-03-01", "2024-02-31") holds although the end sorts before the start as text |
| `DateRange.DayOutOfRangeIsInvalid` | server/src/index.js:33-34 | day 00 and day 32 pass isISO but give an Invalid Date |
| `DateRange.CeilDiv` | server/src/index.js:36 | the result q of Math.ceil(a / b) satisfies (q - 1) * b < a <= q * b |
| `DateRange.CeilDivExact` | server/src/index.js:36 | rounding up a whole number of days' milliseconds gives that number of days back |
| `DateRange.DaysBetween` | server/src/index.js:35-37 | daysBetween is defined iff both strings parse as dates, and then equals the difference of their day numbers, the number of nights |
| `DateRange.DaysBetweenSelf` | server/src/index.js:35-37 | daysBetween(s, s) == 0 |
| `DateRange.DaysBetweenNonNegativeIffDatesOK` | server/src/index.js:34-37 | daysBetween(s, e) >= 0 iff datesOK(s, e), for any two strings that parse |
| `DateRange.DaysBetweenZeroIffSame` | server/src/index.js:35-37 | on real calendar dates, zero days only from a date to itself |
| `DateRange.DaysBetweenSwap` | server/src/index.js:35-37 | swapping the ends negates the count |
| `DateRange.DaysBetweenAdditive` | server/src/index.js:35-37 | daysBetween(a, b) + daysBetween(b, c) == daysBetween(a, c) |
| `DateRange.DaysBetweenCountsNights` | server/src/index.js:35-37 | daysBetween("2024-01-01", "2024-01-04") == 3 |
| `DateRange.DaysBetweenAcrossLeapDay` | server/src/index.js:35-37 | daysBetween("2024-02-28", "2024-03-01") == 2 |
| `DateRange.DaysBetweenCommonYear` | server/src/index.js:35-37 | daysBetween("2023-02-28", "2023-03-01") == 1 |
| `Calendar.DaysBeforeYearIsSum` | server/src/index.js:34-36 | the closed-form day count before a year equals the sum of the lengths of all earlier years |
| `Calendar.YearStep` | server/src/index.js:34-36 | consecutive years start exactly one year length apart (366 in leap years) |
| `Calendar.MonthStep` | server/src/index.js:34-36 | consecutive months start one month length apart, and the twelve months make the year |
| `Calendar.DayNumberRollsOver` | server/src/index.js:34-36 | a day past its month's end has the day number of its counterpart in the next month (or next year) |
| `Calendar.EpochIsDayZero` | server/src/index.js:34-36 | 1970-01-01 has day number 0, the origin of Date's time values |
| `Calendar.DayNumberOf2024` | server/src/index.js:34-36 | 2024-01-01 is day 19723 |
| `Calendar.YearsMonotone` | server/src/index.js:34-36 | a later year starts after the whole of an earlier one |
| `Calendar.DayNumberStrictlyMonotone` | server/src/index.js:34-36 | day numbers strictly increase in calendar order on real dates |
| `Calendar.DateLeIffDayNumberLe` | server/src/index.js:34 | on real dates, calendar order and day-number order agree, in both directions |
| `Calendar.DayNumberInjective` | server/src/index.js:34-36 | two real dates with one day number are the same date |
| `Text.StrLeIffValueLe` | server/src/index.js:33 | on digit strings of equal length, string order is numeric order |
| `Schemas.StringIssues` | server/src/index.js:49-51 | `z.string().min(n)`, with or without `.optional()`, passes iff the key is absent and optional, or its value is a string at least n long; at most one issue |
| `Schemas.NumberIssues` | server/src/index.js:52-59 | `z.number()` with `.int()`/`.positive()` as asked, with or without `.optional()`, passes iff the key is absent and optional, or its value is a number meeting every check asked for |
| `Schemas.EnumIssues` | server/src/index.js:53 | `z.enum(...).optional()` passes iff the key is absent, or its value is one of the listed strings |
| `Schemas.AvailabilitySchema` | server/src/index.js:64-65 | a rejection carries at least one issue; an accepted range holds exactly the two strings of the body |
| `Schemas.AvailabilityAcceptsIff` | server/src/index.js:64-65 | a body is accepted iff both fields are strings that parse as dates, the start's day number not after the end's |
| `Schemas.AvailabilityOnCalendarDates` | server/src/index.js:64-65 | when both strings are real calendar dates, the body is accepted iff start <= end in string order |
| `Schemas.AvailabilityAcceptsRolledOverEnd` | server/src/index.js:64-65 | the range 2024-03-01 .. 2024-02-31 is accepted, its end rolling over to 2024-03-02 |
| `Schemas.AvailabilityAcceptedHasNights` | server/src/index.js:64-65 | every accepted range has a defined, non-negative day count |
| `Schemas.AvailabilityRejectsWithMessage` | server/src/index.js:65 | any object whose two date fields are strings failing isISO or datesOK is refused with the single root issue "Invalid date range" |
| `Schemas.CarSchema` | server/src/index.js:48-63 | an accepted car carries the body's own title, location and daily_price, with daily_price > 0 and title and location at least 2 characters long |
| `Schemas.CarRejectsNonPositivePrice` | server/src/index.js:59 | a car whose daily_price is a number <= 0 is refused with a too-small issue on daily_price |
| `Schemas.CarRejectsMissingPrice` | server/src/index.js:59 | a car without daily_price is refused with a type issue on daily_price |
| `Schemas.CarOptionalKeysMayBeAbsent` | server/src/index.js:48-63 | `.optional()`: a car body with only title, daily_price and location (valid) is accepted, and every optional field of the result is absent |
| `Schemas.CarOptionalKeyIsStillChecked` | server/src/index.js:52 | `.optional()` still checks a present key: a year given as a string is refused with a type issue on year |
| `Schemas.BookingSchema` | server/src/index.js:66-71 | an accepted booking carries the body's own car_id, start_date, end_date, customer_name and customer_email, with car_id a whole number > 0 and customer_name at least 2 characters long |
| `Schemas.BookingRejectsBadCarId` | server/src/index.js:67 | a car_id that is fractional or <= 0 is refused, with a not-an-integer issue and a too-small issue for each check it fails |
| `Schemas.BookingRejectsMissingCarId` | server/src/index.js:67 | a booking without car_id is refused, and its first issue is a type issue on car_id |

## Left out

- The booking engine, the availability store and the search filter are not modelled. Their route handlers come after line 71 of `server/src/index.js`, and those lines are not part of this model.
- DateRange.DateValue: strings that are not `YYYY-MM-DD` are modelled as Invalid Date. Node's parser reads some other forms (such as `March 1, 2024`) with its own rules, which are not modelled. `AvailabilitySchema` never reaches `datesOK` with such a string, because `isISO` is checked first.
- DateRange.DateValue: an ISO-shaped string whose month or day is out of range is modelled as Invalid Date. Node's parser instead passes such a string on to its legacy parser, which for some small years reads the numbers in another order, maps a two-digit year into 1950-2049 and uses local time. For example, `0005-01-32` becomes 1 May 2032, local time, not NaN. On those strings DateValue's "exactly when" clause and its whole-days clause describe the model, not Node. The legacy parser and local time zones are not modelled.
- Schemas.AvailabilityAcceptsIff: on the same strings the model refuses ranges that the server accepts, such as `2024-01-01 .. 0005-01-32`.
- Schemas.CarSchema: `image_url` is checked as a string only; the library's URL check is not modelled.
- Schemas.BookingSchema: `customer_email` is checked as a string only; the library's e-mail check is not modelled. Fields after line 71 are not part of this model.
- Schemas.StringIssues: string length counts characters, whereas the library counts UTF-16 code units. They differ only outside the Basic Multilingual Plane.
- Schemas.NumberIssues: JSON numbers are modelled as finite reals. A literal that overflows to Infinity when parsed is not modelled.
- The libraries' human-readable issue messages are not modelled; issues carry only a code and a path. The one message the source writes, "Invalid date range", is modelled.
- `RegisterSchema` and `LoginSchema` (lines 40-47) are not modelled. They use the same string checks, plus the e-mail check.
- Token signing and checking (lines 22-31) are not modelled. Nor is password hashing, whose library is imported at line 5 and used by route handlers after line 71. Both are cryptographic library calls.
- Express setup, CORS and request logging (lines 1-19) are not modelled. They are I/O plumbing.
- The SQLite connection and schema bootstrap (`server/src/db.js`, `server/src/reset-db.js`) are not modelled. They are persistence and file I/O.
- The React client (`client/src/**`) is not modelled. It is UI and network code.
