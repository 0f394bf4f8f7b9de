/**
 * Calendar dates as Python's `datetime.date` sees them: a proleptic
 * Gregorian (year, month, day) with years 1 to 9999, ordered
 * chronologically (which is lexicographic on the triple).
 */
module Dates {
  import opened Wrappers

  const MinYear := 1
  const MaxYear := 9999

  datatype Date = Date(year: int, month: int, day: int)

  predicate IsLeapYear(y: int)
  {
    y % 4 == 0 && (y % 100 != 0 || y % 400 == 0)
  }

  function DaysInMonth(y: int, m: int): int
  {
    if m == 2 then (if IsLeapYear(y) then 29 else 28)
    else if m == 4 || m == 6 || m == 9 || m == 11 then 30
    else 31
  }

  /** The dates `datetime.date` can hold. */
  predicate ValidDate(d: Date)
  {
    && MinYear <= d.year <= MaxYear
    && 1 <= d.month <= 12
    && 1 <= d.day <= DaysInMonth(d.year, d.month)
  }

  /**
   * The constructor `date(y, m, d)`: the date when it exists, and `None`
   * where Python raises (`ValueError`, or `OverflowError` beyond the C int range).
   */
  function MakeDate(y: int, m: int, d: int): (r: Option<Date>)
    ensures r.Some? <==> ValidDate(Date(y, m, d))
    ensures r.Some? ==> r.value == Date(y, m, d)
  {
    if ValidDate(Date(y, m, d)) then Some(Date(y, m, d)) else None
  }

  /** `a < b` on dates. */
  predicate Before(a: Date, b: Date)
  {
    || a.year < b.year
    || (a.year == b.year && a.month < b.month)
    || (a.year == b.year && a.month == b.month && a.day < b.day)
  }

  /** `a <= b` on dates. */
  predicate AtOrBefore(a: Date, b: Date)
  {
    a == b || Before(a, b)
  }

  /** `Before` is a strict total order: irreflexive, transitive, and any two distinct dates compare. */
  lemma BeforeIsStrictTotalOrder()
    ensures forall a :: !Before(a, a)
    ensures forall a, b, c :: Before(a, b) && Before(b, c) ==> Before(a, c)
    ensures forall a, b :: a == b || Before(a, b) || Before(b, a)
  {
  }

  /** January 1 of `y` exists exactly for the years `datetime` supports. */
  lemma NewYearExists(y: int)
    ensures MakeDate(y, 1, 1).Some? <==> MinYear <= y <= MaxYear
  {
  }

  /**
   * A valid date lies in the half-open range from January 1 of `y` to
   * January 1 of `y + 1` exactly when its year is `y`.
   */
  lemma InYearRange(d: Date, y: int)
    requires ValidDate(d)
    ensures AtOrBefore(Date(y, 1, 1), d) && Before(d, Date(y + 1, 1, 1)) <==> d.year == y
  {
  }
}
