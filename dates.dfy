/** java.time.LocalDate and java.time.YearMonth, as their fields, with the
    natural orders and the comparators the adapters sort by. */
module Dates {
  import opened Wrappers

  datatype Date = Date(year: int, month: int, day: int)

  datatype YearMonth = YearMonth(year: int, month: int)

  /** LocalDate ordering: by year, then month, then day. */
  predicate DateBefore(a: Date, b: Date) {
    a.year < b.year || (a.year == b.year && (a.month < b.month || (a.month == b.month && a.day < b.day)))
  }

  /** YearMonth ordering: by year, then month. */
  predicate YearMonthBefore(a: YearMonth, b: YearMonth) {
    a.year < b.year || (a.year == b.year && a.month < b.month)
  }

  /** The sign of LocalDate.compareTo (the magnitude is never used). */
  function CompareDates(a: Date, b: Date): (r: int)
    ensures r < 0 <==> DateBefore(a, b)
    ensures r == 0 <==> a == b
    ensures r > 0 <==> DateBefore(b, a)
  {
    if a.year != b.year then (if a.year < b.year then -1 else 1)
    else if a.month != b.month then (if a.month < b.month then -1 else 1)
    else if a.day != b.day then (if a.day < b.day then -1 else 1)
    else 0
  }

  /** The sign of YearMonth.compareTo. */
  function CompareYearMonths(a: YearMonth, b: YearMonth): (r: int)
    ensures r < 0 <==> YearMonthBefore(a, b)
    ensures r == 0 <==> a == b
    ensures r > 0 <==> YearMonthBefore(b, a)
  {
    if a.year != b.year then (if a.year < b.year then -1 else 1)
    else if a.month != b.month then (if a.month < b.month then -1 else 1)
    else 0
  }

  /** Comparator.nullsLast(Comparator.naturalOrder()) on nullable dates. */
  function CompareNullsLast(a: Option<Date>, b: Option<Date>): int {
    match (a, b)
    case (None, None) => 0
    case (None, Some(_)) => 1
    case (Some(_), None) => -1
    case (Some(x), Some(y)) => CompareDates(x, y)
  }

  /** `compare(a, b) <= 0` for the `.reversed()` of the nulls-last natural
      order: the order experience start dates are sorted by. */
  predicate StartDateOrder(a: Option<Date>, b: Option<Date>) {
    CompareNullsLast(b, a) <= 0
  }

  /** `compare(a, b) <= 0` for the `.reversed()` natural order of YearMonth:
      the order training issue dates are sorted by. */
  predicate IssuedDateOrder(a: YearMonth, b: YearMonth) {
    CompareYearMonths(b, a) <= 0
  }

  /** Reversing a nulls-last order puts a missing date ahead of every present
      one, and present dates latest first. */
  lemma StartDateOrderMeaning(a: Option<Date>, b: Option<Date>)
    ensures StartDateOrder(a, b) <==> a.None? || (b.Some? && !DateBefore(a.value, b.value))
  {
  }

  lemma IssuedDateOrderMeaning(a: YearMonth, b: YearMonth)
    ensures IssuedDateOrder(a, b) <==> !YearMonthBefore(a, b)
  {
  }

  /** The start-date comparator is a valid comparator for List.sort. */
  lemma StartDateOrderIsTotalPreorder()
    ensures forall a, b :: StartDateOrder(a, b) || StartDateOrder(b, a)
    ensures forall a, b, c :: StartDateOrder(a, b) && StartDateOrder(b, c) ==> StartDateOrder(a, c)
  {
    forall a, b, c | StartDateOrder(a, b) && StartDateOrder(b, c)
      ensures StartDateOrder(a, c)
    {
      StartDateOrderMeaning(a, b);
      StartDateOrderMeaning(b, c);
      StartDateOrderMeaning(a, c);
    }
  }

  /** The issued-date comparator is a valid comparator for List.sort. */
  lemma IssuedDateOrderIsTotalPreorder()
    ensures forall a, b :: IssuedDateOrder(a, b) || IssuedDateOrder(b, a)
    ensures forall a, b, c :: IssuedDateOrder(a, b) && IssuedDateOrder(b, c) ==> IssuedDateOrder(a, c)
  {
  }
}
