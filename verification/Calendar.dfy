/** UTC calendar dates, their order, and the windows that spending limits are counted over. */
module Calendar {
  datatype Date = Date(year: int, month: int, day: int)

  predicate NotAfter(a: Date, b: Date) {
    || a.year < b.year
    || (a.year == b.year && (a.month < b.month || (a.month == b.month && a.day <= b.day)))
  }

  datatype Window = Daily | Monthly

  /** The date lies in the day, or the month, of `today`. */
  predicate InWindow(w: Window, on: Date, today: Date) {
    on.year == today.year && on.month == today.month && (w == Daily ==> on.day == today.day)
  }

  lemma NotAfterIsOrder(a: Date, b: Date, c: Date)
    ensures NotAfter(a, a)
    ensures NotAfter(a, b) && NotAfter(b, c) ==> NotAfter(a, c)
  {
  }

  /** A window that a later reading has newly entered holds nothing dated up to the earlier reading. */
  lemma NewWindowIsEmpty(w: Window, past: Date, check: Date, now: Date, today: Date)
    requires NotAfter(past, check) && NotAfter(check, now)
    requires InWindow(w, now, today) && !InWindow(w, check, today)
    ensures !InWindow(w, past, today)
  {
  }
}
