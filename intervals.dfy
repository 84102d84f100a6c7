/**
 * The overlap tests. Both booking controllers decide whether a requested
 * interval collides with a booking's `[StartTime, EndTime)` by a
 * three-clause test instead of the half-open test `s1 < e2 && s2 < e1`;
 * this module states the two written forms and relates them to it.
 */
module Intervals {

  /** `[aStart, aEnd)` and `[bStart, bEnd)` share an instant. */
  predicate Overlaps(aStart: int, aEnd: int, bStart: int, bEnd: int) {
    aStart < bEnd && bStart < aEnd
  }

  /** BookingController's test of a request `[reqStart, reqEnd)` against a booking `[bStart, bEnd)`. */
  predicate RequestClashes(reqStart: int, reqEnd: int, bStart: int, bEnd: int) {
    || (reqStart >= bStart && reqStart < bEnd)
    || (reqEnd > bStart && reqEnd <= bEnd)
    || (reqStart <= bStart && reqEnd >= bEnd)
  }

  /** The same test as BookingsController and RoomsController write it, booking first. */
  predicate WindowClashes(start: int, end: int, bStart: int, bEnd: int) {
    || (bStart <= start && bEnd > start)
    || (bStart < end && bEnd >= end)
    || (bStart >= start && bEnd <= end)
  }

  lemma OverlapSymmetric(aStart: int, aEnd: int, bStart: int, bEnd: int)
    ensures Overlaps(aStart, aEnd, bStart, bEnd) == Overlaps(bStart, bEnd, aStart, aEnd)
  {
  }

  /** The two written forms are one test, whatever the intervals. */
  lemma WrittenFormsAgree(start: int, end: int, bStart: int, bEnd: int)
    ensures RequestClashes(start, end, bStart, bEnd) == WindowClashes(start, end, bStart, bEnd)
  {
  }

  /** Every genuine overlap is caught, even when an interval is empty or reversed. */
  lemma OverlapIsClash(start: int, end: int, bStart: int, bEnd: int)
    requires Overlaps(start, end, bStart, bEnd)
    ensures RequestClashes(start, end, bStart, bEnd)
    ensures WindowClashes(start, end, bStart, bEnd)
  {
  }

  /** On well-formed intervals the three-clause test is exactly the half-open test. */
  lemma ClashIffOverlap(start: int, end: int, bStart: int, bEnd: int)
    requires start < end && bStart < bEnd
    ensures RequestClashes(start, end, bStart, bEnd) <==> Overlaps(start, end, bStart, bEnd)
    ensures WindowClashes(start, end, bStart, bEnd) <==> Overlaps(start, end, bStart, bEnd)
  {
  }

  /** Back-to-back intervals never collide, in either order. */
  lemma TouchingNeverClash(start: int, end: int, bStart: int, bEnd: int)
    requires start < end && bStart < bEnd
    requires end == bStart || bEnd == start
    ensures !Overlaps(start, end, bStart, bEnd)
    ensures !RequestClashes(start, end, bStart, bEnd)
    ensures !WindowClashes(start, end, bStart, bEnd)
  {
  }

  /**
   * Without `bStart < bEnd` the written test over-approximates: a reversed
   * booking [8, 3) "clashes" with [4, 6) though no instant is shared.
   */
  lemma ClashNeedsWellFormedBooking()
    ensures RequestClashes(4, 6, 8, 3) && !Overlaps(4, 6, 8, 3)
  {
  }
}
