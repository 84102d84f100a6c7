/**
 * BookingController (api/Booking): admission of new bookings against the
 * Approved bookings of a room, partial edits of Pending bookings, the
 * approve/reject decision with its re-check, soft delete and the two paged
 * listings.
 *
 * Every action here keeps the booking table's central invariant,
 * `ApprovedDisjoint`: the live Approved bookings of a room never share an
 * instant.
 */
module BookingController {
  import opened Wrappers
  import opened Clr
  import opened Linq
  import opened Entities
  import opened Intervals
  import opened Responses
  import opened Data
  import opened Seed

  // ---------------------------------------------------------------- conflicts

  /** A booking that holds its slot: live and Approved. */
  predicate Blocks(b: Booking) {
    b.IsLive() && b.status == Approved
  }

  /**
   * The `AnyAsync` conflict scan of CreateBooking and, with `except` set to
   * the booking being decided, of UpdateBookingStatus.
   */
  predicate HasConflict(bookings: map<int, Booking>, roomId: int, start: Instant, end: Instant, except: Option<int>) {
    exists k | k in bookings ::
      && (except.None? || bookings[k].id != except.value)
      && bookings[k].roomId == roomId
      && Blocks(bookings[k])
      && RequestClashes(start, end, bookings[k].startTime, bookings[k].endTime)
  }

  /** Live Approved bookings of the same room are pairwise non-overlapping. */
  ghost predicate ApprovedDisjoint(bookings: map<int, Booking>) {
    forall i, j ::
      && i in bookings && j in bookings && i != j
      && Blocks(bookings[i]) && Blocks(bookings[j])
      && bookings[i].roomId == bookings[j].roomId
      ==> !Overlaps(bookings[i].startTime, bookings[i].endTime, bookings[j].startTime, bookings[j].endTime)
  }

  /** Every booking this controller stores has `StartTime < EndTime`. */
  ghost predicate WellFormed(bookings: map<int, Booking>) {
    forall k :: k in bookings ==> bookings[k].startTime < bookings[k].endTime
  }

  /** An Approved live booking of the room that genuinely overlaps is always reported. */
  lemma OverlapIsConflict(bookings: map<int, Booking>, roomId: int, start: Instant, end: Instant, except: Option<int>, k: int)
    requires k in bookings && Blocks(bookings[k]) && bookings[k].roomId == roomId
    requires except.None? || bookings[k].id != except.value
    requires Overlaps(start, end, bookings[k].startTime, bookings[k].endTime)
    ensures HasConflict(bookings, roomId, start, end, except)
  {
    OverlapIsClash(start, end, bookings[k].startTime, bookings[k].endTime);
  }

  /** With well-formed intervals, a reported conflict is a genuine overlap with an Approved live booking. */
  lemma ConflictIsOverlap(bookings: map<int, Booking>, roomId: int, start: Instant, end: Instant, except: Option<int>)
    requires start < end && WellFormed(bookings)
    requires HasConflict(bookings, roomId, start, end, except)
    ensures exists k ::
      && k in bookings && Blocks(bookings[k]) && bookings[k].roomId == roomId
      && (except.None? || bookings[k].id != except.value)
      && Overlaps(start, end, bookings[k].startTime, bookings[k].endTime)
  {
    var k :| k in bookings && (except.None? || bookings[k].id != except.value) && bookings[k].roomId == roomId
      && Blocks(bookings[k]) && RequestClashes(start, end, bookings[k].startTime, bookings[k].endTime);
    ClashIffOverlap(start, end, bookings[k].startTime, bookings[k].endTime);
  }

  /** Pending, Rejected and deleted bookings never block: writing one leaves every conflict answer as it was. */
  lemma NonBlockingRowsIgnored(bookings: map<int, Booking>, id: int, b: Booking,
                               roomId: int, start: Instant, end: Instant, except: Option<int>)
    requires !Blocks(b) && (id in bookings ==> !Blocks(bookings[id]))
    ensures HasConflict(bookings[id := b], roomId, start, end, except) == HasConflict(bookings, roomId, start, end, except)
  {
    var m := bookings[id := b];
    if HasConflict(m, roomId, start, end, except) {
      var k :| k in m && (except.None? || m[k].id != except.value) && m[k].roomId == roomId
        && Blocks(m[k]) && RequestClashes(start, end, m[k].startTime, m[k].endTime);
      assert k != id && k in bookings;
    }
    if HasConflict(bookings, roomId, start, end, except) {
      var k :| k in bookings && (except.None? || bookings[k].id != except.value) && bookings[k].roomId == roomId
        && Blocks(bookings[k]) && RequestClashes(start, end, bookings[k].startTime, bookings[k].endTime);
      assert k != id && k in m;
    }
  }

  /** Storing a booking that does not block keeps the invariant. */
  lemma NonBlockingWriteKeepsDisjoint(bookings: map<int, Booking>, id: int, b: Booking)
    requires ApprovedDisjoint(bookings)
    requires !Blocks(b)
    ensures ApprovedDisjoint(bookings[id := b])
  {
  }

  /**
   * Storing a booking under `id` that the conflict scan clears (every other
   * row, by `Id != id`) keeps the invariant, whatever its status.
   */
  lemma {:induction false} ClearedWriteKeepsDisjoint(bookings: map<int, Booking>, id: int, b: Booking)
    requires ApprovedDisjoint(bookings)
    requires forall k :: k in bookings ==> bookings[k].id == k
    requires !HasConflict(bookings, b.roomId, b.startTime, b.endTime, Some(id))
    ensures ApprovedDisjoint(bookings[id := b])
  {
    var m := bookings[id := b];
    forall i, j | i in m && j in m && i != j && Blocks(m[i]) && Blocks(m[j]) && m[i].roomId == m[j].roomId
      ensures !Overlaps(m[i].startTime, m[i].endTime, m[j].startTime, m[j].endTime)
    {
      if i == id || j == id {
        var other := if i == id then j else i;
        OverlapSymmetric(m[i].startTime, m[i].endTime, m[j].startTime, m[j].endTime);
        if Overlaps(b.startTime, b.endTime, bookings[other].startTime, bookings[other].endTime) {
          OverlapIsConflict(bookings, b.roomId, b.startTime, b.endTime, Some(id), other);
          assert false;
        }
      }
    }
  }

  // ---------------------------------------------------------------- GetBooking

  /** `FirstOrDefaultAsync(b => b.Id == id && b.DeletedAt == null)` */
  function GetBooking(bookings: map<int, Booking>, id: int): (r: Option<Booking>)
    requires forall k :: k in bookings ==> bookings[k].id == k
    ensures r.Some? <==> BookingIsLive(bookings, id)
    ensures r.Some? ==> r.value == bookings[id]
  {
    var hits := Where(Rows(bookings), (b: Booking) => b.id == id && b.IsLive());
    assert BookingIsLive(bookings, id) ==> bookings[id] in hits;
    if hits == [] then None
    else
      assert hits[0] in bookings.Values;
      Some(hits[0])
  }

  // ---------------------------------------------------------------- CreateBooking

  /** The row CreateBooking inserts: the request's fields, Pending, no reason, not deleted. */
  function NewBooking(id: int, req: CreateBookingRequest, now: Instant): Booking {
    Booking(id, req.roomId, req.bookerName, req.bookerEmail, req.bookerPhone, req.purpose,
            req.startTime, req.endTime, Pending, None, now, None, None)
  }

  /** CreateBooking's admission rule. */
  predicate CanCreate(rooms: map<int, Room>, bookings: map<int, Booking>, req: CreateBookingRequest) {
    && RoomIsLive(rooms, req.roomId)
    && req.startTime < req.endTime
    && !HasConflict(bookings, req.roomId, req.startTime, req.endTime, None)
  }

  method CreateBooking(db: Db, req: CreateBookingRequest, now: Instant) returns (r: Outcome)
    requires db.Valid()
    modifies db`bookings, db`nextBookingId
    ensures db.Valid()
    ensures !RoomIsLive(db.rooms, req.roomId) ==> r == BadRequest(RoomNotFound)
    ensures RoomIsLive(db.rooms, req.roomId) && req.startTime >= req.endTime ==> r == BadRequest(InvalidRange)
    ensures RoomIsLive(db.rooms, req.roomId) && req.startTime < req.endTime
              && HasConflict(old(db.bookings), req.roomId, req.startTime, req.endTime, None)
            ==> r == BadRequest(SlotTaken)
    ensures r.Created? <==> CanCreate(db.rooms, old(db.bookings), req)
    ensures r.Created? ==>
      && r.id == old(db.nextBookingId) && r.id !in old(db.bookings)
      && db.bookings == old(db.bookings)[r.id := NewBooking(r.id, req, now)]
      && db.nextBookingId == r.id + 1
    ensures !r.Created? ==> db.bookings == old(db.bookings) && db.nextBookingId == old(db.nextBookingId)
    ensures ApprovedDisjoint(old(db.bookings)) ==> ApprovedDisjoint(db.bookings)
    ensures WellFormed(old(db.bookings)) ==> WellFormed(db.bookings)
  {
    if !RoomIsLive(db.rooms, req.roomId) {
      return BadRequest(RoomNotFound);
    }
    if req.startTime >= req.endTime {
      return BadRequest(InvalidRange);
    }
    if HasConflict(db.bookings, req.roomId, req.startTime, req.endTime, None) {
      return BadRequest(SlotTaken);
    }
    var id := db.nextBookingId;
    var booking := NewBooking(id, req, now);
    if ApprovedDisjoint(db.bookings) {
      NonBlockingWriteKeepsDisjoint(db.bookings, id, booking);
    }
    db.bookings := db.bookings[id := booking];
    db.nextBookingId := id + 1;
    r := Created(id);
  }

  // ---------------------------------------------------------------- UpdateBooking

  /** The partial update: each supplied (non-null) field replaces the booking's own. */
  function ApplyUpdate(b: Booking, req: UpdateBookingRequest): (r: Booking)
    ensures r.id == b.id && r.status == b.status && r.rejectionReason == b.rejectionReason
    ensures r.createdAt == b.createdAt && r.updatedAt == b.updatedAt && r.deletedAt == b.deletedAt
  {
    b.(roomId := req.roomId.GetOr(b.roomId),
       bookerName := req.bookerName.GetOr(b.bookerName),
       bookerEmail := req.bookerEmail.GetOr(b.bookerEmail),
       bookerPhone := if req.bookerPhone.Some? then req.bookerPhone else b.bookerPhone,
       purpose := req.purpose.GetOr(b.purpose),
       startTime := req.startTime.GetOr(b.startTime),
       endTime := req.endTime.GetOr(b.endTime))
  }

  /** A request with every field null changes nothing. */
  lemma EmptyUpdateIsIdentity(b: Booking)
    ensures ApplyUpdate(b, UpdateBookingRequest(None, None, None, None, None, None, None)) == b
  {
  }

  /** Sending the same partial update twice is the same as sending it once. */
  lemma UpdateIsIdempotent(b: Booking, req: UpdateBookingRequest)
    ensures ApplyUpdate(ApplyUpdate(b, req), req) == ApplyUpdate(b, req)
  {
  }

  /** UpdateBooking's acceptance rule. No conflict check is made: that waits for approval. */
  predicate CanUpdate(rooms: map<int, Room>, bookings: map<int, Booking>, id: int, req: UpdateBookingRequest) {
    && BookingIsLive(bookings, id)
    && bookings[id].status == Pending
    && (req.roomId.Some? ==> RoomIsLive(rooms, req.roomId.value))
    && ApplyUpdate(bookings[id], req).startTime < ApplyUpdate(bookings[id], req).endTime
  }

  method UpdateBooking(db: Db, id: int, req: UpdateBookingRequest, now: Instant) returns (r: Outcome)
    requires db.Valid()
    modifies db`bookings
    ensures db.Valid()
    ensures !BookingIsLive(old(db.bookings), id) ==> r == NotFound
    ensures BookingIsLive(old(db.bookings), id) && old(db.bookings)[id].status != Pending ==> r == BadRequest(NotPending)
    ensures BookingIsLive(old(db.bookings), id) && old(db.bookings)[id].status == Pending
              && req.roomId.Some? && !RoomIsLive(db.rooms, req.roomId.value)
            ==> r == BadRequest(RoomNotFound)
    ensures BookingIsLive(old(db.bookings), id) && old(db.bookings)[id].status == Pending
      && (req.roomId.Some? ==> RoomIsLive(db.rooms, req.roomId.value))
      && ApplyUpdate(old(db.bookings)[id], req).startTime >= ApplyUpdate(old(db.bookings)[id], req).endTime
      ==> r == BadRequest(InvalidRange)
    ensures r == Ok <==> CanUpdate(db.rooms, old(db.bookings), id, req)
    ensures r == Ok ==> db.bookings == old(db.bookings)[id := ApplyUpdate(old(db.bookings)[id], req).(updatedAt := Some(now))]
    ensures r != Ok ==> db.bookings == old(db.bookings)
    ensures ApprovedDisjoint(old(db.bookings)) ==> ApprovedDisjoint(db.bookings)
    ensures WellFormed(old(db.bookings)) ==> WellFormed(db.bookings)
  {
    if !(id in db.bookings && db.bookings[id].IsLive()) {
      return NotFound;
    }
    var booking := db.bookings[id];
    if booking.status != Pending {
      return BadRequest(NotPending);
    }
    if req.roomId.Some? {
      if !RoomIsLive(db.rooms, req.roomId.value) {
        return BadRequest(RoomNotFound);
      }
      booking := booking.(roomId := req.roomId.value);
    }
    // each non-null field of the request replaces the booking's own
    booking := booking.(bookerName := req.bookerName.GetOr(booking.bookerName));
    booking := booking.(bookerEmail := req.bookerEmail.GetOr(booking.bookerEmail));
    booking := booking.(bookerPhone := if req.bookerPhone.Some? then req.bookerPhone else booking.bookerPhone);
    booking := booking.(purpose := req.purpose.GetOr(booking.purpose));
    booking := booking.(startTime := req.startTime.GetOr(booking.startTime));
    booking := booking.(endTime := req.endTime.GetOr(booking.endTime));
    assert booking == ApplyUpdate(db.bookings[id], req);
    if booking.startTime >= booking.endTime {
      return BadRequest(InvalidRange);
    }
    booking := booking.(updatedAt := Some(now));
    if ApprovedDisjoint(db.bookings) {
      NonBlockingWriteKeepsDisjoint(db.bookings, id, booking);
    }
    db.bookings := db.bookings[id := booking];
    r := Ok;
  }

  // ---------------------------------------------------------------- UpdateBookingStatus

  /** The decision's effect: Status and RejectionReason taken verbatim from the request. */
  function Decided(b: Booking, req: UpdateBookingStatusRequest, now: Instant): Booking {
    b.(status := req.status, rejectionReason := req.rejectionReason, updatedAt := Some(now))
  }

  /** UpdateBookingStatus's acceptance rule; the current status plays no part. */
  predicate CanDecide(bookings: map<int, Booking>, id: int, req: UpdateBookingStatusRequest) {
    && BookingIsLive(bookings, id)
    && (req.status == Approved ==>
          !HasConflict(bookings, bookings[id].roomId, bookings[id].startTime, bookings[id].endTime, Some(id)))
    && (req.status == Rejected ==> !IsNullOrWhiteSpace(req.rejectionReason))
  }

  method UpdateBookingStatus(db: Db, id: int, req: UpdateBookingStatusRequest, now: Instant) returns (r: Outcome)
    requires db.Valid()
    modifies db`bookings
    ensures db.Valid()
    ensures !BookingIsLive(old(db.bookings), id) ==> r == NotFound
    ensures BookingIsLive(old(db.bookings), id) && req.status == Approved
      && HasConflict(old(db.bookings), old(db.bookings)[id].roomId, old(db.bookings)[id].startTime,
                     old(db.bookings)[id].endTime, Some(id))
      ==> r == BadRequest(SlotTaken)
    ensures BookingIsLive(old(db.bookings), id) && req.status == Rejected && IsNullOrWhiteSpace(req.rejectionReason)
      ==> r == BadRequest(MissingReason)
    ensures r == Ok <==> CanDecide(old(db.bookings), id, req)
    ensures r == Ok ==> db.bookings == old(db.bookings)[id := Decided(old(db.bookings)[id], req, now)]
    ensures r != Ok ==> db.bookings == old(db.bookings)
    ensures ApprovedDisjoint(old(db.bookings)) ==> ApprovedDisjoint(db.bookings)
    ensures WellFormed(old(db.bookings)) ==> WellFormed(db.bookings)
  {
    if !(id in db.bookings && db.bookings[id].IsLive()) {
      return NotFound;
    }
    var booking := db.bookings[id];
    if req.status == Approved {
      if HasConflict(db.bookings, booking.roomId, booking.startTime, booking.endTime, Some(id)) {
        return BadRequest(SlotTaken);
      }
    }
    if req.status == Rejected && IsNullOrWhiteSpace(req.rejectionReason) {
      return BadRequest(MissingReason);
    }
    booking := booking.(status := req.status);
    booking := booking.(rejectionReason := req.rejectionReason);
    booking := booking.(updatedAt := Some(now));
    if ApprovedDisjoint(db.bookings) {
      if req.status == Approved {
        ClearedWriteKeepsDisjoint(db.bookings, id, booking);
      } else {
        NonBlockingWriteKeepsDisjoint(db.bookings, id, booking);
      }
    }
    db.bookings := db.bookings[id := booking];
    r := Ok;
  }

  // ---------------------------------------------------------------- DeleteBooking

  method DeleteBooking(db: Db, id: int, now: Instant) returns (r: Outcome)
    requires db.Valid()
    modifies db`bookings
    ensures db.Valid()
    ensures r == Ok <==> BookingIsLive(old(db.bookings), id)
    ensures r != Ok ==> r == NotFound && db.bookings == old(db.bookings)
    ensures r == Ok ==> db.bookings == old(db.bookings)[id := old(db.bookings)[id].(deletedAt := Some(now))]
    ensures ApprovedDisjoint(old(db.bookings)) ==> ApprovedDisjoint(db.bookings)
    ensures WellFormed(old(db.bookings)) ==> WellFormed(db.bookings)
  {
    if !(id in db.bookings && db.bookings[id].IsLive()) {
      return NotFound;
    }
    var booking := db.bookings[id].(deletedAt := Some(now));
    if ApprovedDisjoint(db.bookings) {
      NonBlockingWriteKeepsDisjoint(db.bookings, id, booking);
    }
    db.bookings := db.bookings[id := booking];
    r := Ok;
  }

  /** A soft-deleted booking is gone for GetBooking and never takes part in a conflict scan. */
  lemma DeletedIsInvisible(bookings: map<int, Booking>, id: int, roomId: int, start: Instant, end: Instant, except: Option<int>)
    requires forall k :: k in bookings ==> bookings[k].id == k
    requires id in bookings && !bookings[id].IsLive()
    ensures GetBooking(bookings, id).None?
    ensures HasConflict(bookings, roomId, start, end, except) == HasConflict(bookings - {id}, roomId, start, end, except)
  {
    var m := bookings - {id};
    if HasConflict(bookings, roomId, start, end, except) {
      var k :| k in bookings && (except.None? || bookings[k].id != except.value) && bookings[k].roomId == roomId
        && Blocks(bookings[k]) && RequestClashes(start, end, bookings[k].startTime, bookings[k].endTime);
      assert k in m;
    }
  }

  // ---------------------------------------------------------------- listings

  /** The filters of GetBookings: live, search text, status and room. */
  predicate BookingMatches(b: Booking, rooms: map<int, Room>,
                           search: Option<string>, status: Option<BookingStatus>, roomId: Option<int>) {
    && b.IsLive()
    && (IsNullOrWhiteSpace(search)
        || Contains(b.bookerName, search.value)
        || Contains(b.bookerEmail, search.value)
        || Contains(b.purpose, search.value)
        || (b.roomId in rooms && Contains(rooms[b.roomId].name, search.value)))
    && (status.None? || b.status == status.value)
    && (roomId.None? || b.roomId == roomId.value)
  }

  function BookingFilter(rooms: map<int, Room>, search: Option<string>, status: Option<BookingStatus>,
                         roomId: Option<int>): Booking -> bool {
    (b: Booking) => BookingMatches(b, rooms, search, status, roomId)
  }

  function CreatedAtOf(b: Booking): Instant {
    b.createdAt
  }

  function StartTimeOf(b: Booking): Instant {
    b.startTime
  }

  /** The whole GetBookings result before paging: every match, newest first. */
  function MatchingBookings(bookings: map<int, Booking>, rooms: map<int, Room>,
                            search: Option<string>, status: Option<BookingStatus>, roomId: Option<int>): (r: seq<Booking>)
    ensures forall b :: b in r <==> b in bookings.Values && BookingMatches(b, rooms, search, status, roomId)
    ensures forall i, j :: 0 <= i < j < |r| ==> r[i].createdAt >= r[j].createdAt
    ensures |r| == |set k | k in bookings && BookingMatches(bookings[k], rooms, search, status, roomId)|
  {
    var keep := BookingFilter(rooms, search, status, roomId);
    DescendingIsTotalPreorder(CreatedAtOf);
    var r := Query(bookings, keep, Descending(CreatedAtOf));
    SortedDescending(r, CreatedAtOf);
    assert KeysWhere(bookings, keep) == set k | k in bookings && BookingMatches(bookings[k], rooms, search, status, roomId);
    r
  }

  /**
   * GET api/Booking: one page of the matching bookings, with the
   * X-Total-Count header counted before paging.
   */
  function GetBookings(bookings: map<int, Booking>, rooms: map<int, Room>,
                       search: Option<string>, status: Option<BookingStatus>, roomId: Option<int>,
                       page: int, pageSize: int): (r: Paged<Booking>)
    ensures forall b :: b in r.items ==> b in bookings.Values && BookingMatches(b, rooms, search, status, roomId)
    ensures forall i, j :: 0 <= i < j < |r.items| ==> r.items[i].createdAt >= r.items[j].createdAt
    ensures r.totalCount == |MatchingBookings(bookings, rooms, search, status, roomId)|
    ensures SensiblePaging(page, pageSize) ==>
      (page - 1) * pageSize >= 0 &&
      r.items == Window(MatchingBookings(bookings, rooms, search, status, roomId), (page - 1) * pageSize, pageSize)
  {
    var keep := BookingFilter(rooms, search, status, roomId);
    var r := PagedQuery(bookings, keep, Descending(CreatedAtOf), page, pageSize);
    DescendingIsTotalPreorder(CreatedAtOf);
    SortedDescending(r.items, CreatedAtOf);
    r
  }

  /** The filters of GetBookingHistory: live, exact booker e-mail and room. */
  predicate HistoryMatches(b: Booking, email: Option<string>, roomId: Option<int>) {
    && b.IsLive()
    && (IsNullOrWhiteSpace(email) || b.bookerEmail == email.value)
    && (roomId.None? || b.roomId == roomId.value)
  }

  function HistoryFilter(email: Option<string>, roomId: Option<int>): Booking -> bool {
    (b: Booking) => HistoryMatches(b, email, roomId)
  }

  /** The whole GetBookingHistory result before paging: every match, latest start first. */
  function BookingHistory(bookings: map<int, Booking>, email: Option<string>, roomId: Option<int>): (r: seq<Booking>)
    ensures forall b :: b in r <==> b in bookings.Values && HistoryMatches(b, email, roomId)
    ensures forall i, j :: 0 <= i < j < |r| ==> r[i].startTime >= r[j].startTime
    ensures |r| == |set k | k in bookings && HistoryMatches(bookings[k], email, roomId)|
  {
    var keep := HistoryFilter(email, roomId);
    DescendingIsTotalPreorder(StartTimeOf);
    var r := Query(bookings, keep, Descending(StartTimeOf));
    SortedDescending(r, StartTimeOf);
    assert KeysWhere(bookings, keep) == set k | k in bookings && HistoryMatches(bookings[k], email, roomId);
    r
  }

  /** GET api/Booking/history: one page of the booker's history, counted before paging. */
  function GetBookingHistory(bookings: map<int, Booking>, email: Option<string>, roomId: Option<int>,
                             page: int, pageSize: int): (r: Paged<Booking>)
    ensures forall b :: b in r.items ==> b in bookings.Values && HistoryMatches(b, email, roomId)
    ensures forall i, j :: 0 <= i < j < |r.items| ==> r.items[i].startTime >= r.items[j].startTime
    ensures r.totalCount == |BookingHistory(bookings, email, roomId)|
    ensures SensiblePaging(page, pageSize) ==>
      (page - 1) * pageSize >= 0 &&
      r.items == Window(BookingHistory(bookings, email, roomId), (page - 1) * pageSize, pageSize)
  {
    var keep := HistoryFilter(email, roomId);
    var r := PagedQuery(bookings, keep, Descending(StartTimeOf), page, pageSize);
    DescendingIsTotalPreorder(StartTimeOf);
    SortedDescending(r.items, StartTimeOf);
    r
  }

  // ---------------------------------------------------------------- scenarios

  /** The seeded bookings already satisfy the invariants. */
  lemma SeedIsConsistent()
    ensures ApprovedDisjoint(SeedBookings()) && WellFormed(SeedBookings())
  {
  }

  function Request(roomId: int, start: Instant, end: Instant): CreateBookingRequest {
    CreateBookingRequest(roomId, "Andi", "andi@pens.ac.id", None, "Kuliah tamu", start, end)
  }

  /**
   * Against the seeded Approved booking of room 1 (09:00-12:00 on
   * 2026-02-20), 11:00-13:00 is refused.
   */
  method SeededClash(now: Instant) returns (r: Outcome)
    ensures r == BadRequest(SlotTaken)
  {
    var db := Seeded();
    OverlapIsConflict(db.bookings, 1, Feb20At11, Feb20At13, None, 1);
    r := CreateBooking(db, Request(1, Feb20At11, Feb20At13), now);
  }

  /** 12:00-13:00 only touches the seeded booking of room 1 and is admitted as booking 3. */
  method SeededTouching(now: Instant) returns (r: Outcome)
    ensures r == Created(3)
  {
    var db := Seeded();
    assert forall k :: k in db.bookings ==> k == 1 || k == 2;
    r := CreateBooking(db, Request(1, Feb20At12, Feb20At13), now);
  }

  /** Booking 1 Approved for [100, 200) in room 1, booking 2 Pending for the overlapping [150, 250). */
  method ApprovedAndPending(now: Instant) returns (db: Db)
    ensures fresh(db) && db.Valid()
    ensures db.bookings.Keys == {1, 2} && db.bookings[1].id == 1 && db.bookings[2].id == 2
    ensures Blocks(db.bookings[1]) && db.bookings[1].roomId == 1
    ensures BookingIsLive(db.bookings, 2) && db.bookings[2].roomId == 1
    ensures db.bookings[2].startTime == 150 && db.bookings[2].endTime == 250
  {
    db := new Db();
    db.rooms := map[1 := SeedRooms()[1]];
    db.bookings := map[1 := NewBooking(1, Request(1, 100, 200), now).(status := Approved),
                       2 := NewBooking(2, Request(1, 150, 250), now)];
    db.nextRoomId, db.nextBookingId := 2, 3;
  }

  /** Rejecting with a blank reason is refused and changes nothing. */
  method RejectionNeedsReason(now: Instant) returns (r: Outcome, kept: BookingStatus)
    ensures r == BadRequest(MissingReason) && kept == Approved
  {
    var db := ApprovedAndPending(now);
    r := UpdateBookingStatus(db, 1, UpdateBookingStatusRequest(Rejected, Some("  ")), now);
    kept := db.bookings[1].status;
  }

  /** Once the Approved booking is rejected, the overlapping Pending booking can be approved. */
  method RejectionFreesSlot(now: Instant) returns (outcomes: seq<Outcome>)
    ensures outcomes == [Ok, Ok]
  {
    var db := ApprovedAndPending(now);
    assert !IsNullOrWhiteSpace(Some("Bentrok")) by {
      assert !IsWhiteSpace("Bentrok"[0]);
    }
    var rejectA := UpdateBookingStatus(db, 1, UpdateBookingStatusRequest(Rejected, Some("Bentrok")), now);
    assert db.bookings.Keys == {1, 2} && !Blocks(db.bookings[1]);
    var approveB := UpdateBookingStatus(db, 2, UpdateBookingStatusRequest(Approved, None), now);
    outcomes := [rejectA, approveB];
  }

  /** Two Pending bookings of room 1, [100, 200) and the overlapping [150, 250). */
  method TwoPending(now: Instant) returns (db: Db)
    ensures fresh(db) && db.Valid()
    ensures db.bookings.Keys == {1, 2} && db.bookings[1].id == 1 && db.bookings[2].id == 2
    ensures BookingIsLive(db.bookings, 1) && db.bookings[1].status == Pending && db.bookings[1].roomId == 1
    ensures BookingIsLive(db.bookings, 2) && db.bookings[2].status == Pending && db.bookings[2].roomId == 1
    ensures db.bookings[1].startTime == 100 && db.bookings[1].endTime == 200
    ensures db.bookings[2].startTime == 150 && db.bookings[2].endTime == 250
  {
    db := new Db();
    db.rooms := map[1 := SeedRooms()[1]];
    db.bookings := map[1 := NewBooking(1, Request(1, 100, 200), now), 2 := NewBooking(2, Request(1, 150, 250), now)];
    db.nextRoomId, db.nextBookingId := 2, 3;
  }

  /** Of two overlapping Pending requests, the first approval wins and the second is refused. */
  method FirstApprovalWins(now: Instant) returns (outcomes: seq<Outcome>)
    ensures outcomes == [Ok, BadRequest(SlotTaken)]
  {
    var db := TwoPending(now);
    var first := UpdateBookingStatus(db, 1, UpdateBookingStatusRequest(Approved, None), now);
    assert db.bookings.Keys == {1, 2} && Blocks(db.bookings[1]) && db.bookings[1].roomId == 1;
    OverlapIsConflict(db.bookings, 1, 150, 250, Some(2), 1);
    var second := UpdateBookingStatus(db, 2, UpdateBookingStatusRequest(Approved, None), now);
    outcomes := [first, second];
  }

  /** A deleted booking is gone: a second delete and a lookup both find nothing. */
  method DeleteTwice(now: Instant) returns (first: Outcome, second: Outcome, lookup: Option<Booking>)
    ensures first == Ok && second == NotFound && lookup == None
  {
    var db := Seeded();
    first := DeleteBooking(db, 1, now);
    second := DeleteBooking(db, 1, now);
    lookup := GetBooking(db.bookings, 1);
  }
}
