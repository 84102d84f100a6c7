/**
 * BookingsController (api/Bookings): the second booking endpoint, with
 * rules of its own. A booking is held by any live booking that is not
 * Rejected (Pending ones included); an edit replaces every field and
 * needs no Pending status; the status PATCH is applied without any check;
 * and no `StartTime < EndTime` check is made anywhere.
 *
 * Create and Update keep `LiveDisjoint`, the invariant these rules aim
 * at; the status PATCH does not (`PatchBreaksInvariants`).
 */
module BookingsController {
  import opened Wrappers
  import opened Clr
  import opened Linq
  import opened Entities
  import opened Intervals
  import opened Responses
  import opened Data
  import BookingController
  import opened Seed

  /** CreateBookingDto and UpdateBookingDto: the same seven fields, all required. */
  datatype BookingDto = BookingDto(
    roomId: int,
    bookerName: string,
    bookerEmail: string,
    bookerPhone: Option<string>,
    purpose: string,
    startTime: Instant,
    endTime: Instant)

  /** A booking that holds its slot here: live and not Rejected. */
  predicate Holds(b: Booking) {
    b.IsLive() && b.status != Rejected
  }

  /** The `hasOverlap` query of CreateBooking and, with `except` set, of UpdateBooking. */
  predicate HasOverlap(bookings: map<int, Booking>, roomId: int, start: Instant, end: Instant, except: Option<int>) {
    exists k | k in bookings ::
      && bookings[k].roomId == roomId
      && (except.None? || bookings[k].id != except.value)
      && Holds(bookings[k])
      && WindowClashes(start, end, bookings[k].startTime, bookings[k].endTime)
  }

  /** Live, non-Rejected bookings of the same room are pairwise non-overlapping. */
  ghost predicate LiveDisjoint(bookings: map<int, Booking>) {
    forall i, j ::
      && i in bookings && j in bookings && i != j
      && Holds(bookings[i]) && Holds(bookings[j])
      && bookings[i].roomId == bookings[j].roomId
      ==> !Overlaps(bookings[i].startTime, bookings[i].endTime, bookings[j].startTime, bookings[j].endTime)
  }

  /** Pending bookings block here, unlike in BookingController: a held, overlapping row is always reported. */
  lemma HeldOverlapIsReported(bookings: map<int, Booking>, roomId: int, start: Instant, end: Instant, except: Option<int>, k: int)
    requires k in bookings && Holds(bookings[k]) && bookings[k].roomId == roomId
    requires except.None? || bookings[k].id != except.value
    requires Overlaps(start, end, bookings[k].startTime, bookings[k].endTime)
    ensures HasOverlap(bookings, roomId, start, end, except)
  {
    OverlapIsClash(start, end, bookings[k].startTime, bookings[k].endTime);
  }

  /** Whatever blocks in BookingController blocks here too. */
  lemma ConflictIsOverlap(bookings: map<int, Booking>, roomId: int, start: Instant, end: Instant, except: Option<int>)
    requires BookingController.HasConflict(bookings, roomId, start, end, except)
    ensures HasOverlap(bookings, roomId, start, end, except)
  {
    var k :| k in bookings && (except.None? || bookings[k].id != except.value) && bookings[k].roomId == roomId
      && BookingController.Blocks(bookings[k])
      && RequestClashes(start, end, bookings[k].startTime, bookings[k].endTime);
    WrittenFormsAgree(start, end, bookings[k].startTime, bookings[k].endTime);
  }

  /** Writing `b` under `id` when no other held row clashes with it keeps the invariant. */
  lemma {:induction false} ClearedWriteKeepsDisjoint(bookings: map<int, Booking>, id: int, b: Booking)
    requires LiveDisjoint(bookings)
    requires forall k :: k in bookings ==> bookings[k].id == k
    requires Holds(b) ==> !HasOverlap(bookings, b.roomId, b.startTime, b.endTime, Some(id))
    ensures LiveDisjoint(bookings[id := b])
  {
    var m := bookings[id := b];
    forall i, j | i in m && j in m && i != j && Holds(m[i]) && Holds(m[j]) && m[i].roomId == m[j].roomId
      ensures !Overlaps(m[i].startTime, m[i].endTime, m[j].startTime, m[j].endTime)
    {
      if i == id || j == id {
        var other := if i == id then j else i;
        OverlapSymmetric(m[i].startTime, m[i].endTime, m[j].startTime, m[j].endTime);
        if Overlaps(b.startTime, b.endTime, bookings[other].startTime, bookings[other].endTime) {
          HeldOverlapIsReported(bookings, b.roomId, b.startTime, b.endTime, Some(id), other);
          assert false;
        }
      }
    }
  }

  // ---------------------------------------------------------------- CreateBooking

  function NewBooking(id: int, dto: BookingDto, now: Instant): Booking {
    Booking(id, dto.roomId, dto.bookerName, dto.bookerEmail, dto.bookerPhone, dto.purpose,
            dto.startTime, dto.endTime, Pending, None, now, None, None)
  }

  method CreateBooking(db: Db, dto: BookingDto, now: Instant) returns (r: Outcome)
    requires db.Valid()
    modifies db`bookings, db`nextBookingId
    ensures db.Valid()
    ensures !RoomIsLive(db.rooms, dto.roomId) ==> r == BadRequest(RoomNotFound)
    ensures RoomIsLive(db.rooms, dto.roomId) && HasOverlap(old(db.bookings), dto.roomId, dto.startTime, dto.endTime, None)
            ==> r == BadRequest(SlotTaken)
    ensures r.Created? <==> RoomIsLive(db.rooms, dto.roomId)
                            && !HasOverlap(old(db.bookings), dto.roomId, dto.startTime, dto.endTime, None)
    ensures r.Created? ==>
      && r.id == old(db.nextBookingId) && r.id !in old(db.bookings)
      && db.bookings == old(db.bookings)[r.id := NewBooking(r.id, dto, now)]
      && db.nextBookingId == r.id + 1
    ensures !r.Created? ==> db.bookings == old(db.bookings) && db.nextBookingId == old(db.nextBookingId)
    ensures LiveDisjoint(old(db.bookings)) ==> LiveDisjoint(db.bookings)
  {
    if !RoomIsLive(db.rooms, dto.roomId) {
      return BadRequest(RoomNotFound);
    }
    if HasOverlap(db.bookings, dto.roomId, dto.startTime, dto.endTime, None) {
      return BadRequest(SlotTaken);
    }
    var id := db.nextBookingId;
    var booking := NewBooking(id, dto, now);
    if LiveDisjoint(db.bookings) {
      ClearedWriteKeepsDisjoint(db.bookings, id, booking);
    }
    db.bookings := db.bookings[id := booking];
    db.nextBookingId := id + 1;
    r := Created(id);
  }

  // ---------------------------------------------------------------- UpdateBooking

  /** The wholesale overwrite: the seven DTO fields and UpdatedAt; status, reason, CreatedAt and DeletedAt stay. */
  function Overwritten(b: Booking, dto: BookingDto, now: Instant): (r: Booking)
    ensures r.id == b.id && r.status == b.status && r.rejectionReason == b.rejectionReason
    ensures r.createdAt == b.createdAt && r.deletedAt == b.deletedAt
    ensures r.updatedAt == Some(now)
    ensures NewBooking(b.id, dto, b.createdAt) == r.(status := Pending, rejectionReason := None,
                                                      updatedAt := None, deletedAt := None)
  {
    b.(roomId := dto.roomId, bookerName := dto.bookerName, bookerEmail := dto.bookerEmail,
       bookerPhone := dto.bookerPhone, purpose := dto.purpose,
       startTime := dto.startTime, endTime := dto.endTime, updatedAt := Some(now))
  }

  /**
   * No status restriction and no check that the room exists: a RoomId
   * naming no room at all fails only when saving, on the foreign key, and
   * the exception escapes the action (a 500 with nothing stored).
   */
  method UpdateBooking(db: Db, id: int, dto: BookingDto, now: Instant) returns (r: Outcome)
    requires db.Valid()
    modifies db`bookings
    ensures db.Valid()
    ensures !BookingIsLive(old(db.bookings), id) ==> r == NotFound
    ensures BookingIsLive(old(db.bookings), id) && HasOverlap(old(db.bookings), dto.roomId, dto.startTime, dto.endTime, Some(id))
            ==> r == BadRequest(SlotTaken)
    ensures BookingIsLive(old(db.bookings), id) && !HasOverlap(old(db.bookings), dto.roomId, dto.startTime, dto.endTime, Some(id))
            && dto.roomId !in db.rooms
            ==> r == ServerError
    ensures r == NoContent <==>
      && BookingIsLive(old(db.bookings), id)
      && !HasOverlap(old(db.bookings), dto.roomId, dto.startTime, dto.endTime, Some(id))
      && dto.roomId in db.rooms
    ensures r == NoContent ==> db.bookings == old(db.bookings)[id := Overwritten(old(db.bookings)[id], dto, now)]
    ensures r != NoContent ==> db.bookings == old(db.bookings)
    ensures LiveDisjoint(old(db.bookings)) ==> LiveDisjoint(db.bookings)
  {
    if !(id in db.bookings && db.bookings[id].IsLive()) {
      return NotFound;
    }
    if HasOverlap(db.bookings, dto.roomId, dto.startTime, dto.endTime, Some(id)) {
      return BadRequest(SlotTaken);
    }
    var booking := Overwritten(db.bookings[id], dto, now);
    if dto.roomId !in db.rooms {
      // SaveChangesAsync throws on the foreign key Bookings.RoomId -> Rooms.Id
      return ServerError;
    }
    if LiveDisjoint(db.bookings) {
      ClearedWriteKeepsDisjoint(db.bookings, id, booking);
    }
    db.bookings := db.bookings[id := booking];
    r := NoContent;
  }

  // ---------------------------------------------------------------- UpdateBookingStatus

  /** PATCH status: whatever the request says, with no conflict or reason check. */
  method UpdateBookingStatus(db: Db, id: int, req: UpdateBookingStatusRequest, now: Instant) returns (r: Outcome)
    requires db.Valid()
    modifies db`bookings
    ensures db.Valid()
    ensures r == NoContent <==> BookingIsLive(old(db.bookings), id)
    ensures r != NoContent ==> r == NotFound && db.bookings == old(db.bookings)
    ensures r == NoContent ==> db.bookings == old(db.bookings)[id :=
      old(db.bookings)[id].(status := req.status, rejectionReason := req.rejectionReason, updatedAt := Some(now))]
    ensures req.status == Rejected && LiveDisjoint(old(db.bookings)) ==> LiveDisjoint(db.bookings)
  {
    if !(id in db.bookings && db.bookings[id].IsLive()) {
      return NotFound;
    }
    var booking := db.bookings[id];
    booking := booking.(status := req.status);
    booking := booking.(rejectionReason := req.rejectionReason);
    booking := booking.(updatedAt := Some(now));
    db.bookings := db.bookings[id := booking];
    r := NoContent;
  }

  /**
   * The PATCH breaks both invariants: booking 2 is Approved for [150, 250);
   * booking 1, Rejected for the overlapping [100, 200), is patched back to
   * Approved.
   */
  lemma PatchBreaksInvariants(b1: Booking, b2: Booking)
    requires b1 == Booking(1, 1, "A", "a@pens.ac.id", None, "Rapat", 100, 200, Rejected, Some("Bentrok"), 0, None, None)
    requires b2 == Booking(2, 1, "B", "b@pens.ac.id", None, "Rapat", 150, 250, Approved, None, 0, None, None)
    ensures LiveDisjoint(map[1 := b1, 2 := b2]) && BookingController.ApprovedDisjoint(map[1 := b1, 2 := b2])
    ensures var patched := map[1 := b1.(status := Approved, rejectionReason := None), 2 := b2];
      !LiveDisjoint(patched) && !BookingController.ApprovedDisjoint(patched)
  {
    var before := map[1 := b1, 2 := b2];
    assert forall k :: k in before ==> k == 1 || k == 2;
    var patched := map[1 := b1.(status := Approved, rejectionReason := None), 2 := b2];
    assert Holds(patched[1]) && Holds(patched[2]) && Overlaps(100, 200, 150, 250);
  }

  // ---------------------------------------------------------------- DeleteBooking

  method DeleteBooking(db: Db, id: int, now: Instant) returns (r: Outcome)
    requires db.Valid()
    modifies db`bookings
    ensures db.Valid()
    ensures r == NoContent <==> BookingIsLive(old(db.bookings), id)
    ensures r != NoContent ==> r == NotFound && db.bookings == old(db.bookings)
    ensures r == NoContent ==> db.bookings == old(db.bookings)[id := old(db.bookings)[id].(deletedAt := Some(now))]
    ensures r == NoContent ==> !BookingExists(db.bookings, id)
    ensures LiveDisjoint(old(db.bookings)) ==> LiveDisjoint(db.bookings)
  {
    if !(id in db.bookings && db.bookings[id].IsLive()) {
      return NotFound;
    }
    db.bookings := db.bookings[id := db.bookings[id].(deletedAt := Some(now))];
    r := NoContent;
  }

  /** `Bookings.Any(e => e.Id == id && e.DeletedAt == null)` */
  function BookingExists(bookings: map<int, Booking>, id: int): (r: bool)
    requires forall k :: k in bookings ==> bookings[k].id == k
    ensures r <==> BookingIsLive(bookings, id)
  {
    var hits := Where(Rows(bookings), (b: Booking) => b.id == id && b.IsLive());
    assert BookingIsLive(bookings, id) ==> bookings[id] in hits;
    assert hits != [] ==> hits[0] in bookings.Values;
    hits != []
  }

  // ---------------------------------------------------------------- GetBookings

  /** The filters of GetBookings: search by `IsNullOrEmpty` over name, e-mail and purpose only. */
  predicate BookingMatches(b: Booking, search: Option<string>, status: Option<BookingStatus>, roomId: Option<int>) {
    && b.IsLive()
    && (IsNullOrEmpty(search)
        || Contains(b.bookerName, search.value)
        || Contains(b.bookerEmail, search.value)
        || Contains(b.purpose, search.value))
    && (status.None? || b.status == status.value)
    && (roomId.None? || b.roomId == roomId.value)
  }

  function BookingFilter(search: Option<string>, status: Option<BookingStatus>, roomId: Option<int>): Booking -> bool {
    (b: Booking) => BookingMatches(b, search, status, roomId)
  }

  /** GET api/Bookings: every matching live booking, newest first, unpaged. */
  function GetBookings(bookings: map<int, Booking>, search: Option<string>, status: Option<BookingStatus>,
                       roomId: Option<int>): (r: seq<Booking>)
    ensures forall b :: b in r <==> b in bookings.Values && BookingMatches(b, search, status, roomId)
    ensures forall i, j :: 0 <= i < j < |r| ==> r[i].createdAt >= r[j].createdAt
    ensures |r| == |set k | k in bookings && BookingMatches(bookings[k], search, status, roomId)|
  {
    var keep := BookingFilter(search, status, roomId);
    DescendingIsTotalPreorder(BookingController.CreatedAtOf);
    var r := Query(bookings, keep, Descending(BookingController.CreatedAtOf));
    SortedDescending(r, BookingController.CreatedAtOf);
    assert KeysWhere(bookings, keep) == set k | k in bookings && BookingMatches(bookings[k], search, status, roomId);
    r
  }

  // ---------------------------------------------------------------- scenarios

  function Dto(roomId: int, start: Instant, end: Instant): BookingDto {
    BookingDto(roomId, "Andi", "andi@pens.ac.id", None, "Kuliah tamu", start, end)
  }

  /**
   * The seeded Pending booking of room 2 (13:00-15:00 on 2026-02-21)
   * blocks here, and a reversed interval is admitted because no range check
   * is made.
   */
  method SeededAdmission(now: Instant) returns (pendingBlocks: Outcome, reversed: Outcome)
    ensures pendingBlocks == BadRequest(SlotTaken)
    ensures reversed == Created(3)
  {
    var db := Seeded();
    HeldOverlapIsReported(db.bookings, 2, Feb21At13, Feb21At15, None, 2);
    pendingBlocks := CreateBooking(db, Dto(2, Feb21At13, Feb21At15), now);
    reversed := CreateBooking(db, Dto(3, Feb21At15, Feb21At13), now);
  }

  /** The same slot in room 2 is open to BookingController, which ignores Pending rows. */
  lemma PendingDoesNotBlockThere()
    ensures !BookingController.HasConflict(SeedBookings(), 2, Feb21At13, Feb21At15, None)
    ensures HasOverlap(SeedBookings(), 2, Feb21At13, Feb21At15, None)
  {
    HeldOverlapIsReported(SeedBookings(), 2, Feb21At13, Feb21At15, None, 2);
  }

  /** Through the controller: the PATCH is accepted and leaves two overlapping Approved bookings. */
  method PatchScenario(now: Instant) returns (db: Db, r: Outcome)
    ensures fresh(db) && r == NoContent
    ensures !LiveDisjoint(db.bookings) && !BookingController.ApprovedDisjoint(db.bookings)
  {
    db := new Db();
    db.rooms := map[1 := SeedRooms()[1]];
    db.bookings := map[1 := NewBooking(1, Dto(1, 100, 200), now).(status := Rejected, rejectionReason := Some("Bentrok")),
                       2 := NewBooking(2, Dto(1, 150, 250), now).(status := Approved)];
    db.nextRoomId, db.nextBookingId := 2, 3;
    r := UpdateBookingStatus(db, 1, UpdateBookingStatusRequest(Approved, None), now);
    assert Overlaps(db.bookings[1].startTime, db.bookings[1].endTime, db.bookings[2].startTime, db.bookings[2].endTime);
  }
}
