/**
 * RoomsController (api/Rooms): the room list with its capacity and
 * availability filters, lookup, creation from a full Room body, the
 * wholesale edit and the soft delete.
 */
module RoomsController {
  import opened Wrappers
  import opened Clr
  import opened Linq
  import opened Entities
  import opened Intervals
  import opened Responses
  import opened Data
  import BookingsController
  import opened Seed

  // ---------------------------------------------------------------- GetRooms

  /** The database-side filters: live, search (`IsNullOrEmpty` guard), exact status, least capacity. */
  predicate RoomMatches(r: Room, search: Option<string>, status: Option<string>, minCapacity: Option<int>) {
    && r.IsLive()
    && (IsNullOrEmpty(search)
        || Contains(r.name, search.value)
        || Contains(r.location, search.value)
        || (r.description.Some? && Contains(r.description.value, search.value)))
    && (IsNullOrEmpty(status) || r.status == status.value)
    && (minCapacity.None? || r.capacity >= minCapacity.value)
  }

  function RoomFilter(search: Option<string>, status: Option<string>, minCapacity: Option<int>): Room -> bool {
    (r: Room) => RoomMatches(r, search, status, minCapacity)
  }

  /** The list before the availability step: matching rooms in ordinal name order. */
  function Candidates(rooms: map<int, Room>, search: Option<string>, status: Option<string>,
                      minCapacity: Option<int>): (r: seq<Room>)
    ensures forall x :: x in r <==> x in rooms.Values && RoomMatches(x, search, status, minCapacity)
    ensures forall i, j :: 0 <= i < j < |r| ==> OrdinalLe(r[i].name, r[j].name)
    ensures SortedBy(r, AscendingText(NameOf))
    ensures |r| == |set k | k in rooms && RoomMatches(rooms[k], search, status, minCapacity)|
  {
    var keep := RoomFilter(search, status, minCapacity);
    AscendingTextIsTotalPreorder(NameOf);
    var r := Query(rooms, keep, AscendingText(NameOf));
    SortedAscendingText(r, NameOf);
    assert KeysWhere(rooms, keep) == set k | k in rooms && RoomMatches(rooms[k], search, status, minCapacity);
    r
  }

  /** A live, non-Rejected booking of room `id` clashes with the window. */
  predicate IsBooked(bookings: map<int, Booking>, id: int, start: Instant, end: Instant) {
    exists k | k in bookings ::
      && bookings[k].roomId == id
      && BookingsController.Holds(bookings[k])
      && WindowClashes(start, end, bookings[k].startTime, bookings[k].endTime)
  }

  /** `bookedRoomIds`: the distinct RoomIds of the bookings that clash with the window. */
  function BookedRoomIds(bookings: map<int, Booking>, start: Instant, end: Instant): (ids: set<int>)
    ensures forall id :: id in ids <==> IsBooked(bookings, id, start, end)
  {
    set k | k in bookings && BookingsController.Holds(bookings[k])
                          && WindowClashes(start, end, bookings[k].startTime, bookings[k].endTime)
      :: bookings[k].roomId
  }

  /**
   * GET api/Rooms. The availability step runs only when both ends of the
   * window are given; it drops exactly the rooms with a clashing booking
   * and keeps the others in name order.
   */
  function GetRooms(rooms: map<int, Room>, bookings: map<int, Booking>,
                    search: Option<string>, status: Option<string>, minCapacity: Option<int>,
                    startTime: Option<Instant>, endTime: Option<Instant>): (r: seq<Room>)
    ensures IsSubsequence(r, Candidates(rooms, search, status, minCapacity))
    ensures forall x :: x in r <==>
      && x in rooms.Values && RoomMatches(x, search, status, minCapacity)
      && (startTime.Some? && endTime.Some? ==> !IsBooked(bookings, x.id, startTime.value, endTime.value))
    ensures startTime.None? || endTime.None? ==> r == Candidates(rooms, search, status, minCapacity)
    ensures forall i, j :: 0 <= i < j < |r| ==> OrdinalLe(r[i].name, r[j].name)
  {
    var candidates := Candidates(rooms, search, status, minCapacity);
    if startTime.Some? && endTime.Some? then
      var booked := BookedRoomIds(bookings, startTime.value, endTime.value);
      var r := Where(candidates, (x: Room) => x.id !in booked);
      WhereSorted(candidates, (x: Room) => x.id !in booked, AscendingText(NameOf));
      SortedAscendingText(r, NameOf);
      r
    else
      SubsequenceOfItself(candidates);
      candidates
  }

  /** With a well-formed window and well-formed bookings, "booked" is the half-open overlap. */
  lemma BookedIffOverlap(bookings: map<int, Booking>, id: int, start: Instant, end: Instant)
    requires start < end
    requires forall k :: k in bookings ==> bookings[k].startTime < bookings[k].endTime
    ensures IsBooked(bookings, id, start, end) <==>
      exists k :: k in bookings && bookings[k].roomId == id && BookingsController.Holds(bookings[k])
                  && Overlaps(start, end, bookings[k].startTime, bookings[k].endTime)
  {
    if IsBooked(bookings, id, start, end) {
      var k :| k in bookings && bookings[k].roomId == id && BookingsController.Holds(bookings[k])
        && WindowClashes(start, end, bookings[k].startTime, bookings[k].endTime);
      ClashIffOverlap(start, end, bookings[k].startTime, bookings[k].endTime);
    }
    if exists k :: k in bookings && bookings[k].roomId == id && BookingsController.Holds(bookings[k])
                   && Overlaps(start, end, bookings[k].startTime, bookings[k].endTime) {
      var k :| k in bookings && bookings[k].roomId == id && BookingsController.Holds(bookings[k])
        && Overlaps(start, end, bookings[k].startTime, bookings[k].endTime);
      OverlapIsClash(start, end, bookings[k].startTime, bookings[k].endTime);
    }
  }

  // ---------------------------------------------------------------- GetRoom

  /** `FirstOrDefaultAsync(r => r.Id == id && r.DeletedAt == null)` */
  function GetRoom(rooms: map<int, Room>, id: int): (r: Option<Room>)
    requires forall k :: k in rooms ==> rooms[k].id == k
    ensures r.Some? <==> RoomIsLive(rooms, id)
    ensures r.Some? ==> r.value == rooms[id]
  {
    var hits := Where(Rows(rooms), (x: Room) => x.id == id && x.IsLive());
    assert RoomIsLive(rooms, id) ==> rooms[id] in hits;
    if hits == [] then None
    else
      assert hits[0] in rooms.Values;
      Some(hits[0])
  }

  // ---------------------------------------------------------------- CreateRoom

  /**
   * POST api/Rooms stores the body as sent, CreatedAt aside. An Id of 0 is
   * generated; any other Id is inserted as given and fails on the primary
   * key when taken (an uncaught exception: 500, nothing stored).
   */
  method CreateRoom(db: Db, body: Room, now: Instant) returns (r: Outcome)
    requires db.Valid()
    modifies db`rooms, db`nextRoomId
    ensures db.Valid()
    ensures body.id != 0 && body.id in old(db.rooms) ==> r == ServerError
    ensures r.Created? <==> body.id == 0 || body.id !in old(db.rooms)
    ensures r.Created? ==>
      && r.id == (if body.id == 0 then old(db.nextRoomId) else body.id)
      && r.id !in old(db.rooms)
      && db.rooms == old(db.rooms)[r.id := body.(id := r.id, createdAt := now)]
      && db.nextRoomId == if r.id < old(db.nextRoomId) then old(db.nextRoomId) else r.id + 1
    ensures !r.Created? ==> db.rooms == old(db.rooms) && db.nextRoomId == old(db.nextRoomId)
  {
    var id := if body.id == 0 then db.nextRoomId else body.id;
    if id in db.rooms {
      return ServerError;
    }
    db.rooms := db.rooms[id := body.(id := id, createdAt := now)];
    if db.nextRoomId <= id {
      db.nextRoomId := id + 1;
    }
    r := Created(id);
  }

  // ---------------------------------------------------------------- UpdateRoom

  /** The wholesale edit: Name, Capacity, Location, Description and Status from the body, and UpdatedAt. */
  function Replaced(existing: Room, body: Room, now: Instant): (r: Room)
    ensures r.id == existing.id && r.createdAt == existing.createdAt && r.deletedAt == existing.deletedAt
    ensures r.updatedAt == Some(now)
    ensures r.(id := body.id, createdAt := body.createdAt, updatedAt := body.updatedAt, deletedAt := body.deletedAt) == body
  {
    existing.(name := body.name, capacity := body.capacity, location := body.location,
              description := body.description, status := body.status, updatedAt := Some(now))
  }

  method UpdateRoom(db: Db, id: int, body: Room, now: Instant) returns (r: Outcome)
    requires db.Valid()
    modifies db`rooms
    ensures db.Valid()
    ensures id != body.id ==> r == BadRequest(IdMismatch)
    ensures id == body.id && !RoomIsLive(old(db.rooms), id) ==> r == NotFound
    ensures r == NoContent <==> id == body.id && RoomIsLive(old(db.rooms), id)
    ensures r == NoContent ==> db.rooms == old(db.rooms)[id := Replaced(old(db.rooms)[id], body, now)]
    ensures r != NoContent ==> db.rooms == old(db.rooms)
  {
    if id != body.id {
      return BadRequest(IdMismatch);
    }
    if !(id in db.rooms && db.rooms[id].IsLive()) {
      return NotFound;
    }
    var room := db.rooms[id];
    room := room.(name := body.name);
    room := room.(capacity := body.capacity);
    room := room.(location := body.location);
    room := room.(description := body.description);
    room := room.(status := body.status);
    room := room.(updatedAt := Some(now));
    db.rooms := db.rooms[id := room];
    r := NoContent;
  }

  // ---------------------------------------------------------------- DeleteRoom

  /** Soft delete; the room's bookings are left as they are. */
  method DeleteRoom(db: Db, id: int, now: Instant) returns (r: Outcome)
    requires db.Valid()
    modifies db`rooms
    ensures db.Valid()
    ensures r == NoContent <==> RoomIsLive(old(db.rooms), id)
    ensures r != NoContent ==> r == NotFound && db.rooms == old(db.rooms)
    ensures r == NoContent ==> db.rooms == old(db.rooms)[id := old(db.rooms)[id].(deletedAt := Some(now))]
    ensures r == NoContent ==> GetRoom(db.rooms, id).None?
  {
    if !(id in db.rooms && db.rooms[id].IsLive()) {
      return NotFound;
    }
    db.rooms := db.rooms[id := db.rooms[id].(deletedAt := Some(now))];
    r := NoContent;
  }

  // ---------------------------------------------------------------- scenarios

  /** Only room 1 has a seeded booking clashing with 11:00-13:00 on 2026-02-20; none clashes with 12:00-13:00. */
  lemma SeededBookedRooms(id: int)
    ensures IsBooked(SeedBookings(), id, Feb20At11, Feb20At13) <==> id == 1
    ensures !IsBooked(SeedBookings(), id, Feb20At12, Feb20At13)
  {
    var bookings := SeedBookings();
    assert forall k :: k in bookings ==> k == 1 || k == 2;
    assert 1 in bookings && BookingsController.Holds(bookings[1])
      && WindowClashes(Feb20At11, Feb20At13, bookings[1].startTime, bookings[1].endTime);
  }

  /** On the seed, a search for 11:00-13:00 on 2026-02-20 lists rooms 2 and 3 only. */
  lemma SeededAvailability(x: Room)
    ensures x in GetRooms(SeedRooms(), SeedBookings(), None, None, None, Some(Feb20At11), Some(Feb20At13))
            <==> x == SeedRooms()[2] || x == SeedRooms()[3]
  {
    var rooms := SeedRooms();
    var r := GetRooms(rooms, SeedBookings(), None, None, None, Some(Feb20At11), Some(Feb20At13));
    SeededBookedRooms(x.id);
    SeedRoomsValues(x);
    assert RoomMatches(x, None, None, None) == x.IsLive();
    assert rooms[1].id == 1 && rooms[2].id == 2 && rooms[3].id == 3;
    if x in r {
      assert x in rooms.Values && x.id != 1;
    }
    if x == rooms[2] || x == rooms[3] {
      assert x in rooms.Values && x.IsLive() && x.id != 1;
    }
  }

  /** The touching window 12:00-13:00 on 2026-02-20 lists every seeded room. */
  lemma SeededTouchingWindow(x: Room)
    ensures x in GetRooms(SeedRooms(), SeedBookings(), None, None, None, Some(Feb20At12), Some(Feb20At13))
            <==> x in SeedRooms().Values
  {
    var rooms := SeedRooms();
    var r := GetRooms(rooms, SeedBookings(), None, None, None, Some(Feb20At12), Some(Feb20At13));
    SeededBookedRooms(x.id);
    SeedRoomsValues(x);
    assert x in r <==> x in rooms.Values && x.IsLive();
  }
}
