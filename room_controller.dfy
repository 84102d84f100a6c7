/**
 * RoomController (api/Room): the paged room list, lookup with the room's
 * live bookings, creation from a CreateRoomRequest, the partial edit and
 * the soft delete.
 */
module RoomController {
  import opened Wrappers
  import opened Clr
  import opened Linq
  import opened Entities
  import opened Responses
  import opened Data

  // ---------------------------------------------------------------- GetRooms

  /** The filters of GetRooms: live, search and status, both behind `IsNullOrWhiteSpace`. */
  predicate RoomMatches(r: Room, search: Option<string>, status: Option<string>) {
    && r.IsLive()
    && (IsNullOrWhiteSpace(search)
        || Contains(r.name, search.value)
        || Contains(r.location, search.value)
        || (r.description.Some? && Contains(r.description.value, search.value)))
    && (IsNullOrWhiteSpace(status) || r.status == status.value)
  }

  function RoomFilter(search: Option<string>, status: Option<string>): Room -> bool {
    (r: Room) => RoomMatches(r, search, status)
  }

  /** The whole GetRooms result before paging: every match, in ordinal name order. */
  function MatchingRooms(rooms: map<int, Room>, search: Option<string>, status: Option<string>): (r: seq<Room>)
    ensures forall x :: x in r <==> x in rooms.Values && RoomMatches(x, search, status)
    ensures forall i, j :: 0 <= i < j < |r| ==> OrdinalLe(r[i].name, r[j].name)
    ensures |r| == |set k | k in rooms && RoomMatches(rooms[k], search, status)|
  {
    var keep := RoomFilter(search, status);
    AscendingTextIsTotalPreorder(NameOf);
    var r := Query(rooms, keep, AscendingText(NameOf));
    SortedAscendingText(r, NameOf);
    assert KeysWhere(rooms, keep) == set k | k in rooms && RoomMatches(rooms[k], search, status);
    r
  }

  /** GET api/Room: one page of the matching rooms, counted before paging. */
  function GetRooms(rooms: map<int, Room>, search: Option<string>, status: Option<string>,
                    page: int, pageSize: int): (r: Paged<Room>)
    ensures forall x :: x in r.items ==> x in rooms.Values && RoomMatches(x, search, status)
    ensures forall i, j :: 0 <= i < j < |r.items| ==> OrdinalLe(r.items[i].name, r.items[j].name)
    ensures r.totalCount == |MatchingRooms(rooms, search, status)|
    ensures SensiblePaging(page, pageSize) ==>
      (page - 1) * pageSize >= 0 &&
      r.items == Window(MatchingRooms(rooms, search, status), (page - 1) * pageSize, pageSize)
  {
    var keep := RoomFilter(search, status);
    var r := PagedQuery(rooms, keep, AscendingText(NameOf), page, pageSize);
    AscendingTextIsTotalPreorder(NameOf);
    SortedAscendingText(r.items, NameOf);
    r
  }

  // ---------------------------------------------------------------- GetRoom

  /** A room as GetRoom returns it, with its `Bookings` navigation loaded. */
  datatype RoomDetail = RoomDetail(room: Room, bookings: seq<Booking>)

  /** GET api/Room/{id}: a live room with only its live bookings attached. */
  function GetRoom(rooms: map<int, Room>, bookings: map<int, Booking>, id: int): (r: Option<RoomDetail>)
    requires forall k :: k in rooms ==> rooms[k].id == k
    ensures r.Some? <==> RoomIsLive(rooms, id)
    ensures r.Some? ==> r.value.room == rooms[id]
    ensures r.Some? ==> forall b :: b in r.value.bookings <==> b in bookings.Values && b.roomId == id && b.IsLive()
  {
    var hits := Where(Rows(rooms), (x: Room) => x.id == id && x.IsLive());
    assert RoomIsLive(rooms, id) ==> rooms[id] in hits;
    if hits == [] then None
    else
      assert hits[0] in rooms.Values;
      Some(RoomDetail(hits[0], Where(Rows(bookings), (b: Booking) => b.roomId == id && b.IsLive())))
  }

  // ---------------------------------------------------------------- CreateRoom

  /** POST api/Room: the request's fields, a new key, CreatedAt now, not updated, not deleted. */
  method CreateRoom(db: Db, req: CreateRoomRequest, now: Instant) returns (r: Outcome)
    requires db.Valid()
    modifies db`rooms, db`nextRoomId
    ensures db.Valid()
    ensures r == Created(old(db.nextRoomId)) && r.id !in old(db.rooms)
    ensures db.rooms == old(db.rooms)[r.id := Room(r.id, req.name, req.location, req.capacity, req.description,
                                                   req.status, now, None, None)]
    ensures db.nextRoomId == r.id + 1
    ensures RoomIsLive(db.rooms, r.id)
  {
    var id := db.nextRoomId;
    var room := Room(id, req.name, req.location, req.capacity, req.description, req.status, now, None, None);
    db.rooms := db.rooms[id := room];
    db.nextRoomId := id + 1;
    r := Created(id);
  }

  // ---------------------------------------------------------------- UpdateRoom

  /** The `[Range(1, 1000)]` check model binding makes before the action runs. */
  predicate CapacityValid(req: UpdateRoomRequest) {
    req.capacity.None? || MinCapacity <= req.capacity.value <= MaxCapacity
  }

  /** The partial update: each supplied (non-null) field replaces the room's own. */
  function ApplyRoomUpdate(room: Room, req: UpdateRoomRequest): (r: Room)
    ensures r.id == room.id && r.createdAt == room.createdAt
    ensures r.updatedAt == room.updatedAt && r.deletedAt == room.deletedAt
  {
    room.(name := req.name.GetOr(room.name),
          location := req.location.GetOr(room.location),
          capacity := req.capacity.GetOr(room.capacity),
          description := if req.description.Some? then req.description else room.description,
          status := req.status.GetOr(room.status))
  }

  /** A request with every field null changes nothing. */
  lemma EmptyRoomUpdateIsIdentity(room: Room)
    ensures ApplyRoomUpdate(room, UpdateRoomRequest(None, None, None, None, None)) == room
  {
  }

  /** Sending the same partial update twice is the same as sending it once. */
  lemma RoomUpdateIsIdempotent(room: Room, req: UpdateRoomRequest)
    ensures ApplyRoomUpdate(ApplyRoomUpdate(room, req), req) == ApplyRoomUpdate(room, req)
  {
  }

  /** An accepted update leaves the capacity in 1..1000 if it was, or if the request sets it. */
  lemma UpdateKeepsCapacityRange(room: Room, req: UpdateRoomRequest)
    requires CapacityValid(req)
    requires req.capacity.Some? || MinCapacity <= room.capacity <= MaxCapacity
    ensures MinCapacity <= ApplyRoomUpdate(room, req).capacity <= MaxCapacity
  {
  }

  method UpdateRoom(db: Db, id: int, req: UpdateRoomRequest, now: Instant) returns (r: Outcome)
    requires db.Valid()
    modifies db`rooms
    ensures db.Valid()
    ensures !CapacityValid(req) ==> r == BadRequest(InvalidModel)
    ensures CapacityValid(req) && !RoomIsLive(old(db.rooms), id) ==> r == NotFound
    ensures r == Ok <==> CapacityValid(req) && RoomIsLive(old(db.rooms), id)
    ensures r == Ok ==> db.rooms == old(db.rooms)[id := ApplyRoomUpdate(old(db.rooms)[id], req).(updatedAt := Some(now))]
    ensures r != Ok ==> db.rooms == old(db.rooms)
  {
    if !CapacityValid(req) {
      return BadRequest(InvalidModel);
    }
    if !(id in db.rooms && db.rooms[id].IsLive()) {
      return NotFound;
    }
    var room := db.rooms[id];
    room := room.(name := req.name.GetOr(room.name));
    room := room.(location := req.location.GetOr(room.location));
    room := room.(capacity := req.capacity.GetOr(room.capacity));
    room := room.(description := if req.description.Some? then req.description else room.description);
    room := room.(status := req.status.GetOr(room.status));
    room := room.(updatedAt := Some(now));
    db.rooms := db.rooms[id := room];
    r := Ok;
  }

  // ---------------------------------------------------------------- DeleteRoom

  method DeleteRoom(db: Db, id: int, now: Instant) returns (r: Outcome)
    requires db.Valid()
    modifies db`rooms
    ensures db.Valid()
    ensures r == Ok <==> RoomIsLive(old(db.rooms), id)
    ensures r != Ok ==> r == NotFound && db.rooms == old(db.rooms)
    ensures r == Ok ==> db.rooms == old(db.rooms)[id := old(db.rooms)[id].(deletedAt := Some(now))]
    ensures r == Ok ==> !RoomIsLive(db.rooms, id)
  {
    if !(id in db.rooms && db.rooms[id].IsLive()) {
      return NotFound;
    }
    db.rooms := db.rooms[id := db.rooms[id].(deletedAt := Some(now))];
    r := Ok;
  }

  /** A room created and then deleted: the second delete and the lookup both find nothing. */
  method CreateThenDeleteTwice(req: CreateRoomRequest, now: Instant) returns (outcomes: seq<Outcome>, lookup: Option<RoomDetail>)
    ensures outcomes == [Created(1), Ok, NotFound] && lookup == None
  {
    var db := new Db();
    var created := CreateRoom(db, req, now);
    var first := DeleteRoom(db, 1, now);
    var second := DeleteRoom(db, 1, now);
    lookup := GetRoom(db.rooms, db.bookings, 1);
    outcomes := [created, first, second];
  }
}
