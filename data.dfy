/**
 * The database context: the Rooms, Bookings and Users tables, each keyed
 * by its integer primary key, with the next key the autoincrement column
 * will hand out.
 */
module Data {
  import opened Wrappers
  import opened Entities

  /** Every row sits under its own `Id`, below the next key to be issued. */
  ghost predicate RoomsKeyed(m: map<int, Room>, next: int) {
    forall k :: k in m ==> m[k].id == k && k < next
  }

  ghost predicate BookingsKeyed(m: map<int, Booking>, next: int) {
    forall k :: k in m ==> m[k].id == k && k < next
  }

  ghost predicate AccountsKeyed(m: map<int, Account>, next: int) {
    forall k :: k in m ==> m[k].id == k && k < next
  }

  /** The foreign key Bookings.RoomId -> Rooms.Id (rooms are only ever soft-deleted). */
  ghost predicate RoomsReferenced(bookings: map<int, Booking>, rooms: map<int, Room>) {
    forall k :: k in bookings ==> bookings[k].roomId in rooms
  }

  /** `FindAsync(id)` followed by the controllers' `== null || DeletedAt != null` test. */
  predicate RoomIsLive(rooms: map<int, Room>, id: int) {
    id in rooms && rooms[id].IsLive()
  }

  predicate BookingIsLive(bookings: map<int, Booking>, id: int) {
    id in bookings && bookings[id].IsLive()
  }

  predicate AccountIsLive(users: map<int, Account>, id: int) {
    id in users && users[id].IsLive()
  }

  class Db {
    var rooms: map<int, Room>
    var bookings: map<int, Booking>
    var users: map<int, Account>
    var nextRoomId: int
    var nextBookingId: int
    var nextUserId: int

    ghost predicate Valid()
      reads this
    {
      && RoomsKeyed(rooms, nextRoomId)
      && BookingsKeyed(bookings, nextBookingId)
      && AccountsKeyed(users, nextUserId)
      && RoomsReferenced(bookings, rooms)
    }

    constructor ()
      ensures Valid()
      ensures rooms == map[] && bookings == map[] && users == map[]
      ensures nextRoomId == 1 && nextBookingId == 1 && nextUserId == 1
    {
      rooms, bookings, users := map[], map[], map[];
      nextRoomId, nextBookingId, nextUserId := 1, 1, 1;
    }
  }
}
