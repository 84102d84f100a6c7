/**
 * The rows of the three tables (Models/Entities) and the request bodies
 * (Models/DTOs) the controllers accept. A `DateTime` is an `Instant`:
 * whole seconds since the Unix epoch, in UTC.
 */
module Entities {
  import opened Wrappers

  type Instant = int

  /** Declared in the same order as the code names its members: Pending is 0, Approved 1, Rejected 2. */
  datatype BookingStatus = Pending | Approved | Rejected

  datatype Booking = Booking(
    id: int,
    roomId: int,
    bookerName: string,
    bookerEmail: string,
    bookerPhone: Option<string>,
    purpose: string,
    startTime: Instant,
    endTime: Instant,
    status: BookingStatus,
    rejectionReason: Option<string>,
    createdAt: Instant,
    updatedAt: Option<Instant>,
    deletedAt: Option<Instant>)
  {
    /** `DeletedAt == null`: the row has not been soft-deleted. */
    predicate IsLive() {
      deletedAt.None?
    }
  }

  /** Room.Status is free text; the code's own values are "Tersedia" and "Tidak Tersedia". */
  datatype Room = Room(
    id: int,
    name: string,
    location: string,
    capacity: int,
    description: Option<string>,
    status: string,
    createdAt: Instant,
    updatedAt: Option<Instant>,
    deletedAt: Option<Instant>)
  {
    predicate IsLive() {
      deletedAt.None?
    }
  }

  /** The `OrderBy(r => r.Name)` key. */
  function NameOf(r: Room): string {
    r.name
  }

  datatype UserRole = Admin | User {
    /** `Role.ToString()` */
    function Name(): string {
      match this
      case Admin => "Admin"
      case User => "User"
    }
  }

  /** The user row as UserController reads and writes it. */
  datatype Account = Account(
    id: int,
    username: string,
    email: string,
    password: string,
    fullName: string,
    phoneNumber: Option<string>,
    role: UserRole,
    createdAt: Instant,
    updatedAt: Option<Instant>,
    deletedAt: Option<Instant>)
  {
    predicate IsLive() {
      deletedAt.None?
    }
  }

  // ---------------------------------------------------------------- request bodies

  datatype CreateBookingRequest = CreateBookingRequest(
    roomId: int,
    bookerName: string,
    bookerEmail: string,
    bookerPhone: Option<string>,
    purpose: string,
    startTime: Instant,
    endTime: Instant)

  /** Every field optional: a null field leaves the booking's value alone. */
  datatype UpdateBookingRequest = UpdateBookingRequest(
    roomId: Option<int>,
    bookerName: Option<string>,
    bookerEmail: Option<string>,
    bookerPhone: Option<string>,
    purpose: Option<string>,
    startTime: Option<Instant>,
    endTime: Option<Instant>)

  datatype UpdateBookingStatusRequest = UpdateBookingStatusRequest(
    status: BookingStatus,
    rejectionReason: Option<string>)

  datatype CreateRoomRequest = CreateRoomRequest(
    name: string,
    location: string,
    capacity: int,
    description: Option<string>,
    status: string)

  datatype UpdateRoomRequest = UpdateRoomRequest(
    name: Option<string>,
    location: Option<string>,
    capacity: Option<int>,
    description: Option<string>,
    status: Option<string>)

  /** The `[Range(1, 1000)]` bound on UpdateRoomRequest.Capacity. */
  const MinCapacity: int := 1
  const MaxCapacity: int := 1000

  datatype CreateUserRequest = CreateUserRequest(
    username: string,
    email: string,
    password: string,
    fullName: string,
    phoneNumber: Option<string>,
    role: UserRole)

  datatype UpdateUserRequest = UpdateUserRequest(
    email: string,
    fullName: string,
    phoneNumber: Option<string>)

  /** What the user endpoints return: every column but the password and DeletedAt. */
  datatype UserResponse = UserResponse(
    id: int,
    username: string,
    email: string,
    fullName: string,
    phoneNumber: Option<string>,
    role: string,
    createdAt: Instant,
    updatedAt: Option<Instant>)
}
