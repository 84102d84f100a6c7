# Borrowdung room booking API, modelled in Dafny

Borrowdung is an ASP.NET Core Web API that lets a campus lend out its rooms.
Anyone can ask for a room for a time span. An administrator then approves or
rejects each request. Rooms, bookings and users are soft-deleted: a
`DeletedAt` stamp hides a row from every lookup, and the row stays in the table.

This project models the five controllers that hold the API's rules, over an
in-memory copy of the database:

- **BookingController** (`api/Booking`): admission of a booking request and
  the partial edit of a Pending booking. It also covers the approve/reject
  decision with its conflict re-check, the soft delete, and the two paged
  listings (all bookings, and one booker's history). Its central invariant
  is `ApprovedDisjoint`: the live Approved bookings of a room never share
  an instant. Every action of the controller is proved to keep it.
- **BookingsController** (`api/Bookings`): a second booking endpoint with
  rules of its own:
  - Pending bookings block a slot as well as Approved ones.
  - An edit overwrites the whole booking, whatever its status.
  - The status PATCH is applied without any check.
  - No `StartTime < EndTime` check is made.

  Create and Update keep `LiveDisjoint`, the invariant these rules aim at.
  The PATCH breaks it, and the model shows a state where it does.
- **RoomsController** (`api/Rooms`): the room list, with its capacity filter
  and its availability filter over a time window. Also lookup, creation from
  a full `Room` body, the wholesale edit and the soft delete.
- **RoomController** (`api/Room`): the paged room list, and lookup with the
  room's live bookings attached. Also creation from a `CreateRoomRequest`,
  the partial edit with its `Range(1, 1000)` capacity bound, and the soft
  delete.
- **UserController** (`api/User`): the administrator's user ledger.
  - Usernames and e-mail addresses are unique among live users (`UniqueLive`).
  - An administrator cannot delete their own account.
  - The listing projection never carries the password.

Shared modules:

- `Data.Db` is a class whose fields are the three tables and the next key of
  each autoincrement column. `Valid()` states that every row sits under its
  own id, below the next key, and that every booking names an existing room
  (the `Bookings.RoomId` foreign key).
- Each controller action is a method that changes the `Db`. Its `ensures`
  states the complete new state and the outcome. The outcome replaces the
  HTTP result: `Created(id)`, `Ok`, `NoContent`, `NotFound`,
  `BadRequest(reason)` or `ServerError`.
- Listings are functions. `Linq` models an EF Core query as it runs on the
  SQLite provider the program configures:
  - rows are read in key order, filtered with `Where`, and ordered with
    `OrderBy`;
  - `Skip`/`Take` become SQLite `OFFSET`/`LIMIT`, where a negative offset
    counts as 0 and a negative limit means no limit;
  - the offset `(page - 1) * pageSize` is computed with unchecked 32-bit
    `int` arithmetic.
- `Clr` holds the .NET string helpers the filters use: `IsNullOrEmpty`,
  `IsNullOrWhiteSpace`, ordinal `Contains`, `Trim`, and ordinal ordering.
  It also holds the 32-bit wrap-around.
- `Intervals` holds the three-clause overlap test that the controllers write
  out. It is related to the half-open test `s1 < e2 && s2 < e1`.
- `Seed` holds the rows the initial migration inserts: three rooms, plus two
  bookings in February 2026. The seeded scenarios run over these rows.

Times are `Instant`s: whole seconds since the Unix epoch, in UTC.
`DateTime.UtcNow` is a parameter, `now`, of every action that stamps a time.

Three facts about the code shape the model:

- BookingController.CreateBooking refuses a request that overlaps a live
  Approved booking of the same room when the booking is created, not only
  when it is approved (`SeededClash`).
- The `User` entity class has `PasswordHash` and a string `Role`, and lacks
  `Password`, `PhoneNumber` and `DeletedAt`. UserController uses the latter
  fields, and the `Account` row follows UserController.
- ApplicationDbContext declares unique indexes on `Username` and `Email`.
  UserController checks uniqueness among live users only, and the model
  follows the controller. A soft-deleted user's name can therefore be taken
  again (`DeletedNamesAreFree`).

## Model

| member | source | states |
|---|---|---|
| Intervals.WrittenFormsAgree | BorrowdungAPI/Controllers/BookingsController.cs:92-94 | BookingsController's booking-first overlap test and BookingController's request-first test give the same answer on every input |
| Intervals.OverlapIsClash | BorrowdungAPI/Controllers/BookingController.cs:130-132 | every genuine half-open overlap is reported by the three-clause test, even for empty or reversed intervals |
| Intervals.ClashIffOverlap | BorrowdungAPI/Controllers/BookingController.cs:130-132 | with `start < end` on both intervals, the three-clause test (in both written forms) holds exactly when the half-open intervals share an instant |
| Intervals.TouchingNeverClash | BorrowdungAPI/Controllers/BookingController.cs:244-246 | back-to-back well-formed intervals (either order) neither overlap nor clash under either written test |
| Intervals.ClashNeedsWellFormedBooking | BorrowdungAPI/Controllers/BookingController.cs:130-132 | without `bStart < bEnd` the test over-approximates: a reversed booking [8, 3) clashes with [4, 6) though no instant is shared |
| Intervals.OverlapSymmetric | BorrowdungAPI/Controllers/BookingController.cs:130-132 | the half-open overlap relation is symmetric |
| Clr.Wrap32 | BorrowdungAPI/Controllers/BookingController.cs:61 | the result is a 32-bit `int`, equal to the input when that fits, and congruent to it modulo 2^32 |
| Clr.Trim | BorrowdungAPI/Controllers/UserController.cs:49 | the result is the input with its leading and trailing white space removed: a slice whose dropped prefix and suffix are all white space and whose own ends are not |
| Clr.EmptyIsWhiteSpace | BorrowdungAPI/Controllers/BookingsController.cs:34 | whatever `IsNullOrEmpty` skips, `IsNullOrWhiteSpace` skips too |
| Clr.OrdinalLeTotal | BorrowdungAPI/Controllers/RoomController.cs:50 | any two strings are comparable in ordinal order |
| Clr.OrdinalLeTransitive | BorrowdungAPI/Controllers/RoomController.cs:50 | ordinal order is transitive |
| Clr.OrdinalLeAntisymmetric | BorrowdungAPI/Controllers/RoomController.cs:50 | two strings each ordinally below the other are equal |
| Linq.Rows | BorrowdungAPI/Controllers/RoomController.cs:30-31 | the table scan yields exactly the stored rows, one per key |
| Linq.Where | BorrowdungAPI/Controllers/BookingController.cs:32-56 | the filtered list holds exactly the elements the predicate accepts, in their original order (a subsequence) |
| Linq.WhereRowsCount | BorrowdungAPI/Controllers/BookingController.cs:58 | the number of filtered rows is the number of keys whose row passes the filter (`CountAsync`) |
| Linq.OrderBy | BorrowdungAPI/Controllers/BookingController.cs:60 | the ordered list is a permutation of its input |
| Linq.InsertSorted | BorrowdungAPI/Controllers/BookingController.cs:60 | inserting into a sorted list under a total preorder keeps it sorted |
| Linq.OrderBySorted | BorrowdungAPI/Controllers/BookingController.cs:60 | under a total preorder, `OrderBy`'s result is sorted |
| Linq.WhereSorted | BorrowdungAPI/Controllers/RoomsController.cs:70 | filtering a sorted list keeps it sorted |
| Linq.DescendingIsTotalPreorder | BorrowdungAPI/Controllers/BookingController.cs:60 | `OrderByDescending` on an integer key is a total preorder |
| Linq.AscendingTextIsTotalPreorder | BorrowdungAPI/Controllers/RoomController.cs:50 | `OrderBy` on a text key under ordinal comparison is a total preorder |
| Linq.PageWindow | BorrowdungAPI/Controllers/BookingController.cs:61-62 | for `page >= 1`, `pageSize >= 1` and no overflow, the page is elements `[(page-1)*pageSize, page*pageSize)` of the ordered list |
| Linq.PageIsSlice | BorrowdungAPI/Controllers/BookingController.cs:61-62 | whatever the arguments, a page is a contiguous slice of the ordered list |
| Linq.PageSound | BorrowdungAPI/Controllers/BookingController.cs:61-62 | a page holds only elements of the list and keeps its order |
| Linq.PageOffsetWraps | BorrowdungAPI/Controllers/BookingController.cs:61 | the 32-bit offset wraps: page 1073741825 of size 4 is the first page again |
| Linq.LowPageIsFirstPage | BorrowdungAPI/Controllers/BookingController.cs:61-62 | a page number below 1 yields the first page, provided `(page - 1) * pageSize` does not overflow a 32-bit `int` (when it does, the offset wraps, as `PageOffsetWraps` shows) |
| Linq.NegativePageSizeIsUnlimited | BorrowdungAPI/Controllers/BookingController.cs:62 | a negative page size lifts the limit, so the page is everything from the offset `(page - 1) * pageSize` on: from page 1 upwards that is the whole list, below page 1 the positive offset skips leading rows (both without 32-bit overflow) |
| Linq.Query | BorrowdungAPI/Controllers/BookingsController.cs:52-55 | a table query holds exactly the stored rows the filter keeps, is sorted by the given order, and its length is the count of matching keys |
| Linq.PagedQuery | BorrowdungAPI/Controllers/BookingController.cs:58-63 | the total is the number of matching rows, counted before paging; items are stored rows that pass the filter, are sorted, and with sensible arguments are the page window of the ordered query |
| Data.Db.constructor | BorrowdungAPI/Migrations/20260216210523_InitialCreate.cs:20-21 | an empty database is valid and every autoincrement key starts at 1 |
| Seed.SeedRoomsValues | BorrowdungAPI/Migrations/20260216210523_InitialCreate.cs:71-73 | the seeded rooms are exactly rooms 1, 2 and 3, each live and stored under its own id |
| Seed.Seeded | BorrowdungAPI/Migrations/20260216210523_InitialCreate.cs:66-83 | the seeded database is valid, holds the migration's rooms and bookings and no users, and issues room id 4 and booking id 3 next |
| BookingController.OverlapIsConflict | BorrowdungAPI/Controllers/BookingController.cs:125-132 | a live Approved booking of the room that genuinely overlaps is always reported as a conflict |
| BookingController.ConflictIsOverlap | BorrowdungAPI/Controllers/BookingController.cs:125-132 | with well-formed intervals, a reported conflict is a genuine overlap with a live Approved booking of that room |
| BookingController.NonBlockingRowsIgnored | BorrowdungAPI/Controllers/BookingController.cs:128-129 | storing a Pending, Rejected or deleted booking in place of a row that did not block changes no conflict answer: such rows never block |
| BookingController.NonBlockingWriteKeepsDisjoint | BorrowdungAPI/Controllers/BookingController.cs:129 | storing a booking that does not block keeps `ApprovedDisjoint` |
| BookingController.ClearedWriteKeepsDisjoint | BorrowdungAPI/Controllers/BookingController.cs:238-251 | storing a booking that the `Id != id` conflict scan clears keeps `ApprovedDisjoint`, whatever its status |
| BookingController.GetBooking | BorrowdungAPI/Controllers/BookingController.cs:83-92 | a booking is returned exactly when it exists and is not deleted, and it is the stored row |
| BookingController.CreateBooking | BorrowdungAPI/Controllers/BookingController.cs:112-153 | missing room, then `start >= end`, then an Approved overlap are refused in that order; otherwise exactly one Pending booking is added under the next id; on failure nothing changes; `ApprovedDisjoint` and well-formedness are kept |
| BookingController.ApplyUpdate | BorrowdungAPI/Controllers/BookingController.cs:185-200 | a partial update never touches id, status, reason or the time stamps |
| BookingController.EmptyUpdateIsIdentity | BorrowdungAPI/Controllers/BookingController.cs:195-200 | a request with every field null changes nothing |
| BookingController.UpdateIsIdempotent | BorrowdungAPI/Controllers/BookingController.cs:185-200 | applying the same partial update twice equals applying it once |
| BookingController.UpdateBooking | BorrowdungAPI/Controllers/BookingController.cs:172-210 | NotFound, then not Pending, then missing room, then a bad range are refused in that order, with nothing saved; otherwise only the supplied fields and UpdatedAt change, with no conflict re-check; the invariant is kept |
| BookingController.UpdateBookingStatus | BorrowdungAPI/Controllers/BookingController.cs:228-262 | approval is refused on a conflict with another booking, rejection without a reason; otherwise Status and RejectionReason are set to the request's values whatever the current status; `ApprovedDisjoint` is kept |
| BookingController.DeleteBooking | BorrowdungAPI/Controllers/BookingController.cs:282-290 | deleting a live booking sets only its DeletedAt; anything else is NotFound with nothing changed; the invariant is kept |
| BookingController.DeletedIsInvisible | BorrowdungAPI/Controllers/BookingController.cs:85 | a deleted booking is not found by GetBooking and takes no part in any conflict scan |
| BookingController.MatchingBookings | BorrowdungAPI/Controllers/BookingController.cs:32-60 | the unpaged list holds exactly the live bookings matching search, status and room, newest CreatedAt first, and its length is the number of matching rows |
| BookingController.GetBookings | BorrowdungAPI/Controllers/BookingController.cs:32-63 | items match the filters and come newest first; the total is counted before paging; with sensible arguments the items are the page's window of the full list |
| BookingController.BookingHistory | BorrowdungAPI/Controllers/BookingController.cs:311-327 | the unpaged history holds exactly the live bookings with that e-mail and room, latest StartTime first, counted |
| BookingController.GetBookingHistory | BorrowdungAPI/Controllers/BookingController.cs:311-330 | items match, come latest start first, the total is counted before paging, and with sensible arguments the items are the page's window |
| BookingController.SeedIsConsistent | BorrowdungAPI/Migrations/20260216210523_InitialCreate.cs:81-82 | the seeded bookings already satisfy `ApprovedDisjoint` and are well formed |
| BookingController.SeededClash | BorrowdungAPI/Controllers/BookingController.cs:125-137 | against the seeded Approved booking of room 1 (09:00-12:00 on 2026-02-20), a request for 11:00-13:00 is refused as taken |
| BookingController.SeededTouching | BorrowdungAPI/Controllers/BookingController.cs:130-132 | 12:00-13:00 only touches that booking and is admitted as booking 3 |
| BookingController.RejectionNeedsReason | BorrowdungAPI/Controllers/BookingController.cs:255-258 | rejecting with a blank reason is refused and the booking stays Approved |
| BookingController.RejectionFreesSlot | BorrowdungAPI/Controllers/BookingController.cs:236-262 | once the Approved booking is rejected, the overlapping Pending booking can be approved |
| BookingController.FirstApprovalWins | BorrowdungAPI/Controllers/BookingController.cs:236-251 | of two overlapping Pending bookings, approving the first succeeds and approving the second is refused as taken |
| BookingController.DeleteTwice | BorrowdungAPI/Controllers/BookingController.cs:282-290 | a second delete of a booking is NotFound and GetBooking finds nothing |
| BookingsController.HeldOverlapIsReported | BorrowdungAPI/Controllers/BookingsController.cs:88-95 | a live non-Rejected booking of the room (Pending included) that genuinely overlaps is always reported |
| BookingsController.ConflictIsOverlap | BorrowdungAPI/Controllers/BookingsController.cs:88-95 | whatever blocks in BookingController also blocks here |
| BookingsController.ClearedWriteKeepsDisjoint | BorrowdungAPI/Controllers/BookingsController.cs:135-148 | storing a booking that no other held row clashes with keeps `LiveDisjoint` |
| BookingsController.CreateBooking | BorrowdungAPI/Controllers/BookingsController.cs:81-116 | missing room, then any held overlap, are refused; no range check is made; otherwise one Pending booking is added under the next id; `LiveDisjoint` is kept |
| BookingsController.Overwritten | BorrowdungAPI/Controllers/BookingsController.cs:150-157 | the overwrite replaces all seven fields and stamps UpdatedAt; id, status, reason, CreatedAt and DeletedAt stay; the fields are those a create from the same body would store |
| BookingsController.UpdateBooking | BorrowdungAPI/Controllers/BookingsController.cs:128-172 | NotFound, then an overlap with another held booking, are refused; a RoomId naming no room fails on the foreign key with nothing saved; otherwise the booking is overwritten whatever its status; `LiveDisjoint` is kept |
| BookingsController.UpdateBookingStatus | BorrowdungAPI/Controllers/BookingsController.cs:180-192 | any live booking takes the requested status and reason with no check; `LiveDisjoint` is only guaranteed kept for a rejection |
| BookingsController.PatchBreaksInvariants | BorrowdungAPI/Controllers/BookingsController.cs:186 | a state satisfying both invariants, where patching a Rejected booking back to Approved breaks both |
| BookingsController.PatchScenario | BorrowdungAPI/Controllers/BookingsController.cs:180-192 | through the controller, the PATCH is accepted and leaves two overlapping Approved bookings in one room |
| BookingsController.DeleteBooking | BorrowdungAPI/Controllers/BookingsController.cs:200-210 | a live booking gets DeletedAt and then no longer exists; anything else is NotFound with nothing changed; `LiveDisjoint` is kept |
| BookingsController.BookingExists | BorrowdungAPI/Controllers/BookingsController.cs:213-216 | holds exactly when the booking is present and not deleted |
| BookingsController.GetBookings | BorrowdungAPI/Controllers/BookingsController.cs:29-55 | exactly the live bookings matching the `IsNullOrEmpty`-guarded search, status and room, newest first, unpaged |
| BookingsController.SeededAdmission | BorrowdungAPI/Controllers/BookingsController.cs:88-100 | the seeded Pending booking of room 2 blocks the same slot here, and a reversed interval is admitted |
| BookingsController.PendingDoesNotBlockThere | BorrowdungAPI/Controllers/BookingsController.cs:91 | the same slot is open under BookingController's rule and taken under this controller's rule |
| RoomsController.Candidates | BorrowdungAPI/Controllers/RoomsController.cs:31-55 | the pre-availability list holds exactly the live rooms matching search, status and minimum capacity, each once (its length is the number of matching rows), in ordinal name order |
| RoomsController.BookedRoomIds | BorrowdungAPI/Controllers/RoomsController.cs:60-68 | a room id is booked exactly when a live non-Rejected booking of that room clashes with the window |
| RoomsController.GetRooms | BorrowdungAPI/Controllers/RoomsController.cs:24-74 | the result is an order-preserving subsequence of the candidates; a room is listed exactly when it is a live match and, when both window ends are given, not booked; with a missing end there is no availability filtering; names ascend |
| RoomsController.BookedIffOverlap | BorrowdungAPI/Controllers/RoomsController.cs:63-65 | for a well-formed window and bookings, booked means a held booking genuinely overlaps the window |
| RoomsController.GetRoom | BorrowdungAPI/Controllers/RoomsController.cs:80-88 | a room is returned exactly when it exists and is not deleted, and it is the stored row |
| RoomsController.CreateRoom | BorrowdungAPI/Controllers/RoomsController.cs:94-100 | the body's room columns are stored as sent with CreatedAt now, under the next key when its Id is 0 and under its own Id otherwise; a taken Id fails on the primary key with nothing stored |
| RoomsController.Replaced | BorrowdungAPI/Controllers/RoomsController.cs:119-124 | the edit takes all five editable fields from the body and stamps UpdatedAt; Id, CreatedAt and DeletedAt stay |
| RoomsController.UpdateRoom | BorrowdungAPI/Controllers/RoomsController.cs:108-139 | a route/body id mismatch is refused before the lookup, then NotFound; otherwise the room is replaced; on failure nothing changes |
| RoomsController.DeleteRoom | BorrowdungAPI/Controllers/RoomsController.cs:147-157 | a live room gets DeletedAt, after which GetRoom finds nothing; anything else is NotFound with nothing changed |
| RoomsController.SeededBookedRooms | BorrowdungAPI/Migrations/20260216210523_InitialCreate.cs:81-82 | on the seed, only room 1 is booked for 11:00-13:00 on 2026-02-20, and no room for 12:00-13:00 |
| RoomsController.SeededAvailability | BorrowdungAPI/Controllers/RoomsController.cs:58-71 | on the seed, the 11:00-13:00 window lists rooms 2 and 3 only |
| RoomsController.SeededTouchingWindow | BorrowdungAPI/Controllers/RoomsController.cs:58-71 | on the seed, the touching window 12:00-13:00 lists every room |
| RoomController.MatchingRooms | BorrowdungAPI/Controllers/RoomController.cs:30-50 | the unpaged list holds exactly the live rooms matching the `IsNullOrWhiteSpace`-guarded search and status, in ordinal name order, counted |
| RoomController.GetRooms | BorrowdungAPI/Controllers/RoomController.cs:30-53 | items match and ascend by name; the total is counted before paging; with sensible arguments the items are the page's window |
| RoomController.GetRoom | BorrowdungAPI/Controllers/RoomController.cs:73-82 | a live room is returned exactly when it exists undeleted, with exactly its live bookings attached |
| RoomController.CreateRoom | BorrowdungAPI/Controllers/RoomController.cs:101-114 | a room with the request's fields, CreatedAt now and no DeletedAt is added under the next key |
| RoomController.ApplyRoomUpdate | BorrowdungAPI/Controllers/RoomController.cs:135-139 | a partial update never touches id or the time stamps |
| RoomController.EmptyRoomUpdateIsIdentity | BorrowdungAPI/Controllers/RoomController.cs:135-139 | a request with every field null changes nothing |
| RoomController.RoomUpdateIsIdempotent | BorrowdungAPI/Controllers/RoomController.cs:135-139 | applying the same partial update twice equals applying it once |
| RoomController.UpdateKeepsCapacityRange | BorrowdungAPI/Models/DTOs/Room/UpdateRoomRequest.cs:13 | an accepted update leaves the capacity within 1..1000 when it was, or when the request sets it |
| RoomController.UpdateRoom | BorrowdungAPI/Controllers/RoomController.cs:128-145 | a capacity outside 1..1000 is refused first, then NotFound; otherwise only the supplied fields and UpdatedAt change; on failure nothing changes |
| RoomController.DeleteRoom | BorrowdungAPI/Controllers/RoomController.cs:159-170 | a live room gets DeletedAt and is no longer live; anything else is NotFound with nothing changed |
| RoomController.CreateThenDeleteTwice | BorrowdungAPI/Controllers/RoomController.cs:159-167 | create, delete, delete again gives Created(1), Ok, NotFound, and GetRoom then finds nothing |
| UserController.CreateUser | BorrowdungAPI/Controllers/UserController.cs:125-183 | a live username clash is refused first, then a live e-mail clash; otherwise one account storing the hash of the password is added under the next id; `UniqueLive` is kept |
| UserController.DeletedNamesAreFree | BorrowdungAPI/Controllers/UserController.cs:131-140 | a username and e-mail held only by deleted users pass both checks |
| UserController.Edited | BorrowdungAPI/Controllers/UserController.cs:208-211 | only Email, FullName, PhoneNumber and UpdatedAt change; username, password, role, CreatedAt and DeletedAt stay |
| UserController.UpdateUser | BorrowdungAPI/Controllers/UserController.cs:187-222 | NotFound, then an e-mail held by another live user, are refused; otherwise the account is edited; `UniqueLive` is kept |
| UserController.OwnEmailIsNotTaken | BorrowdungAPI/Controllers/UserController.cs:201 | a user resubmitting their own e-mail never trips the check |
| UserController.DeleteUser | BorrowdungAPI/Controllers/UserController.cs:226-256 | NotFound, then self-deletion, are refused; otherwise only DeletedAt is set; the caller's own account stays live; `UniqueLive` is kept |
| UserController.ResponseHidesPassword | BorrowdungAPI/Controllers/UserController.cs:62-72 | the response projection does not depend on the password and carries the role's name |
| UserController.ParseRole | BorrowdungAPI/Controllers/UserController.cs:49 | a role is parsed exactly when the trimmed text equals a role name ignoring ASCII case |
| UserController.ParseRoleName | BorrowdungAPI/Controllers/UserController.cs:49 | a role's name, as written or in lower case, parses back to that role |
| UserController.MatchingUsers | BorrowdungAPI/Controllers/UserController.cs:35-59 | the unpaged list holds exactly the live users matching search and parsed role, in ordinal username order, counted |
| UserController.GetAllUsers | BorrowdungAPI/Controllers/UserController.cs:35-73 | items are projections of matching users in username order; the total is counted before paging; with sensible arguments the items are the projected page window |
| UserController.GetUser | BorrowdungAPI/Controllers/UserController.cs:94-114 | a user is returned exactly when live, as the projection of the stored row |
| UserController.DuplicateSignups | BorrowdungAPI/Controllers/UserController.cs:130-145 | a second "budi" and a new name with budi's e-mail are refused; a fresh name and e-mail are admitted |
| UserController.DeleteAndReuse | BorrowdungAPI/Controllers/UserController.cs:239-246 | an admin cannot delete themselves; after another admin deletes the account, its username can be registered again |

## Left out

- Async EF Core plumbing is not modelled: `SaveChangesAsync`, `Include`, `Reference().LoadAsync` and query translation. The tables are maps, and a write either happens whole or not at all.
- Response bodies and headers (`X-Total-Count`, `X-Page`, `X-Page-Size`) are not modelled. A paged listing returns its items and the count, and actions return an `Outcome`.
- The catch-all `catch (Exception)` 500 paths are not modelled, apart from the two failures the model can name: the foreign key in BookingsController.UpdateBooking and the primary key in RoomsController.CreateRoom.
- Concurrency is out of scope: every action runs alone. This includes the race between two overlapping approvals, which the database's transactions would have to settle. `FirstApprovalWins` shows the sequential outcome.
- `DbUpdateConcurrencyException` handling and `RoomsController.RoomExists` (BorrowdungAPI/Controllers/RoomsController.cs:160-163) are not modelled. They are reached only when a concurrent writer changes the row during the save.
- The DataAnnotations validators are not modelled: `Required`, `MaxLength`, `MinLength`, `EmailAddress` and the `ModelState` checks. The one exception is the `Range(1, 1000)` capacity bound of UpdateRoomRequest.
- Authorization (`[Authorize(Roles = "Admin")]`) is not modelled. It is applied before an action runs.
- DeleteUser takes the caller's id as an integer (`currentUserId`). Reading the claim, and the 500 raised when the claim is not a number, are not modelled.
- UserController.CreateUser: BCrypt hashing is a function parameter `hash`. Its salting and randomness are not modelled.
- UserController.ParseRole: only role names are parsed. `Enum.TryParse` also accepts numeric and comma-separated forms, which are not modelled.
- Case-insensitive comparison covers ASCII letters only. Full Unicode case folding is not modelled.
- ApplicationDbContext's unique indexes on `Username` and `Email`, and its seeded admin user, are not modelled. They belong to a schema that does not match the controllers; see above.
- `BookingsController.GetBooking` is the same lookup as `BookingController.GetBooking` and is modelled once.
- CreateRoomRequest.cs is not part of this model. Its fields are taken from the property names RoomController.CreateRoom reads.
- Times are whole seconds in UTC. `DateTime`'s sub-second precision and its `Kind` are not modelled.
- AuthController, Program.cs and the JWT service are outside the modelled controllers.
- RoomsController.CreateRoom: the `Room` body's `Bookings` navigation collection is not modelled. EF Core's `Add` would insert any bookings nested in the body together with the room, with no room, range or overlap check. That path can break `LiveDisjoint` and `ApprovedDisjoint`, and the model does not cover it.
- Linq.Query: rows with equal sort keys (`CreatedAt`, `StartTime`, `Name`, `Username`) come out in ascending id order, because the scan runs in key order and the insertion sort is stable. SQL `ORDER BY` leaves the order of such ties unspecified, so the page-window equations of the paged listings hold for this one tie order only.
- Linq.LowPageIsFirstPage: proved only when `(page - 1) * pageSize` fits in a 32-bit `int`. Below that bound the offset wraps to an arbitrary value, which `PageIsSlice` and `PageOffsetWraps` cover instead.
- Linq.NegativePageSizeIsUnlimited: the offset is stated only when `(page - 1) * pageSize` fits in a 32-bit `int`. Beyond that the offset wraps, and `PageIsSlice` covers it instead.
