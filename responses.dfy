/** The outcomes a controller action reports, in place of `IActionResult`. */
module Responses {

  /** Why a request was answered with 400 Bad Request. */
  datatype Reason =
    | RoomNotFound      // "Room not found"
    | InvalidRange      // "End time must be after start time"
    | SlotTaken         // "Room is already booked for this time period"
    | NotPending        // "Can only update pending bookings"
    | MissingReason     // "Rejection reason is required"
    | IdMismatch        // route id differs from the body's id
    | InvalidModel      // a data-annotation check on the request body failed
    | UsernameTaken     // "Username sudah terdaftar"
    | EmailTaken        // "Email sudah terdaftar"
    | SelfDelete        // "Tidak dapat menghapus akun sendiri"

  datatype Outcome =
    | Created(id: int)      // 201 with the new row
    | Ok                    // 200
    | NoContent             // 204
    | NotFound              // 404
    | BadRequest(reason: Reason)
    | ServerError           // an exception from SaveChanges that the action does not catch
}
