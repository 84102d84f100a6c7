/**
 * The rows the initial migration inserts: three rooms and two bookings,
 * times in epoch seconds (UTC).
 */
module Seed {
  import opened Wrappers
  import opened Entities
  import opened Data

  const Feb17: Instant := 1771286400        // 2026-02-17 00:00
  const Feb17At1: Instant := 1771290000     // 2026-02-17 01:00
  const Feb17At2: Instant := 1771293600     // 2026-02-17 02:00
  const Feb20At9: Instant := 1771578000     // 2026-02-20 09:00
  const Feb20At11: Instant := 1771585200    // 2026-02-20 11:00
  const Feb20At12: Instant := 1771588800    // 2026-02-20 12:00
  const Feb20At13: Instant := 1771592400    // 2026-02-20 13:00
  const Feb21At13: Instant := 1771678800    // 2026-02-21 13:00
  const Feb21At15: Instant := 1771686000    // 2026-02-21 15:00

  function SeedRooms(): map<int, Room> {
    map[
      1 := Room(1, "Ruang Seminar A", "Gedung A Lantai 1", 100,
                Some("Ruang seminar besar dengan proyektor dan sound system"), "Tersedia", Feb17, None, None),
      2 := Room(2, "Ruang Rapat B", "Gedung B Lantai 2", 30,
                Some("Ruang rapat dengan AC dan whiteboard"), "Tersedia", Feb17, None, None),
      3 := Room(3, "Lab Komputer 1", "Gedung C Lantai 3", 40,
                Some("Laboratorium komputer dengan 40 unit PC"), "Tersedia", Feb17, None, None)
    ]
  }

  lemma SeedRoomsValues(x: Room)
    ensures x in SeedRooms().Values <==> x == SeedRooms()[1] || x == SeedRooms()[2] || x == SeedRooms()[3]
    ensures forall k :: k in SeedRooms() ==> SeedRooms()[k].id == k && SeedRooms()[k].IsLive()
  {
    var m := SeedRooms();
    assert m.Keys == {1, 2, 3};
    if x in m.Values {
      var k :| k in m && m[k] == x;
    }
  }

  /** Booking 1 is stored with status 1 (Approved), booking 2 with status 0 (Pending). */
  function SeedBookings(): map<int, Booking> {
    map[
      1 := Booking(1, 1, "Budi Santoso", "budi@pens.ac.id", Some("081234567890"), "Seminar Teknologi Informasi",
                   Feb20At9, Feb20At12, Approved, None, Feb17At1, None, None),
      2 := Booking(2, 2, "Siti Nurhaliza", "siti@pens.ac.id", Some("081234567891"), "Rapat koordinasi proyek",
                   Feb21At13, Feb21At15, Pending, None, Feb17At2, None, None)
    ]
  }

  /** A database holding the seed rows; keys continue after the highest seeded id. */
  method Seeded() returns (db: Db)
    ensures fresh(db) && db.Valid()
    ensures db.rooms == SeedRooms() && db.bookings == SeedBookings() && db.users == map[]
    ensures db.nextRoomId == 4 && db.nextBookingId == 3 && db.nextUserId == 1
  {
    db := new Db();
    db.rooms := SeedRooms();
    db.bookings := SeedBookings();
    db.nextRoomId := 4;
    db.nextBookingId := 3;
  }
}
