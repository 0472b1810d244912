/** The two input records the allocator consumes (Student.java and Room.java). */
module Records {
  import opened JavaLang

  /** One row of the student sheet. `className` is carried but never used by the allocator. */
  datatype Student = Student(rollNumber: string, name: string, className: string)

  /**
   * One row of the room sheet. The fields are Java `int`s; `totalCapacity` is
   * informational and never checked against the grid dimensions.
   */
  datatype Room = Room(roomNumber: string, totalCapacity: int32, rows: int32, columns: int32,
                       studentsPerSeat: int32)

  /**
   * `Room.calculateTotalSeats`: `rows * columns * studentsPerSeat` in `int`
   * arithmetic, which is the true product whenever that product fits in an `int`.
   */
  function TotalSeats(room: Room): (seats: int32)
    ensures room.rows >= 0 && room.columns >= 0 && room.studentsPerSeat >= 0 &&
            room.rows as int * room.columns as int * room.studentsPerSeat as int < 0x8000_0000 ==>
              seats as int == room.rows as int * room.columns as int * room.studentsPerSeat as int
  {
    var rc := room.rows as int * room.columns as int;
    assert room.studentsPerSeat >= 1 && rc >= 0 ==> rc <= rc * room.studentsPerSeat as int;
    MulInt(MulInt(room.rows, room.columns), room.studentsPerSeat)
  }
}
