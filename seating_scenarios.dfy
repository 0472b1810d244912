/** Small worked allocations, each pinned down completely. */
module SeatingScenarios {
  import opened Wrappers
  import opened JavaLang
  import opened Records
  import opened SeatLabels
  import opened LinkedMap
  import opened SeatingLogic

  /** The labels these scenarios use. */
  lemma SmallLabels()
    ensures SeatLabel(0, 0, 1) == "SeatR1C1"
    ensures SeatLabel(0, 1, 1) == "SeatR1C2"
    ensures SeatLabel(0, 1, 2) == "SeatR1C1"
  {
    assert IntToString(1) == "1" && IntToString(2) == "2";
    assert JavaDiv(0, 1) == 0 && JavaDiv(1, 1) == 1 && JavaDiv(1, 2) == 0;
  }

  /**
   * When the first room has a single row and either is the only room or has
   * room for everyone, the map holds that room alone, with that one row.
   */
  lemma FirstRowOnly(students: seq<Student>, rooms: seq<Room>, displayType: string)
    requires |rooms| >= 1 && rooms[0].rows == 1
    requires |rooms| == 1 || |students| <= Clip(SlotsPerRow(rooms[0]) as int)
    ensures Allocation(students, rooms, displayType) ==
              [(rooms[0].roomNumber, [SeatRow(students, 0, rooms[0], 0, displayType)])]
    ensures Seated(|students|, rooms) == Min(|students|, Clip(SlotsPerRow(rooms[0]) as int))
  {
    var n, room := |students|, rooms[0];
    assert Capacity(room) == Clip(SlotsPerRow(room) as int);
    assert Cursor(n, rooms, 1) == Min(n, Capacity(room));
    assert RoomsUsed(n, rooms) == 1;
    var g := RoomGrid(students, 0, room, displayType);
    assert RowStart(n, 0, room, 0) == 0;
    assert g == [SeatRow(students, 0, room, 0, displayType)];
    var es := Entries(students, rooms, displayType, 1);
    assert es == [(room.roomNumber, g)];
    assert es[..0] == [];
    assert Build(es) == Put([], room.roomNumber, g) == [(room.roomNumber, g)];
  }

  /** The two cells of the three-student scenario. */
  lemma RollNumberCells()
    ensures SeatContent(0, 0, 1, Student("3", "A", "X"), ROLL_NUMBER) == "SeatR1C1\nRoll No: 3"
    ensures SeatContent(0, 1, 1, Student("1", "B", "X"), ROLL_NUMBER) == "SeatR1C2\nRoll No: 1"
  {
    SmallLabels();
  }

  /** The one row the three-student scenario fills. */
  lemma RollNumberRow()
    ensures SeatRow([Student("3", "A", "X"), Student("1", "B", "X"), Student("2", "C", "X")], 0,
                    Room("101", 2, 1, 2, 1), 0, ROLL_NUMBER) == ["SeatR1C1\nRoll No: 3", "SeatR1C2\nRoll No: 1"]
  {
    var students := [Student("3", "A", "X"), Student("1", "B", "X"), Student("2", "C", "X")];
    var room := Room("101", 2, 1, 2, 1);
    var row := SeatRow(students, 0, room, 0, ROLL_NUMBER);
    assert SlotsPerRow(room) == 2;
    assert row == [SeatContent(0, 0, 1, students[0], ROLL_NUMBER), SeatContent(0, 1, 1, students[1], ROLL_NUMBER)];
    RollNumberCells();
  }

  /**
   * Three students and one room of two single seats, seated in the order given:
   * the first two get the seats and one is left over.
   */
  lemma ThreeStudentsTwoSeats()
    ensures var students := [Student("3", "A", "X"), Student("1", "B", "X"), Student("2", "C", "X")];
            var rooms := [Room("101", 2, 1, 2, 1)];
            Allocation(students, rooms, ROLL_NUMBER) == [("101", [["SeatR1C1\nRoll No: 3", "SeatR1C2\nRoll No: 1"]])] &&
            Unseated(|students|, rooms) == Some(1)
  {
    var students := [Student("3", "A", "X"), Student("1", "B", "X"), Student("2", "C", "X")];
    var rooms := [Room("101", 2, 1, 2, 1)];
    assert SlotsPerRow(rooms[0]) == 2;
    FirstRowOnly(students, rooms, ROLL_NUMBER);
    RollNumberRow();
  }

  /** The cell of the single-student scenario. */
  lemma NameCell()
    ensures SeatContent(0, 0, 1, Student("7", "Ann", "X"), NAME) == "SeatR1C1\nName: Ann"
  {
    SmallLabels();
  }

  /** The one row the single-student scenario fills. */
  lemma NameRow()
    ensures SeatRow([Student("7", "Ann", "X")], 0, Room("A", 1, 1, 1, 1), 0, NAME) == ["SeatR1C1\nName: Ann"]
  {
    var students := [Student("7", "Ann", "X")];
    var room := Room("A", 1, 1, 1, 1);
    var row := SeatRow(students, 0, room, 0, NAME);
    assert SlotsPerRow(room) == 1;
    assert row == [SeatContent(0, 0, 1, students[0], NAME)];
    NameCell();
  }

  /**
   * One student and two rooms: the student fits in the first room, so the
   * second room does not appear at all.
   */
  lemma FirstRoomSuffices()
    ensures var students := [Student("7", "Ann", "X")];
            var rooms := [Room("A", 1, 1, 1, 1), Room("B", 5, 1, 5, 1)];
            Allocation(students, rooms, NAME) == [("A", [["SeatR1C1\nName: Ann"]])] &&
            Unseated(|students|, rooms) == None
  {
    var students := [Student("7", "Ann", "X")];
    var rooms := [Room("A", 1, 1, 1, 1), Room("B", 5, 1, 5, 1)];
    assert SlotsPerRow(rooms[0]) == 1;
    FirstRowOnly(students, rooms, NAME);
    NameRow();
  }

  /** The two cells of the shared-bench scenario. */
  lemma BenchCells()
    ensures SeatContent(0, 0, 2, Student("1", "P", "X"), NAME) == "SeatR1C1\nName: P"
    ensures SeatContent(0, 1, 2, Student("2", "Q", "X"), NAME) == "SeatR1C1\nName: Q"
  {
    SmallLabels();
  }

  /** The one row of the shared-bench scenario. */
  lemma BenchRow()
    ensures SeatRow([Student("1", "P", "X"), Student("2", "Q", "X")], 0, Room("R", 2, 1, 1, 2), 0, NAME) ==
              ["SeatR1C1\nName: P", "SeatR1C1\nName: Q"]
  {
    var students := [Student("1", "P", "X"), Student("2", "Q", "X")];
    var room := Room("R", 2, 1, 1, 2);
    var row := SeatRow(students, 0, room, 0, NAME);
    assert SlotsPerRow(room) == 2;
    assert row == [SeatContent(0, 0, 2, students[0], NAME), SeatContent(0, 1, 2, students[1], NAME)];
    BenchCells();
  }

  /** Two students on one bench of two: both slots carry the label of seat 1. */
  lemma SharedBench()
    ensures var students := [Student("1", "P", "X"), Student("2", "Q", "X")];
            var rooms := [Room("R", 2, 1, 1, 2)];
            Allocation(students, rooms, NAME) == [("R", [["SeatR1C1\nName: P", "SeatR1C1\nName: Q"]])]
  {
    var students := [Student("1", "P", "X"), Student("2", "Q", "X")];
    var rooms := [Room("R", 2, 1, 1, 2)];
    assert SlotsPerRow(rooms[0]) == 2;
    FirstRowOnly(students, rooms, NAME);
    BenchRow();
  }
}
