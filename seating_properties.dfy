/** What the allocator's result is guaranteed to look like. */
module SeatingProperties {
  import opened Wrappers
  import opened JavaLang
  import opened Records
  import opened SeatLabels
  import opened LinkedMap
  import opened SeatingLogic

  function RoomNumbers(rooms: seq<Room>): seq<string>
  {
    seq(|rooms|, i requires 0 <= i < |rooms| => rooms[i].roomNumber)
  }

  /** The sum of `Capacity` over `rooms`. */
  function TotalCapacity(rooms: seq<Room>): nat
  {
    if rooms == [] then 0 else TotalCapacity(rooms[..|rooms| - 1]) + Capacity(rooms[|rooms| - 1])
  }

  /** The cells of a grid, row by row. */
  function Flatten(g: Grid): seq<string>
  {
    if g == [] then [] else Flatten(g[..|g| - 1]) + g[|g| - 1]
  }

  /** The cells of a whole result, room by room, then row by row. */
  function AllCells(m: Layout): seq<string>
  {
    if m == [] then [] else AllCells(m[..|m| - 1]) + Flatten(m[|m| - 1].1)
  }

  // ----- Which rooms appear -----

  /**
   * The keys of the result are the room numbers of a prefix of `rooms`, a
   * repeated number kept at its first position. The prefix is non-empty when
   * there are rooms.
   */
  lemma AllocationKeys(students: seq<Student>, rooms: seq<Room>, displayType: string)
    ensures RoomsUsed(|students|, rooms) <= |rooms|
    ensures Keys(Allocation(students, rooms, displayType)) ==
              Dedup(RoomNumbers(rooms[..RoomsUsed(|students|, rooms)]))
    ensures rooms != [] ==> RoomsUsed(|students|, rooms) >= 1
  {
    var m := RoomsUsed(|students|, rooms);
    if rooms != [] {
      UsedFromBounds(|students|, rooms, 0);
    }
    var es := Entries(students, rooms, displayType, m);
    BuildKeys(es);
    EntriesKeys(students, rooms, displayType, m);
  }

  /** The keys of the first `k` entries are the numbers of the first `k` rooms. */
  lemma EntriesKeys(students: seq<Student>, rooms: seq<Room>, displayType: string, k: nat)
    requires k <= |rooms|
    ensures Keys(Entries(students, rooms, displayType, k)) == RoomNumbers(rooms[..k])
  {
  }

  /**
   * The prefix of rooms used ends at the first room after which no student is
   * left: every earlier room left some, and when rooms remain unused the
   * students have all been seated.
   */
  lemma RoomsUsedStops(n: nat, rooms: seq<Room>)
    ensures forall j :: 1 <= j < RoomsUsed(n, rooms) ==> Cursor(n, rooms, j) < n
    ensures RoomsUsed(n, rooms) < |rooms| ==> Cursor(n, rooms, RoomsUsed(n, rooms)) == n
  {
    UsedFromBounds(n, rooms, 0);
  }

  /**
   * When a room number repeats, looking it up in the result gives the grid of
   * the last room with that number the allocator processed.
   */
  lemma AllocationGet(students: seq<Student>, rooms: seq<Room>, displayType: string, roomNumber: string)
    ensures Get(Allocation(students, rooms, displayType), roomNumber) ==
              LastValue(Entries(students, rooms, displayType, RoomsUsed(|students|, rooms)), roomNumber)
  {
    BuildGet(Entries(students, rooms, displayType, RoomsUsed(|students|, rooms)), roomNumber);
  }

  /** With no students, the result holds the first room only, every row of it empty, and nothing is unseated. */
  lemma NoStudents(rooms: seq<Room>, displayType: string)
    requires rooms != []
    ensures Allocation([], rooms, displayType) ==
              [(rooms[0].roomNumber, seq(Clip(rooms[0].rows as int), r => []))]
    ensures Unseated(0, rooms) == None
  {
    assert RoomsUsed(0, rooms) == 1;
    var g := RoomGrid([], 0, rooms[0], displayType);
    forall r | 0 <= r < |g| ensures g[r] == [] {
    }
    assert g == seq(Clip(rooms[0].rows as int), r => []);
    var es := Entries([], rooms, displayType, 1);
    assert es == [(rooms[0].roomNumber, g)];
    assert es[..0] == [];
    assert Build(es) == Put([], rooms[0].roomNumber, g);
  }

  lemma BuiltEntries(students: seq<Student>, rooms: seq<Room>, displayType: string, m: nat, i: nat)
    requires m <= |rooms|
    requires i < |Build(Entries(students, rooms, displayType, m))|
    ensures exists j :: 0 <= j < m && Build(Entries(students, rooms, displayType, m))[i] ==
              (rooms[j].roomNumber, RoomGrid(students, Cursor(|students|, rooms, j), rooms[j], displayType))
  {
    var es := Entries(students, rooms, displayType, m);
    BuildEntries(es);
    var e := Build(es)[i];
    assert e in es;
    var j :| 0 <= j < |es| && es[j] == e;
    assert e == (rooms[j].roomNumber, RoomGrid(students, Cursor(|students|, rooms, j), rooms[j], displayType));
  }

  /** Every entry of the result is the grid of one of the rooms processed, under that room's number. */
  lemma AllocationEntries(students: seq<Student>, rooms: seq<Room>, displayType: string, i: nat)
    requires i < |Allocation(students, rooms, displayType)|
    ensures exists j :: 0 <= j < RoomsUsed(|students|, rooms) &&
              Allocation(students, rooms, displayType)[i] ==
                (rooms[j].roomNumber, RoomGrid(students, Cursor(|students|, rooms, j), rooms[j], displayType))
  {
    var m := RoomsUsed(|students|, rooms);
    UsedFromBounds(|students|, rooms, 0);
    assert Allocation(students, rooms, displayType) == Build(Entries(students, rooms, displayType, m));
    BuiltEntries(students, rooms, displayType, m, i);
  }

  // ----- The shape of one room -----

  lemma RowLength(students: seq<Student>, start: nat, room: Room, displayType: string, r: nat)
    requires start <= |students| && r < Clip(room.rows as int)
    ensures |RoomGrid(students, start, room, displayType)| == Clip(room.rows as int)
    ensures |RoomGrid(students, start, room, displayType)[r]| ==
              Min(Clip(SlotsPerRow(room) as int), |students| - RowStart(|students|, start, room, r))
  {
  }

  /**
   * `SlotsPerRow` never exceeds `columns * studentsPerSeat`, and is that product
   * whenever it fits in an `int`.
   */
  lemma SlotsPerRowBound(room: Room)
    ensures room.columns >= 0 && room.studentsPerSeat >= 1 ==>
              Clip(SlotsPerRow(room) as int) <= room.columns as int * room.studentsPerSeat as int
    ensures room.columns >= 0 && room.studentsPerSeat >= 1 &&
            room.columns as int * room.studentsPerSeat as int < 0x8000_0000 ==>
              SlotsPerRow(room) as int == room.columns as int * room.studentsPerSeat as int
  {
    var p := room.columns as int * room.studentsPerSeat as int;
    assert room.columns >= 0 && room.studentsPerSeat >= 1 ==> p >= 0;
  }

  /**
   * A room's grid has exactly `rows` rows (none when `rows` is negative), each
   * with at most `SlotsPerRow` cells.
   */
  lemma RoomGridShape(students: seq<Student>, start: nat, room: Room, displayType: string)
    requires start <= |students|
    ensures |RoomGrid(students, start, room, displayType)| == Clip(room.rows as int)
    ensures forall r :: 0 <= r < Clip(room.rows as int) ==>
              |RoomGrid(students, start, room, displayType)[r]| <= Clip(SlotsPerRow(room) as int)
  {
    var g := RoomGrid(students, start, room, displayType);
    forall r | 0 <= r < Clip(room.rows as int)
      ensures |g[r]| <= Clip(SlotsPerRow(room) as int)
    {
      RowLength(students, start, room, displayType, r);
    }
  }

  /** Once the students have run out, every later row starts at the end. */
  lemma RowStartExhausted(n: nat, start: nat, room: Room, r: nat, r': nat)
    requires start <= n && r <= r'
    requires RowStart(n, start, room, r) == n
    ensures RowStart(n, start, room, r') == n
  {
    MulMonotone(r, r', Clip(SlotsPerRow(room) as int));
  }

  /** A row is short only when the students have run out, and every row after a short one is empty. */
  lemma ShortRowsLast(students: seq<Student>, start: nat, room: Room, displayType: string, r: nat)
    requires start <= |students| && r < Clip(room.rows as int)
    requires |RoomGrid(students, start, room, displayType)[r]| < Clip(SlotsPerRow(room) as int)
    ensures RowStart(|students|, start, room, r) + |RoomGrid(students, start, room, displayType)[r]| == |students|
    ensures forall r' :: r < r' < Clip(room.rows as int) ==> RoomGrid(students, start, room, displayType)[r'] == []
  {
    var n, g := |students|, RoomGrid(students, start, room, displayType);
    RowLength(students, start, room, displayType, r);
    RowStep(students, start, room, r, displayType);
    assert RowStart(n, start, room, r + 1) == n;
    forall r' | r < r' < Clip(room.rows as int)
      ensures g[r'] == []
    {
      RowStartExhausted(n, start, room, r + 1, r');
      EmptyRow(students, start, room, displayType, r');
    }
  }

  /** A row entered after the students have run out is empty. */
  lemma EmptyRow(students: seq<Student>, start: nat, room: Room, displayType: string, r: nat)
    requires start <= |students| && r < Clip(room.rows as int)
    requires RowStart(|students|, start, room, r) == |students|
    ensures RoomGrid(students, start, room, displayType)[r] == []
  {
    RowLength(students, start, room, displayType, r);
  }

  /**
   * The cell in row `r`, slot `c` of a room's grid is the seat cell of that row
   * and slot for the student the cursor had reached; `SeatContentReadsBack`
   * says what such a cell reads as.
   */
  lemma RoomGridCells(students: seq<Student>, start: nat, room: Room, displayType: string, r: nat, c: nat)
    requires start <= |students|
    requires r < |RoomGrid(students, start, room, displayType)|
    requires c < |RoomGrid(students, start, room, displayType)[r]|
    ensures room.studentsPerSeat != 0
    ensures RowStart(|students|, start, room, r) + c < |students|
    ensures RoomGrid(students, start, room, displayType)[r][c] ==
              SeatContent(r, c, room.studentsPerSeat as int, students[RowStart(|students|, start, room, r) + c], displayType)
  {
    SeatRowAt(students, RowStart(|students|, start, room, r), room, r, displayType, c);
  }

  /**
   * Under the preconditions the room records are meant to meet, no row is longer
   * than `columns * studentsPerSeat`.
   */
  lemma RowAtMostColumnsTimesSeats(students: seq<Student>, start: nat, room: Room, displayType: string, r: nat)
    requires start <= |students| && r < Clip(room.rows as int)
    requires room.columns >= 0 && room.studentsPerSeat >= 1
    ensures |RoomGrid(students, start, room, displayType)[r]| <= room.columns as int * room.studentsPerSeat as int
  {
    RowLength(students, start, room, displayType, r);
    SlotsPerRowBound(room);
  }

  // ----- Every student seated once, in order -----

  /** What each cell shows about its student. */
  function Occupants(cells: seq<string>): seq<string>
  {
    seq(|cells|, i requires 0 <= i < |cells| => Occupant(cells[i]))
  }

  /** What a cell shows for each of `students`. */
  function Shown(students: seq<Student>, displayType: string): seq<string>
  {
    seq(|students|, i requires 0 <= i < |students| => DisplayText(students[i], displayType))
  }

  lemma OccupantsAppend(a: seq<string>, b: seq<string>)
    ensures Occupants(a + b) == Occupants(a) + Occupants(b)
  {
  }

  lemma ShownSplit(students: seq<Student>, i: nat, j: nat, k: nat, displayType: string)
    requires i <= j <= k <= |students|
    ensures Shown(students[i..k], displayType) == Shown(students[i..j], displayType) + Shown(students[j..k], displayType)
  {
  }

  /** A row entered with the cursor at `a` shows the students from `a` on, in order. */
  lemma SeatRowOccupants(students: seq<Student>, a: nat, room: Room, r: nat, displayType: string)
    requires a <= |students|
    ensures a + |SeatRow(students, a, room, r, displayType)| <= |students|
    ensures Occupants(SeatRow(students, a, room, r, displayType)) ==
              Shown(students[a..a + |SeatRow(students, a, room, r, displayType)|], displayType)
  {
    var row := SeatRow(students, a, room, r, displayType);
    var shown := Shown(students[a..a + |row|], displayType);
    forall c | 0 <= c < |row|
      ensures Occupant(row[c]) == shown[c]
    {
      SeatRowOccupant(students, a, room, r, displayType, c);
      ShownAt(students, a, a + |row|, c, displayType);
    }
    OccupantsMatch(row, shown);
  }

  /** Slot `c` of a row entered with the cursor at `a` shows student `a + c`. */
  lemma SeatRowOccupant(students: seq<Student>, a: nat, room: Room, r: nat, displayType: string, c: nat)
    requires a <= |students| && c < |SeatRow(students, a, room, r, displayType)|
    ensures a + c < |students|
    ensures Occupant(SeatRow(students, a, room, r, displayType)[c]) == DisplayText(students[a + c], displayType)
  {
    SeatRowAt(students, a, room, r, displayType, c);
    SeatContentSplits(r, c, room.studentsPerSeat as int, students[a + c], displayType);
  }

  lemma ShownAt(students: seq<Student>, i: nat, j: nat, c: nat, displayType: string)
    requires i <= j <= |students| && c < j - i
    ensures Shown(students[i..j], displayType)[c] == DisplayText(students[i + c], displayType)
  {
  }

  lemma OccupantsMatch(cells: seq<string>, shown: seq<string>)
    requires |cells| == |shown|
    requires forall c :: 0 <= c < |cells| ==> Occupant(cells[c]) == shown[c]
    ensures Occupants(cells) == shown
  {
  }

  /** Row `r` shows the students from `RowStart(r)` to `RowStart(r + 1)`, in order. */
  lemma RowOccupants(students: seq<Student>, start: nat, room: Room, displayType: string, r: nat)
    requires start <= |students| && r < Clip(room.rows as int)
    ensures Occupants(RoomGrid(students, start, room, displayType)[r]) ==
              Shown(students[RowStart(|students|, start, room, r)..RowStart(|students|, start, room, r + 1)], displayType)
  {
    var a := RowStart(|students|, start, room, r);
    RowStep(students, start, room, r, displayType);
    SeatRowOccupants(students, a, room, r, displayType);
  }

  /** The first `r` rows of a room show, in order, the students the cursor passed over in them. */
  lemma {:induction false} FlattenRows(students: seq<Student>, start: nat, room: Room, displayType: string, r: nat)
    requires start <= |students| && r <= Clip(room.rows as int)
    ensures Occupants(Flatten(RoomGrid(students, start, room, displayType)[..r])) ==
              Shown(students[start..RowStart(|students|, start, room, r)], displayType)
  {
    var n, g := |students|, RoomGrid(students, start, room, displayType);
    if r == 0 {
      assert g[..0] == [];
    } else {
      var a, b := RowStart(n, start, room, r - 1), RowStart(n, start, room, r);
      FlattenRows(students, start, room, displayType, r - 1);
      assert g[..r][..r - 1] == g[..r - 1];
      RowOccupants(students, start, room, displayType, r - 1);
      RowStep(students, start, room, r - 1, displayType);
      ShownSplit(students, start, a, b, displayType);
      assert Flatten(g[..r]) == Flatten(g[..r - 1]) + g[r - 1];
      OccupantsAppend(Flatten(g[..r - 1]), g[r - 1]);
    }
  }

  /** A room's cells show, in order, the students from the cursor on, as many as it can take. */
  lemma FlattenRoomGrid(students: seq<Student>, start: nat, room: Room, displayType: string)
    requires start <= |students|
    ensures Occupants(Flatten(RoomGrid(students, start, room, displayType))) ==
              Shown(students[start..RoomEnd(|students|, start, room)], displayType)
  {
    var g := RoomGrid(students, start, room, displayType);
    FlattenRows(students, start, room, displayType, Clip(room.rows as int));
    assert g[..Clip(room.rows as int)] == g;
  }

  /** The cells of the first `k` entries show the students before `Cursor(k)`, in order. */
  lemma {:induction false} EntriesCells(students: seq<Student>, rooms: seq<Room>, displayType: string, k: nat)
    requires k <= |rooms|
    ensures Occupants(AllCells(Entries(students, rooms, displayType, k))) ==
              Shown(students[..Cursor(|students|, rooms, k)], displayType)
  {
    var n, es := |students|, Entries(students, rooms, displayType, k);
    if k == 0 {
      assert es == [];
    } else {
      var start, end := Cursor(n, rooms, k - 1), Cursor(n, rooms, k);
      var prev := Entries(students, rooms, displayType, k - 1);
      var g := RoomGrid(students, start, rooms[k - 1], displayType);
      assert es == prev + [(rooms[k - 1].roomNumber, g)];
      assert es[..k - 1] == prev;
      assert end == RoomEnd(n, start, rooms[k - 1]);
      EntriesCells(students, rooms, displayType, k - 1);
      FlattenRoomGrid(students, start, rooms[k - 1], displayType);
      ShownSplit(students, 0, start, end, displayType);
      assert students[0..start] == students[..start];
      assert students[0..end] == students[..end];
      calc {
        Occupants(AllCells(es));
        Occupants(AllCells(prev) + Flatten(g));
        { OccupantsAppend(AllCells(prev), Flatten(g)); }
        Occupants(AllCells(prev)) + Occupants(Flatten(g));
        Shown(students[..start], displayType) + Shown(students[start..end], displayType);
        Shown(students[..end], displayType);
      }
    }
  }

  lemma DistinctPrefix(ks: seq<string>, m: nat)
    requires Distinct(ks) && m <= |ks|
    ensures Distinct(ks[..m])
  {
  }

  /**
   * With distinct room numbers, the result is the entries themselves, and its
   * cells, room by room and row by row, show the first `Seated` students, each
   * once and in order.
   */
  lemma SeatedCells(students: seq<Student>, rooms: seq<Room>, displayType: string)
    requires Distinct(RoomNumbers(rooms))
    ensures Allocation(students, rooms, displayType) ==
              Entries(students, rooms, displayType, RoomsUsed(|students|, rooms))
    ensures |AllCells(Allocation(students, rooms, displayType))| == Seated(|students|, rooms)
    ensures Occupants(AllCells(Allocation(students, rooms, displayType))) ==
              Shown(students[..Seated(|students|, rooms)], displayType)
  {
    var m := RoomsUsed(|students|, rooms);
    var es := Entries(students, rooms, displayType, m);
    assert Keys(es) == RoomNumbers(rooms)[..m];
    DistinctPrefix(RoomNumbers(rooms), m);
    BuildDistinct(es);
    EntriesCells(students, rooms, displayType, m);
  }

  // ----- How many students are seated -----

  lemma {:induction false} TotalCapacityMonotone(rooms: seq<Room>, j: nat, k: nat)
    requires j <= k <= |rooms|
    ensures TotalCapacity(rooms[..j]) <= TotalCapacity(rooms[..k])
    decreases k
  {
    if j < k {
      TotalCapacityMonotone(rooms, j, k - 1);
      assert rooms[..k][..k - 1] == rooms[..k - 1];
    }
  }

  /** Before room `k`, the cursor has passed as many students as the first `k` rooms can take, or all of them. */
  lemma {:induction false} CursorIsCapacity(n: nat, rooms: seq<Room>, k: nat)
    requires k <= |rooms|
    ensures Cursor(n, rooms, k) == Min(n, TotalCapacity(rooms[..k]))
  {
    if k == 0 {
      assert rooms[..0] == [];
    } else {
      CursorIsCapacity(n, rooms, k - 1);
      assert rooms[..k][..k - 1] == rooms[..k - 1];
    }
  }

  /** The number seated is the capacity of the rooms used, or every student when they fit. */
  lemma SeatedIsCapacity(n: nat, rooms: seq<Room>)
    ensures Seated(n, rooms) == Min(n, TotalCapacity(rooms[..RoomsUsed(n, rooms)]))
  {
    CursorIsCapacity(n, rooms, RoomsUsed(n, rooms));
  }

  /**
   * The shortfall is reported exactly when the rooms together hold fewer slots
   * than there are students, and then every room was used and the count is the
   * difference.
   */
  lemma ShortfallIffOverCapacity(n: nat, rooms: seq<Room>)
    ensures Unseated(n, rooms).Some? <==> TotalCapacity(rooms) < n
    ensures TotalCapacity(rooms) < n ==>
              RoomsUsed(n, rooms) == |rooms| && Unseated(n, rooms) == Some(n - TotalCapacity(rooms))
    ensures TotalCapacity(rooms) >= n ==> Seated(n, rooms) == n
  {
    var m := RoomsUsed(n, rooms);
    CursorIsCapacity(n, rooms, m);
    assert rooms[..|rooms|] == rooms;
    if m < |rooms| {
      RoomsUsedStops(n, rooms);
      TotalCapacityMonotone(rooms, m, |rooms|);
    }
  }


  lemma ProductFacts(r: int, c: int, s: int)
    requires r >= 1 && c >= 0 && s >= 1
    ensures 0 <= c * s <= r * c * s
    ensures r * (c * s) == r * c * s
  {
    assert r * (c * s) - c * s == (r - 1) * (c * s);
  }

  /** `Capacity` is `calculateTotalSeats` whenever the counts are non-negative and their product fits in an `int`. */
  lemma CapacityIsTotalSeats(room: Room)
    requires room.rows >= 0 && room.columns >= 0 && room.studentsPerSeat >= 1
    requires room.rows as int * room.columns as int * room.studentsPerSeat as int < 0x8000_0000
    ensures Capacity(room) == TotalSeats(room) as int
  {
    var r, c, s := room.rows as int, room.columns as int, room.studentsPerSeat as int;
    var total := TotalSeats(room) as int;
    assert total == r * c * s;
    if r == 0 {
      assert Capacity(room) == 0;
      assert r * c * s == 0;
    } else {
      ProductFacts(r, c, s);
      SlotsPerRowBound(room);
      assert Capacity(room) == r * (c * s);
    }
  }
}
