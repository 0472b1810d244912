/**
 * The greedy allocator of SeatingLogic.java: one cursor over the students,
 * shared by all rooms; each room filled row by row, each row with up to
 * `columns * studentsPerSeat` column slots; the grid of each room put into an
 * insertion-ordered map under the room number; processing stops after the
 * room in which the students run out.
 *
 * The functions `RowStart` ... `Allocation` give the result in closed form;
 * `AllocateSeats` is the loop the source runs, proved to compute it.
 */
module SeatingLogic {
  import opened Wrappers
  import opened JavaLang
  import opened Records
  import opened SeatLabels
  import opened LinkedMap
  import opened NameSort

  /** The rows of one room, each a list of seat cells. */
  type Grid = seq<seq<string>>

  /** The `LinkedHashMap` from room number to grid, in insertion order. */
  type Layout = seq<(string, Grid)>

  /** The display type `allocateAlphabetically` passes. */
  const NAME: string := "name"

  function Clip(x: int): nat
  {
    if x < 0 then 0 else x
  }

  function Min(a: int, b: int): int
  {
    if a < b then a else b
  }

  /** `room.columns * room.studentsPerSeat`, computed in Java `int` arithmetic. */
  function SlotsPerRow(room: Room): int32
  {
    MulInt(room.columns, room.studentsPerSeat)
  }

  /**
   * How many students the loops of one room can place: `rows` rows of
   * `SlotsPerRow` slots, a negative count of either meaning none.
   */
  function Capacity(room: Room): nat
  {
    Clip(room.rows as int) * Clip(SlotsPerRow(room) as int)
  }

  /**
   * The cursor at the start of row `r` of a room entered with the cursor at
   * `start`, of `n` students: every earlier row took as many students as it
   * has slots, until none were left.
   */
  function RowStart(n: nat, start: nat, room: Room, r: nat): (i: nat)
    requires start <= n
    ensures start <= i <= n
  {
    Min(n, start + r * Clip(SlotsPerRow(room) as int))
  }

  /** The cursor after a room entered with the cursor at `start`. */
  function RoomEnd(n: nat, start: nat, room: Room): (i: nat)
    requires start <= n
    ensures start <= i <= n
  {
    Min(n, start + Capacity(room))
  }

  /** Row `r` of a room: one cell for each student from `start` on, as many as the slots allow. */
  function SeatRow(students: seq<Student>, start: nat, room: Room, r: nat, displayType: string): seq<string>
    requires start <= |students|
  {
    var len := Min(Clip(SlotsPerRow(room) as int), |students| - start);
    seq(len, c requires 0 <= c < len =>
      SeatContent(r, c, room.studentsPerSeat as int, students[start + c], displayType))
  }

  /** The grid of a room entered with the cursor at `start`. */
  function RoomGrid(students: seq<Student>, start: nat, room: Room, displayType: string): Grid
    requires start <= |students|
  {
    var rows := Clip(room.rows as int);
    seq(rows, r requires 0 <= r < rows =>
      SeatRow(students, RowStart(|students|, start, room, r), room, r, displayType))
  }

  /** The cursor before room `k` is processed. */
  function Cursor(n: nat, rooms: seq<Room>, k: nat): (i: nat)
    requires k <= |rooms|
    ensures i <= n
  {
    if k == 0 then 0 else RoomEnd(n, Cursor(n, rooms, k - 1), rooms[k - 1])
  }

  /** The number of rooms processed, when rooms `k..` are still to come and the students have not run out. */
  function UsedFrom(n: nat, rooms: seq<Room>, k: nat): (m: nat)
    requires k <= |rooms|
    ensures k <= m <= |rooms|
    decreases |rooms| - k
  {
    if k == |rooms| then k
    else if Cursor(n, rooms, k + 1) >= n then k + 1
    else UsedFrom(n, rooms, k + 1)
  }

  /** The number of rooms the allocator processes before it stops. */
  function RoomsUsed(n: nat, rooms: seq<Room>): (m: nat)
    ensures m <= |rooms|
  {
    UsedFrom(n, rooms, 0)
  }

  /** The `(roomNumber, grid)` pair room `j` contributes. */
  function Entry(students: seq<Student>, rooms: seq<Room>, displayType: string, j: nat): (string, Grid)
    requires j < |rooms|
  {
    (rooms[j].roomNumber, RoomGrid(students, Cursor(|students|, rooms, j), rooms[j], displayType))
  }

  /** The pairs of the first `k` rooms, in the order they are put. */
  function Entries(students: seq<Student>, rooms: seq<Room>, displayType: string, k: nat): (es: seq<(string, Grid)>)
    requires k <= |rooms|
    ensures |es| == k
    ensures forall j :: 0 <= j < k ==> es[j] == Entry(students, rooms, displayType, j)
  {
    if k == 0 then [] else Entries(students, rooms, displayType, k - 1) + [Entry(students, rooms, displayType, k - 1)]
  }

  /** The map `allocateSeats` returns. */
  function Allocation(students: seq<Student>, rooms: seq<Room>, displayType: string): Layout
  {
    Build(Entries(students, rooms, displayType, RoomsUsed(|students|, rooms)))
  }

  /** The number of students placed. */
  function Seated(n: nat, rooms: seq<Room>): (i: nat)
    ensures i <= n
  {
    Cursor(n, rooms, RoomsUsed(n, rooms))
  }

  /** The count of the shortfall warning, when it is logged. */
  function Unseated(n: nat, rooms: seq<Room>): Option<nat>
  {
    if Seated(n, rooms) < n then Some(n - Seated(n, rooms)) else None
  }

  lemma {:induction false} UsedFromBounds(n: nat, rooms: seq<Room>, k: nat)
    requires k <= |rooms|
    ensures k < |rooms| ==> k < UsedFrom(n, rooms, k)
    ensures forall j :: k < j < UsedFrom(n, rooms, k) ==> Cursor(n, rooms, j) < n
    ensures UsedFrom(n, rooms, k) < |rooms| ==> Cursor(n, rooms, UsedFrom(n, rooms, k)) >= n
    decreases |rooms| - k
  {
    if k < |rooms| && Cursor(n, rooms, k + 1) < n {
      UsedFromBounds(n, rooms, k + 1);
    }
  }

  /** Whether the allocator stops after room `k` decides how many rooms it uses. */
  lemma UsedFromStep(n: nat, rooms: seq<Room>, k: nat)
    requires k < |rooms|
    ensures Cursor(n, rooms, k + 1) >= n ==> UsedFrom(n, rooms, k) == k + 1
    ensures Cursor(n, rooms, k + 1) < n ==> UsedFrom(n, rooms, k) == UsedFrom(n, rooms, k + 1)
  {
  }

  lemma SeatedAfter(n: nat, rooms: seq<Room>, k: nat)
    requires k <= |rooms| && RoomsUsed(n, rooms) == k
    ensures Seated(n, rooms) == Cursor(n, rooms, k)
    ensures Unseated(n, rooms) == if Cursor(n, rooms, k) < n then Some(n - Cursor(n, rooms, k)) else None
  {
  }

  lemma MulMonotone(r: nat, r': nat, s: nat)
    requires r <= r'
    ensures r * s <= r' * s
  {
    assert r' * s == r * s + (r' - r) * s;
  }

  /** One row advances the cursor by the length of that row. */
  lemma RowStep(students: seq<Student>, start: nat, room: Room, r: nat, displayType: string)
    requires start <= |students|
    ensures RowStart(|students|, start, room, r) + |SeatRow(students, RowStart(|students|, start, room, r), room, r, displayType)|
              == RowStart(|students|, start, room, r + 1)
  {
    var s := Clip(SlotsPerRow(room) as int);
    assert (r + 1) * s == r * s + s;
  }

  /** Processing room `k` puts its grid into the map built so far. */
  lemma EntriesStep(students: seq<Student>, rooms: seq<Room>, displayType: string, k: nat)
    requires k < |rooms|
    ensures Build(Entries(students, rooms, displayType, k + 1)) ==
              Put(Build(Entries(students, rooms, displayType, k)), rooms[k].roomNumber,
                  RoomGrid(students, Cursor(|students|, rooms, k), rooms[k], displayType))
  {
    BuildSnoc(Entries(students, rooms, displayType, k), rooms[k].roomNumber,
              RoomGrid(students, Cursor(|students|, rooms, k), rooms[k], displayType));
  }

  /** The innermost loop of `allocateSeats`: fills row `r` from the cursor on. */
  method FillRow(students: array<Student>, cursor: nat, room: Room, r: nat, displayType: string)
    returns (row: seq<string>, next: nat)
    requires cursor <= students.Length
    ensures row == SeatRow(students[..], cursor, room, r, displayType)
    ensures next == cursor + |row|
  {
    var totalStudentsPerRow := MulInt(room.columns, room.studentsPerSeat);
    ghost var expected := SeatRow(students[..], cursor, room, r, displayType);
    assert |expected| == Min(Clip(totalStudentsPerRow as int), students.Length - cursor);
    row := [];
    next := cursor;
    var c := 0;
    while c < totalStudentsPerRow as int && next < students.Length
      invariant 0 <= c <= |expected|
      invariant next == cursor + c
      invariant row == expected[..c]
    {
      var student := students[next];
      SeatRowGrows(students[..], cursor, room, r, displayType, c);
      next := next + 1;
      row := row + [SeatContent(r, c, room.studentsPerSeat as int, student, displayType)];
      c := c + 1;
    }
  }

  /** Slot `c` of a row holds the cell of the student `c` places after the cursor. */
  lemma SeatRowGrows(students: seq<Student>, cursor: nat, room: Room, r: nat, displayType: string, c: nat)
    requires cursor <= |students| && c < |SeatRow(students, cursor, room, r, displayType)|
    ensures room.studentsPerSeat != 0 && cursor + c < |students|
    ensures SeatRow(students, cursor, room, r, displayType)[..c + 1] ==
              SeatRow(students, cursor, room, r, displayType)[..c] +
              [SeatContent(r, c, room.studentsPerSeat as int, students[cursor + c], displayType)]
  {
    SeatRowAt(students, cursor, room, r, displayType, c);
    SliceSnoc(SeatRow(students, cursor, room, r, displayType), c,
              SeatContent(r, c, room.studentsPerSeat as int, students[cursor + c], displayType));
  }

  lemma SliceSnoc<T>(s: seq<T>, c: nat, x: T)
    requires c < |s| && s[c] == x
    ensures s[..c + 1] == s[..c] + [x]
  {
  }

  /** Slot `c` of a row holds the cell of student `cursor + c`. */
  lemma SeatRowAt(students: seq<Student>, cursor: nat, room: Room, r: nat, displayType: string, c: nat)
    requires cursor <= |students| && c < |SeatRow(students, cursor, room, r, displayType)|
    ensures room.studentsPerSeat != 0 && cursor + c < |students|
    ensures SeatRow(students, cursor, room, r, displayType)[c] ==
              SeatContent(r, c, room.studentsPerSeat as int, students[cursor + c], displayType)
  {
    SlotsNeedSeats(room);
  }

  /** A room with slots has a nonzero `studentsPerSeat`. */
  lemma SlotsNeedSeats(room: Room)
    ensures SlotsPerRow(room) > 0 ==> room.studentsPerSeat != 0
  {
  }

  /** The loop over the rows of one room. */
  method FillRoom(students: array<Student>, cursor: nat, room: Room, displayType: string)
    returns (roomLayout: Grid, next: nat)
    requires cursor <= students.Length
    ensures roomLayout == RoomGrid(students[..], cursor, room, displayType)
    ensures next == RoomEnd(students.Length, cursor, room)
  {
    roomLayout := [];
    next := cursor;
    var r := 0;
    while r < room.rows as int
      invariant 0 <= r <= Clip(room.rows as int)
      invariant next == RowStart(students.Length, cursor, room, r)
      invariant roomLayout == RoomGrid(students[..], cursor, room, displayType)[..r]
    {
      var row;
      row, next := FillRow(students, next, room, r, displayType);
      RowStep(students[..], cursor, room, r, displayType);
      roomLayout := roomLayout + [row];
      r := r + 1;
    }
  }

  /** `allocateSeats`: the loop over the rooms. */
  method AllocateSeats(students: array<Student>, rooms: seq<Room>, displayType: string)
    returns (roomSeating: Layout, shortfall: Option<nat>)
    ensures roomSeating == Allocation(students[..], rooms, displayType)
    ensures shortfall == Unseated(students.Length, rooms)
  {
    ghost var s := students[..];
    ghost var n := students.Length;
    roomSeating := [];
    var currentStudentIndex := 0;
    var k := 0;
    while k < |rooms|
      invariant 0 <= k <= |rooms|
      invariant currentStudentIndex == Cursor(n, rooms, k)
      invariant roomSeating == Build(Entries(s, rooms, displayType, k))
      invariant RoomsUsed(n, rooms) == UsedFrom(n, rooms, k)
    {
      var room := rooms[k];
      var roomLayout;
      roomLayout, currentStudentIndex := FillRoom(students, currentStudentIndex, room, displayType);
      EntriesStep(s, rooms, displayType, k);
      roomSeating := Put(roomSeating, room.roomNumber, roomLayout);
      UsedFromStep(n, rooms, k);
      k := k + 1;
      if currentStudentIndex >= students.Length {
        break;
      }
    }
    assert RoomsUsed(n, rooms) == k;
    assert roomSeating == Allocation(s, rooms, displayType);
    SeatedAfter(n, rooms, k);
    if currentStudentIndex < students.Length {
      shortfall := Some(students.Length - currentStudentIndex);
    } else {
      shortfall := None;
    }
  }

  /** `allocateByRollNumber`: seats the students in the order given; the list is not changed. */
  method AllocateByRollNumber(students: array<Student>, rooms: seq<Room>)
    returns (roomSeating: Layout, shortfall: Option<nat>)
    ensures roomSeating == Allocation(students[..], rooms, ROLL_NUMBER)
    ensures shortfall == Unseated(students.Length, rooms)
  {
    roomSeating, shortfall := AllocateSeats(students, rooms, ROLL_NUMBER);
  }

  /**
   * `allocateAlphabetically`: sorts the caller's list in place, stably by name,
   * then seats it with the name shown.
   */
  method AllocateAlphabetically(students: array<Student>, rooms: seq<Room>)
    returns (roomSeating: Layout, shortfall: Option<nat>)
    modifies students
    ensures students[..] == SortByName(old(students[..]))
    ensures roomSeating == Allocation(students[..], rooms, NAME)
    ensures shortfall == Unseated(students.Length, rooms)
  {
    SortInPlace(students);
    roomSeating, shortfall := AllocateSeats(students, rooms, NAME);
  }
}
