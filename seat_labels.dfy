/**
 * The text of one seat cell, as `allocateSeats` builds it: a seat label
 * `SeatR<row>C<seat>`, a line break, then the student's roll number or name.
 */
module SeatLabels {
  import opened Wrappers
  import opened JavaLang
  import opened Records

  /** The display type that selects the roll-number form; every other value selects the name. */
  const ROLL_NUMBER: string := "rollNumber"

  /**
   * The label of column slot `c` in row `r`: slots that share one physical seat
   * (the same `c / studentsPerSeat`) share one label.
   */
  function SeatLabel(r: int, c: int, studentsPerSeat: int): string
    requires studentsPerSeat != 0
  {
    "SeatR" + IntToString(r + 1) + "C" + IntToString(JavaDiv(c, studentsPerSeat) + 1)
  }

  /** The second line of a cell. */
  function DisplayText(student: Student, displayType: string): string
  {
    if displayType == ROLL_NUMBER then "Roll No: " + student.rollNumber else "Name: " + student.name
  }

  function SeatContent(r: int, c: int, studentsPerSeat: int, student: Student, displayType: string): string
    requires studentsPerSeat != 0
  {
    SeatLabel(r, c, studentsPerSeat) + "\n" + DisplayText(student, displayType)
  }

  // ----- Reading a cell back -----

  /** Position of the first `ch` in `s`, or `|s|` when there is none. */
  function IndexOf(s: string, ch: char): (i: nat)
    ensures i <= |s|
    ensures forall k :: 0 <= k < i ==> s[k] != ch
    ensures i < |s| ==> s[i] == ch
  {
    if s == [] then 0 else if s[0] == ch then 0 else 1 + IndexOf(s[1..], ch)
  }

  /** The seat label of a cell: its text up to the first line break. */
  function FirstLine(cell: string): string
  {
    cell[..IndexOf(cell, '\n')]
  }

  /** What a cell shows about its student: its text after the first line break. */
  function Occupant(cell: string): string
  {
    var i := IndexOf(cell, '\n');
    if i < |cell| then cell[i + 1..] else []
  }

  /** The row number and seat number written in a seat label. */
  function ParseSeatLabel(seatLabel: string): Option<(int, int)>
  {
    if |seatLabel| >= 5 && seatLabel[..5] == "SeatR" then
      var rest := seatLabel[5..];
      var i := IndexOf(rest, 'C');
      if i < |rest| then Some((ParseInt(rest[..i]), ParseInt(rest[i + 1..]))) else None
    else None
  }

  lemma IndexOfAfter(a: string, ch: char, b: string)
    requires ch !in a
    ensures IndexOf(a + [ch] + b, ch) == |a|
  {
    var s := a + [ch] + b;
    assert s[|a|] == ch;
    var i := IndexOf(s, ch);
    assert forall k :: 0 <= k < |a| ==> s[k] == a[k];
  }

  /** A seat label holds no line break. */
  lemma LabelHasNoBreak(r: int, c: int, studentsPerSeat: int)
    requires studentsPerSeat != 0
    ensures '\n' !in SeatLabel(r, c, studentsPerSeat)
  {
    var row := IntToString(r + 1);
    var seat := IntToString(JavaDiv(c, studentsPerSeat) + 1);
    var seatLabel := SeatLabel(r, c, studentsPerSeat);
    assert seatLabel == "SeatR" + row + "C" + seat;
    forall k | 0 <= k < |seatLabel| ensures seatLabel[k] != '\n' {
      if 5 <= k < 5 + |row| {
        assert seatLabel[k] == row[k - 5];
      } else if 5 + |row| < k {
        assert seatLabel[k] == seat[k - 6 - |row|];
      }
    }
  }

  /** A cell splits at its first line break into its seat label and its student text. */
  lemma SeatContentSplits(r: int, c: int, studentsPerSeat: int, student: Student, displayType: string)
    requires studentsPerSeat != 0
    ensures FirstLine(SeatContent(r, c, studentsPerSeat, student, displayType)) == SeatLabel(r, c, studentsPerSeat)
    ensures Occupant(SeatContent(r, c, studentsPerSeat, student, displayType)) == DisplayText(student, displayType)
  {
    var seatLabel, text := SeatLabel(r, c, studentsPerSeat), DisplayText(student, displayType);
    LabelHasNoBreak(r, c, studentsPerSeat);
    IndexOfAfter(seatLabel, '\n', text);
    var cell := SeatContent(r, c, studentsPerSeat, student, displayType);
    assert cell == seatLabel + ['\n'] + text;
    assert cell[..|seatLabel|] == seatLabel;
    assert cell[|seatLabel| + 1..] == text;
  }

  /** A label made of a row number without a `C` and any seat number reads back as those numbers. */
  lemma ParseRowAndSeat(row: string, seat: string)
    requires 'C' !in row
    ensures ParseSeatLabel("SeatR" + row + "C" + seat) == Some((ParseInt(row), ParseInt(seat)))
  {
    var seatLabel := "SeatR" + row + "C" + seat;
    assert seatLabel[..5] == "SeatR";
    var rest := seatLabel[5..];
    assert rest == row + ['C'] + seat;
    IndexOfAfter(row, 'C', seat);
    assert rest[..|row|] == row;
    assert rest[|row| + 1..] == seat;
  }

  /** A seat label reads back as its row and seat numbers. */
  lemma SeatLabelParses(r: int, c: int, studentsPerSeat: int)
    requires studentsPerSeat != 0
    ensures ParseSeatLabel(SeatLabel(r, c, studentsPerSeat)) == Some((r + 1, JavaDiv(c, studentsPerSeat) + 1))
  {
    var row := IntToString(r + 1);
    var seat := IntToString(JavaDiv(c, studentsPerSeat) + 1);
    assert 'C' !in row by {
      forall k | 0 <= k < |row| ensures row[k] != 'C' {
      }
    }
    ParseRowAndSeat(row, seat);
    ParseIntToString(r + 1);
    ParseIntToString(JavaDiv(c, studentsPerSeat) + 1);
  }

  /** A cell reads back as its seat label, row and seat numbers, and student text. */
  lemma SeatContentReadsBack(r: int, c: int, studentsPerSeat: int, student: Student, displayType: string)
    requires studentsPerSeat != 0
    ensures FirstLine(SeatContent(r, c, studentsPerSeat, student, displayType)) == SeatLabel(r, c, studentsPerSeat)
    ensures Occupant(SeatContent(r, c, studentsPerSeat, student, displayType)) == DisplayText(student, displayType)
    ensures ParseSeatLabel(SeatLabel(r, c, studentsPerSeat)) == Some((r + 1, JavaDiv(c, studentsPerSeat) + 1))
  {
    SeatContentSplits(r, c, studentsPerSeat, student, displayType);
    SeatLabelParses(r, c, studentsPerSeat);
  }

  /**
   * Two slots get the same seatLabel exactly when they are in the same row and on
   * the same physical seat.
   */
  lemma SeatLabelsEqual(r1: int, c1: int, s1: int, r2: int, c2: int, s2: int)
    requires s1 != 0 && s2 != 0
    ensures SeatLabel(r1, c1, s1) == SeatLabel(r2, c2, s2) <==>
              r1 == r2 && JavaDiv(c1, s1) == JavaDiv(c2, s2)
  {
    SeatLabelParses(r1, c1, s1);
    SeatLabelParses(r2, c2, s2);
  }
}
