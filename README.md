# Exam seating arrangement: the allocator and the upload endpoint

This project models the core of an exam seating service written in Java (Spring Boot). The service has two parts.

The **allocator** (`SeatingLogic.allocateSeats` and its two entry points) places an ordered list of students into an ordered list of rooms:

- One cursor runs over the students and is never reset between rooms.
- Each room is filled row by row. A row has `columns * studentsPerSeat` slots, computed in Java `int` arithmetic.
- Each slot gets the text `SeatR<r+1>C<c/studentsPerSeat+1>`, a newline, and then either `Roll No: <rollNumber>` or `Name: <name>`.
- Each room's grid goes into an insertion-ordered map under the room number.
- Processing stops right after the room in which the students run out.
- If students are left over, a shortfall count is logged.
- `allocateAlphabetically` first sorts the caller's list in place, stably, by name. `allocateByRollNumber` keeps the given order.

The **endpoint** (`SeatingController.generateSeatingArrangement`) handles one request:

1. It checks both uploads' content types.
2. It saves them into a fresh temporary directory.
3. It reads them and dispatches on the lower-cased arrangement type.
4. It renders a PDF.
5. It maps the outcome to HTTP 200, 400 (an `IllegalArgumentException`) or 500 (any other exception).

## Modules

- `Wrappers`: `Option` and `Result`.
- `JavaLang`: the Java semantics the model needs:
  - 32-bit `int` multiplication with wrap-around;
  - truncating `/`;
  - `Integer.toString`, with a parser proving the rendering is injective;
  - `String.compareTo` as a strict total order;
  - ASCII `toLowerCase`.
- `LinkedMap`: `LinkedHashMap` as a sequence of pairs. A `Put` of an existing key replaces the value in place. `Build` folds a list of puts.
- `Records`: `Student`, `Room` and `calculateTotalSeats`.
- `SeatLabels`: the text of one seat cell, and how to read the label, row, seat and occupant back from it.
- `NameSort`:
  - the stable sort by name, as a functional specification (`SortByName`, insertion sort);
  - its properties (sorted, a permutation, stable, and the only stable sorted order);
  - an in-place insertion sort on an `array` proved to compute it.
- `SeatingLogic`:
  - the allocator in closed form (`RowStart`, `SeatRow`, `RoomGrid`, `Cursor`, `RoomsUsed`, `Entries`, `Allocation`, `Seated`, `Unseated`);
  - the source's nested loops as methods over an `array` of students, proved to compute it.
- `SeatingProperties`: what every allocation satisfies:
  - which rooms appear;
  - grid shape;
  - short rows come last;
  - the exact cell contents;
  - every student seated once, in order;
  - the seated count and the shortfall.
- `SeatingController`: the endpoint, modelled as follows:
  - The file system, the spreadsheet readers and the PDF renderer are a `World` value. It fixes what each call returns or throws.
  - The endpoint returns its response together with the trace of calls (`Effect`s) it made.
- `SeatingScenarios`: small concrete allocations worked out in full.

Source paths below are relative to the repository root.

## Model

| member | source | states |
|---|---|---|
| SeatingLogic.AllocateSeats | src/main/java/com/seating/exam_seating_arrangement_system/seating/SeatingLogic.java:32-64 | The nested loops return exactly `Allocation(students, rooms, displayType)`. The shortfall count is reported exactly when students remain, and it equals the number left over. |
| SeatingLogic.FillRoom | src/main/java/com/seating/exam_seating_arrangement_system/seating/SeatingLogic.java:37-51 | The row loop of one room builds `RoomGrid`. It leaves the cursor at `RoomEnd`, which is the start cursor plus the room's capacity, or every student. |
| SeatingLogic.FillRow | src/main/java/com/seating/exam_seating_arrangement_system/seating/SeatingLogic.java:41-49 | The column loop takes the next students in order, one per slot, until the slots or the students run out. The cursor advances by the number of cells made. |
| SeatingLogic.AllocateByRollNumber | src/main/java/com/seating/exam_seating_arrangement_system/seating/SeatingLogic.java:20-22 | Seats the students in the given order with the roll-number label. The student array is not modified (no `modifies` clause). |
| SeatingLogic.AllocateAlphabetically | src/main/java/com/seating/exam_seating_arrangement_system/seating/SeatingLogic.java:25-29 | The caller's array is left holding `SortByName` of its old contents. The seating is the allocation of that sorted list with the name label. |
| SeatingLogic.UsedFromBounds | src/main/java/com/seating/exam_seating_arrangement_system/seating/SeatingLogic.java:36-56 | The rooms processed form a prefix. Every room before the last one processed leaves students unseated. When the prefix stops early, the students have run out. |
| SeatingLogic.EntriesStep | src/main/java/com/seating/exam_seating_arrangement_system/seating/SeatingLogic.java:53 | Processing one more room is one `put` of its grid under its number into the map built so far. |
| SeatingLogic.RowStep | src/main/java/com/seating/exam_seating_arrangement_system/seating/SeatingLogic.java:42-43 | A row advances the cursor by exactly the number of cells it holds. |
| SeatingProperties.AllocationKeys | src/main/java/com/seating/exam_seating_arrangement_system/seating/SeatingLogic.java:33-55 | The map's keys, in insertion order, are the room numbers of a prefix of `rooms`, each repeated number kept at its first position. The prefix is non-empty when there are rooms. |
| SeatingProperties.RoomsUsedStops | src/main/java/com/seating/exam_seating_arrangement_system/seating/SeatingLogic.java:55 | Every room before the last processed one left students unseated. If rooms remain unprocessed, all students were seated. |
| SeatingProperties.AllocationGet | src/main/java/com/seating/exam_seating_arrangement_system/seating/SeatingLogic.java:53 | With repeated room numbers, a lookup gives the grid of the last processed room with that number. |
| SeatingProperties.AllocationEntries | src/main/java/com/seating/exam_seating_arrangement_system/seating/SeatingLogic.java:36-53 | Every entry of the map is some processed room's number paired with that room's grid. |
| SeatingProperties.NoStudents | src/main/java/com/seating/exam_seating_arrangement_system/seating/SeatingLogic.java:33-61 | With no students and at least one room, the map holds exactly the first room, with `rows` empty rows, and there is no shortfall. |
| SeatingProperties.RoomGridShape | src/main/java/com/seating/exam_seating_arrangement_system/seating/SeatingLogic.java:38-50 | A grid has exactly `rows` rows (none when `rows` is negative). Each row has at most the row's slot count. |
| SeatingProperties.RowLength | src/main/java/com/seating/exam_seating_arrangement_system/seating/SeatingLogic.java:40-50 | Row `r` has as many cells as the slot count allows or as the students from its starting cursor on allow, whichever is fewer. |
| SeatingProperties.SlotsPerRowBound | src/main/java/com/seating/exam_seating_arrangement_system/seating/SeatingLogic.java:38 | With non-negative columns and positive seats, the wrapped `int` product never exceeds the true product. It equals the true product when that product fits in an `int`. |
| SeatingProperties.RowAtMostColumnsTimesSeats | src/main/java/com/seating/exam_seating_arrangement_system/seating/SeatingLogic.java:38-49 | With non-negative columns and positive seats, no row has more than `columns * studentsPerSeat` cells. |
| SeatingProperties.ShortRowsLast | src/main/java/com/seating/exam_seating_arrangement_system/seating/SeatingLogic.java:42 | A row shorter than the slot count ends exactly where the students run out, and every later row of the room is empty. |
| SeatingProperties.EmptyRow | src/main/java/com/seating/exam_seating_arrangement_system/seating/SeatingLogic.java:42 | A row entered with no students left is empty. |
| SeatingProperties.RowStartExhausted | src/main/java/com/seating/exam_seating_arrangement_system/seating/SeatingLogic.java:42-43 | Once the cursor has reached the end, it stays there for every later row. |
| SeatingProperties.RoomGridCells | src/main/java/com/seating/exam_seating_arrangement_system/seating/SeatingLogic.java:43-48 | The cell at row `r`, slot `c` is the seat cell of that row and slot for the student at cursor `RowStart(r) + c`. |
| SeatingProperties.RowOccupants | src/main/java/com/seating/exam_seating_arrangement_system/seating/SeatingLogic.java:42-48 | Row `r` shows, in order, exactly the students between its starting cursor and the next row's. |
| SeatingProperties.SeatRowOccupants | src/main/java/com/seating/exam_seating_arrangement_system/seating/SeatingLogic.java:42-48 | A row entered with the cursor at `a` shows the students from `a` on, one per cell, in order. |
| SeatingProperties.FlattenRows | src/main/java/com/seating/exam_seating_arrangement_system/seating/SeatingLogic.java:40-50 | The first `r` rows of a room, read row by row, show the students the cursor passed in them, in order. |
| SeatingProperties.FlattenRoomGrid | src/main/java/com/seating/exam_seating_arrangement_system/seating/SeatingLogic.java:37-51 | The cells of one room, row by row, show the students from the room's starting cursor to its end cursor, in order. |
| SeatingProperties.EntriesCells | src/main/java/com/seating/exam_seating_arrangement_system/seating/SeatingLogic.java:34-53 | The cells of the first `k` rooms, room by room, show the students before the cursor at room `k`, in order. |
| SeatingProperties.SeatedCells | src/main/java/com/seating/exam_seating_arrangement_system/seating/SeatingLogic.java:34-55 | With distinct room numbers, there is one cell per seated student. Read room by room and row by row, the cells show students `0..Seated`, each once and in order. |
| SeatingProperties.CursorIsCapacity | src/main/java/com/seating/exam_seating_arrangement_system/seating/SeatingLogic.java:34-51 | Before room `k`, the cursor equals the smaller of the student count and the total capacity of the first `k` rooms. |
| SeatingProperties.SeatedIsCapacity | src/main/java/com/seating/exam_seating_arrangement_system/seating/SeatingLogic.java:34-55 | The number seated is the smaller of the student count and the total capacity of the rooms processed. |
| SeatingProperties.ShortfallIffOverCapacity | src/main/java/com/seating/exam_seating_arrangement_system/seating/SeatingLogic.java:58-61 | A shortfall is reported exactly when all rooms together have fewer slots than there are students. All rooms were used, and the count is students minus capacity. Otherwise every student is seated. |
| SeatingProperties.TotalCapacityMonotone | src/main/java/com/seating/exam_seating_arrangement_system/seating/SeatingLogic.java:36-56 | Adding rooms never lowers the total capacity. |
| SeatingProperties.CapacityIsTotalSeats | src/main/java/com/seating/exam_seating_arrangement_system/seating/Room.java:21-23 | When the counts are non-negative, at least one seat per bench, and `rows * columns * studentsPerSeat` fits in an `int`, the allocator's per-room capacity equals `calculateTotalSeats`. |
| Records.TotalSeats | src/main/java/com/seating/exam_seating_arrangement_system/seating/Room.java:21-23 | `calculateTotalSeats` in Java `int` arithmetic is the true product whenever the counts are non-negative and the product fits. |
| SeatLabels.SeatContentReadsBack | src/main/java/com/seating/exam_seating_arrangement_system/seating/SeatingLogic.java:44-47 | A cell's first line is its seat label and the rest is the display text. The label parses back to row `r + 1` and seat `c / studentsPerSeat + 1` (Java division). |
| SeatLabels.SeatContentSplits | src/main/java/com/seating/exam_seating_arrangement_system/seating/SeatingLogic.java:45-47 | A cell is the label, a newline, then `Roll No: <rollNumber>` when the display type is `"rollNumber"` and `Name: <name>` otherwise. |
| SeatLabels.SeatLabelParses | src/main/java/com/seating/exam_seating_arrangement_system/seating/SeatingLogic.java:44 | `SeatR<r+1>C<c/s+1>` reads back as the pair `(r + 1, c / s + 1)`. |
| SeatLabels.SeatLabelsEqual | src/main/java/com/seating/exam_seating_arrangement_system/seating/SeatingLogic.java:44 | Two slots get the same label exactly when they are in the same row and have the same `c / studentsPerSeat`. So slots sharing a bench share a label. |
| SeatLabels.LabelHasNoBreak | src/main/java/com/seating/exam_seating_arrangement_system/seating/SeatingLogic.java:44 | A seat label contains no newline, so the cell's first line is the whole label. |
| NameSort.SortInPlace | src/main/java/com/seating/exam_seating_arrangement_system/seating/SeatingLogic.java:27 | The in-place sort leaves the array holding `SortByName` of its old contents. |
| NameSort.InsertAt | src/main/java/com/seating/exam_seating_arrangement_system/seating/SeatingLogic.java:27 | One insertion step places element `i` into the sorted prefix before it and leaves the rest of the array unchanged. |
| NameSort.ShiftGreater | src/main/java/com/seating/exam_seating_arrangement_system/seating/SeatingLogic.java:27 | Shifts right exactly the prefix elements whose name is greater than the inserted name, stopping at the first one that is not. |
| NameSort.SortByNameSortsAndPermutes | src/main/java/com/seating/exam_seating_arrangement_system/seating/SeatingLogic.java:27 | The sorted list is in ascending name order and is a permutation of the input. |
| NameSort.SortByNameIsStable | src/main/java/com/seating/exam_seating_arrangement_system/seating/SeatingLogic.java:27 | Students with equal names keep their relative order. |
| NameSort.StableSortUnique | src/main/java/com/seating/exam_seating_arrangement_system/seating/SeatingLogic.java:27 | Two name-sorted lists with the same students of each name, in the same order, are equal. So any stable sort, TimSort included, gives the same result. |
| NameSort.SortByNameCharacterized | src/main/java/com/seating/exam_seating_arrangement_system/seating/SeatingLogic.java:27 | Any sorted list that keeps each name's students in input order is `SortByName` of the input. |
| NameSort.InsertSorted | src/main/java/com/seating/exam_seating_arrangement_system/seating/SeatingLogic.java:27 | Inserting into a name-sorted list keeps it sorted. |
| NameSort.InsertPermutes | src/main/java/com/seating/exam_seating_arrangement_system/seating/SeatingLogic.java:27 | Insertion adds exactly the inserted student to the multiset of students. |
| JavaLang.LessTransitive | src/main/java/com/seating/exam_seating_arrangement_system/seating/SeatingLogic.java:27 | `compareTo` on names is transitive. |
| JavaLang.LessTotal | src/main/java/com/seating/exam_seating_arrangement_system/seating/SeatingLogic.java:27 | Any two distinct names are ordered one way or the other. |
| JavaLang.LessAsymmetric | src/main/java/com/seating/exam_seating_arrangement_system/seating/SeatingLogic.java:27 | No two names are each less than the other. |
| JavaLang.LessIrreflexive | src/main/java/com/seating/exam_seating_arrangement_system/seating/SeatingLogic.java:27 | No name is less than itself. |
| JavaLang.MulInt | src/main/java/com/seating/exam_seating_arrangement_system/seating/SeatingLogic.java:38 | Java `int` multiplication is the true product when that product fits in 32 bits. It is never above a non-negative true product, and it is zero when either factor is zero. In every case it differs from the true product by a multiple of 2^32 (two's-complement wrap-around). |
| JavaLang.Wrap32 | src/main/java/com/seating/exam_seating_arrangement_system/seating/SeatingLogic.java:38 | Wrapping lands in the 32-bit range, differs from its argument by a multiple of 2^32, and leaves in-range values unchanged. |
| JavaLang.JavaDiv | src/main/java/com/seating/exam_seating_arrangement_system/seating/SeatingLogic.java:44 | Java `/` truncates toward zero for every sign combination of dividend and divisor. |
| JavaLang.ParseIntToString | src/main/java/com/seating/exam_seating_arrangement_system/seating/SeatingLogic.java:44 | The decimal text `+` writes for an `int` parses back to the same number. |
| JavaLang.IntToStringInjective | src/main/java/com/seating/exam_seating_arrangement_system/seating/SeatingLogic.java:44 | Two numbers give the same decimal text exactly when they are equal. |
| JavaLang.ToLower | src/main/java/com/seating/exam_seating_arrangement_system/api/SeatingController.java:190 | Lower-casing keeps the length, turns each upper-case ASCII letter into its lower-case partner, and keeps every other character. |
| JavaLang.ToLowerIdempotent | src/main/java/com/seating/exam_seating_arrangement_system/api/SeatingController.java:190 | Lower-casing twice is the same as lower-casing once. |
| LinkedMap.Put | src/main/java/com/seating/exam_seating_arrangement_system/seating/SeatingLogic.java:53 | `put` of an existing key keeps the key order. `put` of a new key appends it. Afterwards the key maps to the new value, and every other key is unaffected. |
| LinkedMap.BuildKeys | src/main/java/com/seating/exam_seating_arrangement_system/seating/SeatingLogic.java:53 | After a series of puts, the keys are the distinct keys put, in first-put order. |
| LinkedMap.BuildGet | src/main/java/com/seating/exam_seating_arrangement_system/seating/SeatingLogic.java:53 | After a series of puts, each key maps to the value last put under it. |
| LinkedMap.BuildDistinct | src/main/java/com/seating/exam_seating_arrangement_system/seating/SeatingLogic.java:53 | Puts of distinct keys give back exactly those pairs, in order. |
| LinkedMap.PutKeepsDistinct | src/main/java/com/seating/exam_seating_arrangement_system/seating/SeatingLogic.java:53 | A map's keys stay distinct through a `put`. |
| SeatingController.ValidateFiles | src/main/java/com/seating/exam_seating_arrangement_system/api/SeatingController.java:152-156 | Throws `IllegalArgumentException` with the format message exactly when at least one of the two files is not a spreadsheet. |
| SeatingController.ExcelContentTypes | src/main/java/com/seating/exam_seating_arrangement_system/api/SeatingController.java:158-164 | A file passes exactly when its content type is present and equals one of the two spreadsheet types. The comparison is case-sensitive, and the file name plays no part. |
| SeatingController.ParseArrangement | src/main/java/com/seating/exam_seating_arrangement_system/api/SeatingController.java:190-195 | After lower-casing, `"alphabetical"` selects the alphabetical allocation and `"rollnumber"` the roll-number one. Anything else throws `IllegalArgumentException` with the type message. |
| SeatingController.ArrangementIgnoresCase | src/main/java/com/seating/exam_seating_arrangement_system/api/SeatingController.java:190-192 | The selector depends only on the lower-cased text, so `"Alphabetical"`, `"ROLLNUMBER"` and `"rollNumber"` are accepted and `"roll-number"` is not. |
| SeatingController.CatchResponse | src/main/java/com/seating/exam_seating_arrangement_system/api/SeatingController.java:140-149 | Success gives 200 with the download message and the path. `IllegalArgumentException` gives 400 with its message. Any other exception gives 500 with the error prefix and its message (`null` when it has none). |
| SeatingController.StatusClassifies | src/main/java/com/seating/exam_seating_arrangement_system/api/SeatingController.java:140-149 | Each status identifies its outcome class, both ways. |
| SeatingController.SaveMultipartFile | src/main/java/com/seating/exam_seating_arrangement_system/api/SeatingController.java:172-177 | A missing file name throws `NullPointerException` before anything is written. Otherwise the upload is written to `<dir>/<name>`, and that path is returned unless the write fails. The result and calls are exactly `Saved`. |
| SeatingController.ProcessSeatingArrangement | src/main/java/com/seating/exam_seating_arrangement_system/api/SeatingController.java:179-196 | Both sheets are read, in order, before the selector is looked at, so an invalid type still triggers both reads. A read failure propagates and stops there. Otherwise the plan is the allocation the selector picks. The result and calls are exactly `Processed`. |
| SeatingController.GeneratePdf | src/main/java/com/seating/exam_seating_arrangement_system/api/SeatingController.java:198-206 | Renders the plan to `<dir>/SeatingArrangement.pdf` and returns that path. If rendering throws, it throws what `generateSeatingPDF` rethrows: a non-`IllegalArgumentException` with the message `"Error generating PDF: " + message` (PDFGenerator.java:75-76). |
| SeatingController.Prepare | src/main/java/com/seating/exam_seating_arrangement_system/api/SeatingController.java:124-134 | The temporary directory is created first, then both uploads are saved and the sheets processed, with no rendering. The plan and the calls are exactly `Preparation`: the first step that throws ends the sequence with its exception. At most five calls are made, every call but the last succeeded, and a failed last call's exception is the plan's (`Stopped`). |
| SeatingController.Run | src/main/java/com/seating/exam_seating_arrangement_system/api/SeatingController.java:120-141 | The outcome and calls are exactly `RunOutcome` on every path. They stop at the first failure (`Stopped`): at most six calls, every call but the last succeeded, and a failed last call's exception is the outcome. An invalid upload fails before any file-system call. The render is the last call and happens only with a valid selector. On success the result is the PDF path in the temporary directory. |
| SeatingController.GenerateSeatingArrangement | src/main/java/com/seating/exam_seating_arrangement_system/api/SeatingController.java:100-150 | On every path, the response is `CatchResponse` of the run's outcome and the calls are the run's calls. So the status is always 200, 400 or 500. Invalid uploads get 400 with the format message and make no call. An invalid selector, once the sheets are read, gets 400 with the type message. Success carries the PDF path. |
| SeatingController.StopsAtFirstFailure | src/main/java/com/seating/exam_seating_arrangement_system/api/SeatingController.java:120-149 | A run stops at its first failure. Every call but the last succeeded. When the last call failed, its exception is the outcome. Any other failure is one of the endpoint's own: the format message, the type message, or the `NullPointerException` of a missing file name. At most six calls are made. |
| SeatingController.PreparationStops | src/main/java/com/seating/exam_seating_arrangement_system/api/SeatingController.java:124-134 | The steps before rendering stop at their first failure, in the same sense, after at most five calls. |
| SeatingController.StoppedAppend | src/main/java/com/seating/exam_seating_arrangement_system/api/SeatingController.java:124-137 | Calls that all succeeded, followed by calls that stopped at a failure, together stopped at that failure. |
| SeatingController.SavedStops | src/main/java/com/seating/exam_seating_arrangement_system/api/SeatingController.java:172-177 | Saving one upload stops at its failure: a failed write is the outcome, and a missing name fails before any call. |
| SeatingController.ProcessedStops | src/main/java/com/seating/exam_seating_arrangement_system/api/SeatingController.java:179-196 | Processing stops at the first failed read; otherwise its only failure is the type message. |
| SeatingController.TempDirectoryFailure | src/main/java/com/seating/exam_seating_arrangement_system/api/SeatingController.java:125-148 | A temporary directory that cannot be created ends the run after that one call. Any exception there other than an `IllegalArgumentException` is a 500 with `"Error generating PDF: " + message`. |
| SeatingController.MissingFileName | src/main/java/com/seating/exam_seating_arrangement_system/api/SeatingController.java:126-173 | A students' upload without a file name fails `requireNonNull` after the directory is created and before any write. The response is 500 with `"Error generating PDF: null"`. |
| SeatingController.RoomsMissingFileName | src/main/java/com/seating/exam_seating_arrangement_system/api/SeatingController.java:126-173 | A rooms' upload without a file name fails `requireNonNull` after the students' upload is written and before any read. The calls are the directory and that one write, and the response is 500 with `"Error generating PDF: null"`. |
| SeatingController.StudentsWriteFailure | src/main/java/com/seating/exam_seating_arrangement_system/api/SeatingController.java:126-127 | A failed write of the students' upload ends the run after two calls. The rooms' upload is never saved, and neither sheet is read. |
| SeatingController.StudentsReadFailure | src/main/java/com/seating/exam_seating_arrangement_system/api/SeatingController.java:142-148 | A students' sheet that cannot be read ends the run after both saves and the one read. A reader `IllegalArgumentException` gives 400 with its message. Any other exception, such as an `IOException`, gives 500. |
| SeatingController.RenderFailure | src/main/java/com/seating/exam_seating_arrangement_system/seating/PDFGenerator.java:75-76 | A renderer failure is never a client fault. The response is a 500 whose body carries `"Error generating PDF: "` twice before the renderer's message. |
| SeatingScenarios.FirstRowOnly | src/main/java/com/seating/exam_seating_arrangement_system/seating/SeatingLogic.java:36-56 | When the first room has one row and either it is the only room or the students fit in it, the map is that room alone with one row of the first students. |
| SeatingScenarios.ThreeStudentsTwoSeats | src/main/java/com/seating/exam_seating_arrangement_system/seating/SeatingLogic.java:32-64 | Three students and one room with two single seats: the first two are seated as `SeatR1C1`/`SeatR1C2` with their roll numbers, and the shortfall is 1. |
| SeatingScenarios.FirstRoomSuffices | src/main/java/com/seating/exam_seating_arrangement_system/seating/SeatingLogic.java:32-64 | One student and two rooms: only the first room appears, and no shortfall is reported. |
| SeatingScenarios.SharedBench | src/main/java/com/seating/exam_seating_arrangement_system/seating/SeatingLogic.java:44-47 | Two students on one bench of two share the label `SeatR1C1`. |
| SeatingScenarios.SmallLabels | src/main/java/com/seating/exam_seating_arrangement_system/seating/SeatingLogic.java:44 | The labels of the first slots: `SeatR1C1` and `SeatR1C2` with one seat per bench, `SeatR1C1` for slot 1 with two. |

## Left out

- `readStudentsFromExcel` and `readRoomsFromExcel` (SeatingLogic.java:66-119) are Apache POI spreadsheet I/O. Their results or exceptions are given by the `World` value (`readStudents`, `readRooms`).
- The body of `generateSeatingPDF` (PDFGenerator.java:16-74), iText rendering, is not part of this model. Whether it throws for a plan and a path, and with what, is `World.renderFailure`. The `catch` that wraps its exception (PDFGenerator.java:75-76) is modelled by `SeatingController.RenderException`. The `roomLayout.get(0)` failure on a room with no rows (PDFGenerator.java:40) is one such renderer exception; it is not derived from the plan.
- `createTempDirectory`, `Files.write` and `file.getBytes()` are file-system I/O. The directory (or exception) is `World.tempDirectory` and write failures are `World.writeFailure`. The bytes written are not modelled. `World.writeFailure` is keyed on the path alone, so two uploads with the same original file name are made to fail or succeed together, although reading one upload's bytes (`file.getBytes()`, SeatingController.java:174) could fail for one and not the other.
- `SeatingController.Resolve` models `Path.resolve` as `dir + "/" + name`. The model does not capture three things `resolve` would do differently. An absolute or multi-segment original file name is treated specially. An empty name resolves to the directory itself, not `dir + "/"`. A name the file system rejects throws `InvalidPathException`, an `IllegalArgumentException`, so the source answers 400 before any write, while the model records a `WriteFile` call.
- Logging is not modelled. The shortfall warning at SeatingLogic.java:58-61 is returned as its count (`Option<nat>`), and the other log lines are dropped.
- `SeatingLogic.AllocateAlphabetically`: `List.sort` (TimSort) is modelled by an insertion sort. `NameSort.StableSortUnique` shows that every stable sort by name gives the same list, so the result is the same.
- `JavaLang.Less` compares names character by character on Dafny `char`s, which are Unicode scalar values. Java's `compareTo` compares UTF-16 code units, so names outside the Basic Multilingual Plane may order differently.
- `JavaLang.ToLower` lower-cases ASCII letters only. Java's locale-sensitive `toLowerCase` is not modelled. The selector only ever matches ASCII words, but a non-ASCII character that Java lower-cases into ASCII is not captured.
- The Spring request binding, `ResponseEntity`, CORS and Swagger configuration, `Main.java` and the application class are framework or driver code.
- A `null` MultipartFile or a `null` type parameter cannot reach the endpoint (all three request parameters are required), so it is not modelled. A `null` content type and a `null` original file name are modelled.
- `Room.totalCapacity` is carried in the record but never read by the allocator, so no property mentions it.
- The Java `List`s the allocator builds are modelled as `seq` values. The student list is an `array`, so the in-place sort is observable to the caller. The aliasing of the same list across requests is not modelled.

## Behaviour worth noting

On the points below, the code behaves differently from what the method names suggest. The model follows the code.

- A stable sort on a copy would leave the caller's list untouched. The code instead sorts the caller's list in place (SeatingLogic.java:27), and `SeatingLogic.AllocateAlphabetically` models that: its array is left sorted.
- The roll-number arrangement does not sort by roll number. It keeps the uploaded order and only changes the label text (SeatingLogic.java:20-22). `SeatingLogic.AllocateByRollNumber` takes no `modifies` clause on the array.
- With no students and at least one room, the result is not empty. It holds the first room with empty rows (`SeatingProperties.NoStudents`), because the `break` at SeatingLogic.java:55 is checked only after the first room has been put.
- File-system and reader failures are not client faults. Only an `IllegalArgumentException` gets a 400 (SeatingController.java:142-144). A failed temporary directory, a failed write, a missing file name or a reader's `IOException` gets a 500 (SeatingController.java:145-148). See `SeatingController.TempDirectoryFailure`, `SeatingController.MissingFileName`, `SeatingController.RoomsMissingFileName` and `SeatingController.StudentsReadFailure`. A reader's own `IllegalArgumentException` gets a 400.
- A renderer failure always gets a 500, and its body repeats the error prefix, because `generateSeatingPDF` already prefixes its message (`SeatingController.RenderFailure`).
