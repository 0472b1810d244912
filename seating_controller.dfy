/**
 * The `/generate-pdf` endpoint of SeatingController.java: validate the two
 * uploads, save them to a fresh temporary directory, read them, allocate seats
 * in the requested order, render the PDF, and turn the outcome into a response.
 *
 * The file system, the spreadsheet readers and the PDF renderer are not
 * modelled; a `World` fixes the outcome each of them has, and the endpoint
 * reports the calls it makes to them as a trace of `Effect`s.
 */
module SeatingController {
  import opened Wrappers
  import opened JavaLang
  import opened Records
  import opened SeatLabels
  import opened NameSort
  import opened SeatingLogic

  // ----- Requests, exceptions, responses -----

  /** The two properties of an uploaded file the endpoint looks at; `None` is Java's `null`. */
  datatype MultipartFile = MultipartFile(contentType: Option<string>, originalFilename: Option<string>)

  /** `IllegalArgumentException`, `NullPointerException`, or any other exception. */
  datatype ExceptionKind = IllegalArgument | NullPointer | OtherException

  datatype Exception = Exception(kind: ExceptionKind, message: Option<string>)

  /** An HTTP response: its status code and its body (`None` for a `null` body). */
  datatype Response = Response(status: int, body: Option<string>)

  const XLS_TYPE: string := "application/vnd.ms-excel"
  const XLSX_TYPE: string := "application/vnd.openxmlformats-officedocument.spreadsheetml.sheet"
  const FORMAT_MESSAGE: string := "Invalid file format. Only Excel files (.xlsx, .xls) are allowed."
  const TYPE_MESSAGE: string := "Invalid arrangement type. Must be either 'alphabetical' or 'rollnumber'"
  const SUCCESS_PREFIX: string := "PDF generated successfully! Download from: "
  const ERROR_PREFIX: string := "Error generating PDF: "
  const PDF_NAME: string := "SeatingArrangement.pdf"

  // ----- The outside world -----

  /**
   * What the outside world does when asked: the directory `createTempDirectory`
   * returns or the exception it throws; the exception, if any, writing each
   * path throws; what each spreadsheet reader returns or throws for each path;
   * the exception, if any, the body of `generateSeatingPDF` throws for a plan
   * and a path, before that method wraps it.
   */
  datatype World = World(
    tempDirectory: Result<string, Exception>,
    writeFailure: string -> Option<Exception>,
    readStudents: string -> Result<seq<Student>, Exception>,
    readRooms: string -> Result<seq<Room>, Exception>,
    renderFailure: (Layout, string) -> Option<Exception>)

  /** A call the endpoint makes to the outside world. */
  datatype Effect =
    | CreateTempDirectory
    | WriteFile(path: string)
    | ReadStudents(path: string)
    | ReadRooms(path: string)
    | RenderPdf(path: string, plan: Layout)

  /** `Path.resolve` of a plain file name inside a directory. */
  function Resolve(directory: string, name: string): (path: string)
    ensures |path| == |directory| + 1 + |name|
    ensures path[..|directory|] == directory && path[|directory|] == '/' && path[|directory| + 1..] == name
  {
    directory + "/" + name
  }

  // ----- Validation -----

  /** `isExcelFile`: only the two spreadsheet content types are accepted; a missing one is not. */
  predicate IsExcelFile(file: MultipartFile)
  {
    match file.contentType
    case None => false
    case Some(t) => t == XLS_TYPE || t == XLSX_TYPE
  }

  /** `validateFiles`: the exception it throws, if any. */
  function ValidateFiles(studentsFile: MultipartFile, roomsFile: MultipartFile): (e: Option<Exception>)
    ensures e.Some? <==> !IsExcelFile(studentsFile) || !IsExcelFile(roomsFile)
    ensures e.Some? ==> e.value == Exception(IllegalArgument, Some(FORMAT_MESSAGE))
  {
    if !IsExcelFile(studentsFile) || !IsExcelFile(roomsFile) then
      Some(Exception(IllegalArgument, Some(FORMAT_MESSAGE)))
    else
      None
  }

  /**
   * Exactly the two spreadsheet types pass, compared case-sensitively and
   * whatever the file is called; a missing content type fails.
   */
  lemma ExcelContentTypes(file: MultipartFile)
    ensures IsExcelFile(file) <==> file.contentType == Some(XLS_TYPE) || file.contentType == Some(XLSX_TYPE)
    ensures !IsExcelFile(MultipartFile(Some("Application/vnd.ms-excel"), file.originalFilename))
    ensures !IsExcelFile(MultipartFile(None, file.originalFilename))
  {
    assert "Application/vnd.ms-excel"[0] != XLS_TYPE[0];
  }

  // ----- The arrangement selector -----

  datatype Arrangement = Alphabetical | ByRollNumber

  /** The `switch` on `type.toLowerCase()`. */
  function ParseArrangement(arrangementType: string): (a: Result<Arrangement, Exception>)
    ensures a == Ok(Alphabetical) <==> ToLower(arrangementType) == "alphabetical"
    ensures a == Ok(ByRollNumber) <==> ToLower(arrangementType) == "rollnumber"
    ensures a.Err? <==> ToLower(arrangementType) != "alphabetical" && ToLower(arrangementType) != "rollnumber"
    ensures a.Err? ==> a.error == Exception(IllegalArgument, Some(TYPE_MESSAGE))
  {
    var t := ToLower(arrangementType);
    if t == "alphabetical" then Ok(Alphabetical)
    else if t == "rollnumber" then Ok(ByRollNumber)
    else Err(Exception(IllegalArgument, Some(TYPE_MESSAGE)))
  }

  /** The selector ignores case: lower-casing it first changes nothing. */
  lemma ArrangementIgnoresCase(arrangementType: string)
    ensures ParseArrangement(ToLower(arrangementType)) == ParseArrangement(arrangementType)
    ensures ParseArrangement("Alphabetical") == Ok(Alphabetical)
    ensures ParseArrangement("ROLLNUMBER") == Ok(ByRollNumber)
    ensures ParseArrangement("rollNumber") == Ok(ByRollNumber)
    ensures ParseArrangement("roll-number").Err?
  {
    ToLowerIdempotent(arrangementType);
    assert ToLower("Alphabetical") == "alphabetical";
    assert ToLower("ROLLNUMBER") == "rollnumber";
    assert ToLower("rollNumber") == "rollnumber";
    assert ToLower("roll-number")[4] == '-';
  }

  /** The plan each arrangement produces from what the readers returned. */
  function Plan(arrangement: Arrangement, students: seq<Student>, rooms: seq<Room>): Layout
  {
    match arrangement
    case Alphabetical => Allocation(SortByName(students), rooms, NAME)
    case ByRollNumber => Allocation(students, rooms, ROLL_NUMBER)
  }

  // ----- The outcome and the response -----

  /** How `+` writes a possibly `null` message. */
  function MessageText(message: Option<string>): string
  {
    match message
    case None => "null"
    case Some(m) => m
  }

  /** The `try`/`catch` of `generateSeatingArrangement`: the body's outcome as a response. */
  function CatchResponse(outcome: Result<string, Exception>): (response: Response)
    ensures outcome.Ok? ==> response == Response(200, Some(SUCCESS_PREFIX + outcome.value))
    ensures outcome.Err? && outcome.error.kind == IllegalArgument ==>
              response == Response(400, outcome.error.message)
    ensures outcome.Err? && outcome.error.kind != IllegalArgument ==>
              response == Response(500, Some(ERROR_PREFIX + MessageText(outcome.error.message)))
  {
    match outcome
    case Ok(pdfPath) => Response(200, Some(SUCCESS_PREFIX + pdfPath))
    case Err(e) =>
      if e.kind == IllegalArgument then Response(400, e.message)
      else Response(500, Some(ERROR_PREFIX + MessageText(e.message)))
  }

  /** The status tells the three outcomes apart, and no other status is ever sent. */
  lemma StatusClassifies(outcome: Result<string, Exception>)
    ensures CatchResponse(outcome).status == 200 <==> outcome.Ok?
    ensures CatchResponse(outcome).status == 400 <==> outcome.Err? && outcome.error.kind == IllegalArgument
    ensures CatchResponse(outcome).status == 500 <==> outcome.Err? && outcome.error.kind != IllegalArgument
  {
  }

  // ----- The steps of the endpoint -----

  /** The exception `generateSeatingPDF` throws in place of `inner`: a `RuntimeException` carrying its message. */
  function RenderException(inner: Exception): Exception
  {
    Exception(OtherException, Some(ERROR_PREFIX + MessageText(inner.message)))
  }

  /** What saving one upload returns or throws, and the calls it makes. */
  function Saved(file: MultipartFile, tempDirectory: string, world: World): (Result<string, Exception>, seq<Effect>)
  {
    if file.originalFilename.None? then (Err(Exception(NullPointer, None)), [])
    else
      var path := Resolve(tempDirectory, file.originalFilename.value);
      (if world.writeFailure(path).Some? then Err(world.writeFailure(path).value) else Ok(path), [WriteFile(path)])
  }

  /** What processing the two saved sheets returns or throws, and the calls it makes. */
  function Processed(studentPath: string, roomPath: string, arrangementType: string, world: World)
    : (Result<Layout, Exception>, seq<Effect>)
  {
    var students := world.readStudents(studentPath);
    var rooms := world.readRooms(roomPath);
    var arrangement := ParseArrangement(arrangementType);
    if students.Err? then (Err(students.error), [ReadStudents(studentPath)])
    else if rooms.Err? then (Err(rooms.error), [ReadStudents(studentPath), ReadRooms(roomPath)])
    else if arrangement.Err? then (Err(arrangement.error), [ReadStudents(studentPath), ReadRooms(roomPath)])
    else (Ok(Plan(arrangement.value, students.value, rooms.value)), [ReadStudents(studentPath), ReadRooms(roomPath)])
  }

  /** What rendering a plan returns or throws, and the call it makes. */
  function Rendered(plan: Layout, tempDirectory: string, world: World): (Result<string, Exception>, seq<Effect>)
  {
    var path := Resolve(tempDirectory, PDF_NAME);
    var failure := world.renderFailure(plan, path);
    (if failure.Some? then Err(RenderException(failure.value)) else Ok(path), [RenderPdf(path, plan)])
  }

  /**
   * The steps of the `try` before rendering: create the temporary directory,
   * save both uploads, process them. The first step that throws ends the
   * sequence with its exception; the calls are those made up to it.
   */
  function Preparation(studentsFile: MultipartFile, roomsFile: MultipartFile, arrangementType: string, world: World)
    : (p: (Result<Layout, Exception>, seq<Effect>))
    ensures p.0.Ok? ==> world.tempDirectory.Ok?
  {
    if world.tempDirectory.Err? then (Err(world.tempDirectory.error), [CreateTempDirectory])
    else
      var dir := world.tempDirectory.value;
      var students := Saved(studentsFile, dir, world);
      var rooms := Saved(roomsFile, dir, world);
      if students.0.Err? then (Err(students.0.error), [CreateTempDirectory] + students.1)
      else if rooms.0.Err? then (Err(rooms.0.error), [CreateTempDirectory] + students.1 + rooms.1)
      else
        var processed := Processed(students.0.value, rooms.0.value, arrangementType, world);
        (processed.0, [CreateTempDirectory] + students.1 + rooms.1 + processed.1)
  }

  /** The outcome of the whole `try` and the calls it makes: validation, preparation, rendering. */
  function RunOutcome(studentsFile: MultipartFile, roomsFile: MultipartFile, arrangementType: string, world: World)
    : (Result<string, Exception>, seq<Effect>)
  {
    var invalid := ValidateFiles(studentsFile, roomsFile);
    var prepared := Preparation(studentsFile, roomsFile, arrangementType, world);
    if invalid.Some? then (Err(invalid.value), [])
    else if prepared.0.Err? then (Err(prepared.0.error), prepared.1)
    else
      var rendered := Rendered(prepared.0.value, world.tempDirectory.value, world);
      (rendered.0, prepared.1 + rendered.1)
  }

  /** The exception, if any, the outside world throws for one call. */
  function CallFailure(world: World, call: Effect): Option<Exception>
  {
    match call
    case CreateTempDirectory => if world.tempDirectory.Err? then Some(world.tempDirectory.error) else None
    case WriteFile(path) => world.writeFailure(path)
    case ReadStudents(path) => if world.readStudents(path).Err? then Some(world.readStudents(path).error) else None
    case ReadRooms(path) => if world.readRooms(path).Err? then Some(world.readRooms(path).error) else None
    case RenderPdf(path, plan) =>
      if world.renderFailure(plan, path).Some? then Some(RenderException(world.renderFailure(plan, path).value)) else None
  }

  /** The exceptions the endpoint throws itself, whatever the outside world does. */
  predicate OwnException(e: Exception)
  {
    e == Exception(IllegalArgument, Some(FORMAT_MESSAGE)) ||
    e == Exception(IllegalArgument, Some(TYPE_MESSAGE)) ||
    e == Exception(NullPointer, None)
  }

  /** The exception of a failed outcome. */
  function ErrorOf<T>(outcome: Result<T, Exception>): Option<Exception>
  {
    if outcome.Err? then Some(outcome.error) else None
  }

  /**
   * `calls` stopped at the first failure and `error` is what ended them: every
   * call but the last succeeded; when the last failed, its exception is
   * `error`; otherwise any `error` is one the endpoint throws itself.
   */
  predicate Stopped(world: World, error: Option<Exception>, calls: seq<Effect>)
  {
    (forall i :: 0 <= i < |calls| - 1 ==> CallFailure(world, calls[i]).None?) &&
    (calls != [] && CallFailure(world, calls[|calls| - 1]).Some? ==> error == CallFailure(world, calls[|calls| - 1])) &&
    (error.Some? && (calls == [] || CallFailure(world, calls[|calls| - 1]).None?) ==> OwnException(error.value))
  }

  /** Calls that all succeeded, followed by calls that stopped at a failure, stopped at that failure. */
  lemma StoppedAppend(world: World, before: seq<Effect>, error: Option<Exception>, after: seq<Effect>)
    requires Stopped(world, None, before) && Stopped(world, error, after)
    ensures Stopped(world, error, before + after)
  {
    var calls := before + after;
    if after == [] {
      assert calls == before;
    } else {
      forall i | 0 <= i < |calls| - 1
        ensures CallFailure(world, calls[i]).None?
      {
        if i >= |before| {
          assert calls[i] == after[i - |before|];
        } else if i < |before| - 1 {
        } else {
          assert calls[i] == before[|before| - 1];
        }
      }
      assert calls[|calls| - 1] == after[|after| - 1];
    }
  }

  lemma SavedStops(file: MultipartFile, tempDirectory: string, world: World)
    ensures Stopped(world, ErrorOf(Saved(file, tempDirectory, world).0), Saved(file, tempDirectory, world).1)
  {
  }

  lemma ProcessedStops(studentPath: string, roomPath: string, arrangementType: string, world: World)
    ensures var p := Processed(studentPath, roomPath, arrangementType, world);
            Stopped(world, ErrorOf(p.0), p.1)
  {
    var students, rooms := world.readStudents(studentPath), world.readRooms(roomPath);
    var both := [ReadStudents(studentPath), ReadRooms(roomPath)];
    if students.Ok? && rooms.Ok? {
      assert CallFailure(world, both[0]).None? && CallFailure(world, both[1]).None?;
      var arrangement := ParseArrangement(arrangementType);
      if arrangement.Err? {
        assert Processed(studentPath, roomPath, arrangementType, world) == (Err(arrangement.error), both);
      } else {
        assert ErrorOf(Processed(studentPath, roomPath, arrangementType, world).0).None?;
      }
    }
  }

  lemma PreparationStops(studentsFile: MultipartFile, roomsFile: MultipartFile, arrangementType: string, world: World)
    ensures var p := Preparation(studentsFile, roomsFile, arrangementType, world);
            |p.1| <= 5 && Stopped(world, ErrorOf(p.0), p.1)
  {
    if world.tempDirectory.Ok? {
      var dir := world.tempDirectory.value;
      var create := [CreateTempDirectory];
      assert Stopped(world, None, create);
      var students, rooms := Saved(studentsFile, dir, world), Saved(roomsFile, dir, world);
      SavedStops(studentsFile, dir, world);
      SavedStops(roomsFile, dir, world);
      StoppedAppend(world, create, ErrorOf(students.0), students.1);
      if students.0.Ok? {
        StoppedAppend(world, create + students.1, ErrorOf(rooms.0), rooms.1);
        if rooms.0.Ok? {
          var processed := Processed(students.0.value, rooms.0.value, arrangementType, world);
          ProcessedStops(students.0.value, rooms.0.value, arrangementType, world);
          StoppedAppend(world, create + students.1 + rooms.1, ErrorOf(processed.0), processed.1);
        }
      }
    }
  }

  /**
   * A run stops at its first failure (see `Stopped`): every call but the last
   * succeeded, a failed last call's exception is the outcome, and any other
   * failure is the endpoint's own check (file types, a missing file name, the
   * arrangement type). At most six calls are made.
   */
  lemma StopsAtFirstFailure(studentsFile: MultipartFile, roomsFile: MultipartFile, arrangementType: string,
                            world: World)
    ensures var r := RunOutcome(studentsFile, roomsFile, arrangementType, world);
            |r.1| <= 6 && Stopped(world, ErrorOf(r.0), r.1)
  {
    var p := Preparation(studentsFile, roomsFile, arrangementType, world);
    PreparationStops(studentsFile, roomsFile, arrangementType, world);
    if ValidateFiles(studentsFile, roomsFile).None? && p.0.Ok? {
      var rendered := Rendered(p.0.value, world.tempDirectory.value, world);
      StoppedAppend(world, p.1, ErrorOf(rendered.0), rendered.1);
    }
  }

  /** A temporary directory that cannot be created ends the run before any upload is saved; anything but an `IllegalArgumentException` is a 500. */
  lemma TempDirectoryFailure(studentsFile: MultipartFile, roomsFile: MultipartFile, arrangementType: string, world: World)
    requires ValidateFiles(studentsFile, roomsFile).None? && world.tempDirectory.Err?
    ensures RunOutcome(studentsFile, roomsFile, arrangementType, world) ==
              (Err(world.tempDirectory.error), [CreateTempDirectory])
    ensures world.tempDirectory.error.kind != IllegalArgument ==>
              CatchResponse(RunOutcome(studentsFile, roomsFile, arrangementType, world).0) ==
                Response(500, Some(ERROR_PREFIX + MessageText(world.tempDirectory.error.message)))
  {
  }

  /** A students' upload without a file name fails `requireNonNull` before any write: a 500 whose message is `null`. */
  lemma MissingFileName(studentsFile: MultipartFile, roomsFile: MultipartFile, arrangementType: string, world: World)
    requires ValidateFiles(studentsFile, roomsFile).None? && world.tempDirectory.Ok?
    requires studentsFile.originalFilename.None?
    ensures RunOutcome(studentsFile, roomsFile, arrangementType, world) ==
              (Err(Exception(NullPointer, None)), [CreateTempDirectory])
    ensures CatchResponse(RunOutcome(studentsFile, roomsFile, arrangementType, world).0) ==
              Response(500, Some(ERROR_PREFIX + "null"))
  {
    assert [CreateTempDirectory] + [] == [CreateTempDirectory];
  }

  /**
   * A rooms' upload without a file name fails `requireNonNull` after the
   * students' upload has been written and before anything is read: a 500 whose
   * message is `null`.
   */
  lemma RoomsMissingFileName(studentsFile: MultipartFile, roomsFile: MultipartFile, arrangementType: string, world: World)
    requires ValidateFiles(studentsFile, roomsFile).None? && world.tempDirectory.Ok?
    requires studentsFile.originalFilename.Some? && roomsFile.originalFilename.None?
    requires world.writeFailure(Resolve(world.tempDirectory.value, studentsFile.originalFilename.value)).None?
    ensures var path := Resolve(world.tempDirectory.value, studentsFile.originalFilename.value);
            RunOutcome(studentsFile, roomsFile, arrangementType, world) ==
              (Err(Exception(NullPointer, None)), [CreateTempDirectory, WriteFile(path)])
    ensures CatchResponse(RunOutcome(studentsFile, roomsFile, arrangementType, world).0) ==
              Response(500, Some(ERROR_PREFIX + "null"))
  {
    var path := Resolve(world.tempDirectory.value, studentsFile.originalFilename.value);
    assert Saved(studentsFile, world.tempDirectory.value, world).1 == [WriteFile(path)];
    assert [CreateTempDirectory] + [WriteFile(path)] + [] == [CreateTempDirectory, WriteFile(path)];
  }

  /** A failed write of the students' upload ends the run there: the rooms' upload is neither saved nor read. */
  lemma StudentsWriteFailure(studentsFile: MultipartFile, roomsFile: MultipartFile, arrangementType: string, world: World)
    requires ValidateFiles(studentsFile, roomsFile).None? && world.tempDirectory.Ok?
    requires studentsFile.originalFilename.Some?
    requires world.writeFailure(Resolve(world.tempDirectory.value, studentsFile.originalFilename.value)).Some?
    ensures var path := Resolve(world.tempDirectory.value, studentsFile.originalFilename.value);
            RunOutcome(studentsFile, roomsFile, arrangementType, world) ==
              (Err(world.writeFailure(path).value), [CreateTempDirectory, WriteFile(path)])
  {
    var path := Resolve(world.tempDirectory.value, studentsFile.originalFilename.value);
    assert Saved(studentsFile, world.tempDirectory.value, world).1 == [WriteFile(path)];
    assert [CreateTempDirectory] + [WriteFile(path)] == [CreateTempDirectory, WriteFile(path)];
  }

  /**
   * A students' sheet that cannot be read ends the run after both uploads are
   * saved and before the rooms' sheet is read. An `IllegalArgumentException`
   * from the reader is a 400 with its message; anything else, an
   * `IOException` included, is a 500.
   */
  lemma StudentsReadFailure(studentsFile: MultipartFile, roomsFile: MultipartFile, arrangementType: string, world: World)
    requires ValidateFiles(studentsFile, roomsFile).None? && world.tempDirectory.Ok?
    requires studentsFile.originalFilename.Some? && roomsFile.originalFilename.Some?
    requires world.writeFailure(Resolve(world.tempDirectory.value, studentsFile.originalFilename.value)).None?
    requires world.writeFailure(Resolve(world.tempDirectory.value, roomsFile.originalFilename.value)).None?
    requires world.readStudents(Resolve(world.tempDirectory.value, studentsFile.originalFilename.value)).Err?
    ensures var dir := world.tempDirectory.value;
            var studentPath := Resolve(dir, studentsFile.originalFilename.value);
            var e := world.readStudents(studentPath).error;
            RunOutcome(studentsFile, roomsFile, arrangementType, world) ==
              (Err(e), PreparedEffects(studentsFile, roomsFile, dir)[..4]) &&
            CatchResponse(Err(e)) ==
              (if e.kind == IllegalArgument then Response(400, e.message)
               else Response(500, Some(ERROR_PREFIX + MessageText(e.message))))
  {
    var dir := world.tempDirectory.value;
    var studentPath := Resolve(dir, studentsFile.originalFilename.value);
    var roomPath := Resolve(dir, roomsFile.originalFilename.value);
    var calls := [CreateTempDirectory, WriteFile(studentPath), WriteFile(roomPath), ReadStudents(studentPath)];
    assert [CreateTempDirectory] + [WriteFile(studentPath)] + [WriteFile(roomPath)] + [ReadStudents(studentPath)] == calls;
    assert PreparedEffects(studentsFile, roomsFile, dir)[..4] == calls;
    assert Preparation(studentsFile, roomsFile, arrangementType, world).1 == calls;
  }

  /**
   * A renderer failure is never a client fault: `generateSeatingPDF` wraps it,
   * so the response is a 500 whose body carries the error prefix twice.
   */
  lemma RenderFailure(studentsFile: MultipartFile, roomsFile: MultipartFile, arrangementType: string, world: World)
    requires ValidateFiles(studentsFile, roomsFile).None? && world.tempDirectory.Ok?
    requires Prepared(studentsFile, roomsFile, world, world.tempDirectory.value)
    requires ParseArrangement(arrangementType).Ok?
    requires var dir := world.tempDirectory.value;
             world.renderFailure(PreparedPlan(studentsFile, roomsFile, world, dir, ParseArrangement(arrangementType).value),
                                 Resolve(dir, PDF_NAME)).Some?
    ensures var dir := world.tempDirectory.value;
            var plan := PreparedPlan(studentsFile, roomsFile, world, dir, ParseArrangement(arrangementType).value);
            var inner := world.renderFailure(plan, Resolve(dir, PDF_NAME)).value;
            CatchResponse(RunOutcome(studentsFile, roomsFile, arrangementType, world).0) ==
              Response(500, Some(ERROR_PREFIX + ERROR_PREFIX + MessageText(inner.message)))
  {
    var dir := world.tempDirectory.value;
    var studentPath := Resolve(dir, studentsFile.originalFilename.value);
    var roomPath := Resolve(dir, roomsFile.originalFilename.value);
    var plan := PreparedPlan(studentsFile, roomsFile, world, dir, ParseArrangement(arrangementType).value);
    assert Processed(studentPath, roomPath, arrangementType, world).0 == Ok(plan);
    assert Preparation(studentsFile, roomsFile, arrangementType, world).0 == Ok(plan);
    assert (ERROR_PREFIX + ERROR_PREFIX) + MessageText(world.renderFailure(plan, Resolve(dir, PDF_NAME)).value.message) ==
             ERROR_PREFIX + (ERROR_PREFIX + MessageText(world.renderFailure(plan, Resolve(dir, PDF_NAME)).value.message));
  }

  /** `saveMultipartFile`: the path written, or the exception thrown. */
  method SaveMultipartFile(file: MultipartFile, tempDirectory: string, world: World)
    returns (saved: Result<string, Exception>, effects: seq<Effect>)
    ensures (saved, effects) == Saved(file, tempDirectory, world)
    ensures file.originalFilename.None? ==>
              saved == Err(Exception(NullPointer, None)) && effects == []
    ensures file.originalFilename.Some? ==>
              var path := Resolve(tempDirectory, file.originalFilename.value);
              effects == [WriteFile(path)] &&
              saved == (if world.writeFailure(path).Some? then Err(world.writeFailure(path).value) else Ok(path))
  {
    if file.originalFilename.None? {
      return Err(Exception(NullPointer, None)), [];
    }
    var filePath := Resolve(tempDirectory, file.originalFilename.value);
    effects := [WriteFile(filePath)];
    var failure := world.writeFailure(filePath);
    if failure.Some? {
      return Err(failure.value), effects;
    }
    saved := Ok(filePath);
  }

  /** `processSeatingArrangement`: read both sheets, then dispatch on the arrangement type. */
  method ProcessSeatingArrangement(studentPath: string, roomPath: string, arrangementType: string, world: World)
    returns (plan: Result<Layout, Exception>, effects: seq<Effect>)
    ensures (plan, effects) == Processed(studentPath, roomPath, arrangementType, world)
    ensures world.readStudents(studentPath).Err? ==>
              plan == Err(world.readStudents(studentPath).error) && effects == [ReadStudents(studentPath)]
    ensures world.readStudents(studentPath).Ok? && world.readRooms(roomPath).Err? ==>
              plan == Err(world.readRooms(roomPath).error) &&
              effects == [ReadStudents(studentPath), ReadRooms(roomPath)]
    ensures world.readStudents(studentPath).Ok? && world.readRooms(roomPath).Ok? ==>
              effects == [ReadStudents(studentPath), ReadRooms(roomPath)] &&
              var arrangement := ParseArrangement(arrangementType);
              plan == (if arrangement.Ok?
                       then Ok(Plan(arrangement.value, world.readStudents(studentPath).value, world.readRooms(roomPath).value))
                       else Err(arrangement.error))
  {
    effects := [ReadStudents(studentPath)];
    var readStudents := world.readStudents(studentPath);
    if readStudents.Err? {
      return Err(readStudents.error), effects;
    }
    effects := [ReadStudents(studentPath), ReadRooms(roomPath)];
    var readRooms := world.readRooms(roomPath);
    if readRooms.Err? {
      return Err(readRooms.error), effects;
    }
    var studentList := readStudents.value;
    var students := new Student[|studentList|](i requires 0 <= i < |studentList| => studentList[i]);
    assert students[..] == studentList;
    var arrangement := ParseArrangement(arrangementType);
    match arrangement {
      case Ok(Alphabetical) =>
        var roomSeating, _ := AllocateAlphabetically(students, readRooms.value);
        plan := Ok(roomSeating);
      case Ok(ByRollNumber) =>
        var roomSeating, _ := AllocateByRollNumber(students, readRooms.value);
        plan := Ok(roomSeating);
      case Err(e) =>
        plan := Err(e);
    }
  }

  /**
   * `generatePDF`: render the plan next to the uploads and return the PDF's
   * path. Whatever the renderer throws reaches the caller wrapped by
   * `generateSeatingPDF`, never as an `IllegalArgumentException`.
   */
  method GeneratePdf(plan: Layout, tempDirectory: string, world: World)
    returns (pdfPath: Result<string, Exception>, effects: seq<Effect>)
    ensures (pdfPath, effects) == Rendered(plan, tempDirectory, world)
    ensures effects == [RenderPdf(Resolve(tempDirectory, PDF_NAME), plan)]
    ensures var failure := world.renderFailure(plan, Resolve(tempDirectory, PDF_NAME));
            pdfPath == (if failure.Some? then Err(RenderException(failure.value)) else Ok(Resolve(tempDirectory, PDF_NAME)))
    ensures pdfPath.Err? ==> pdfPath.error.kind == OtherException
  {
    var pdfOutputPath := Resolve(tempDirectory, PDF_NAME);
    effects := [RenderPdf(pdfOutputPath, plan)];
    var failure := world.renderFailure(plan, pdfOutputPath);
    if failure.Some? {
      return Err(RenderException(failure.value)), effects;
    }
    pdfPath := Ok(pdfOutputPath);
  }

  /** Every upload is present and writable, and both sheets read. */
  predicate Prepared(studentsFile: MultipartFile, roomsFile: MultipartFile, world: World, tempDirectory: string)
  {
    studentsFile.originalFilename.Some? && roomsFile.originalFilename.Some? &&
    world.writeFailure(Resolve(tempDirectory, studentsFile.originalFilename.value)).None? &&
    world.writeFailure(Resolve(tempDirectory, roomsFile.originalFilename.value)).None? &&
    world.readStudents(Resolve(tempDirectory, studentsFile.originalFilename.value)).Ok? &&
    world.readRooms(Resolve(tempDirectory, roomsFile.originalFilename.value)).Ok?
  }

  /** The calls a run makes when every step up to the allocation succeeds. */
  function PreparedEffects(studentsFile: MultipartFile, roomsFile: MultipartFile, tempDirectory: string): seq<Effect>
    requires studentsFile.originalFilename.Some? && roomsFile.originalFilename.Some?
  {
    var studentPath := Resolve(tempDirectory, studentsFile.originalFilename.value);
    var roomPath := Resolve(tempDirectory, roomsFile.originalFilename.value);
    [CreateTempDirectory, WriteFile(studentPath), WriteFile(roomPath), ReadStudents(studentPath), ReadRooms(roomPath)]
  }

  /** The plan a prepared run hands to the renderer. */
  function PreparedPlan(studentsFile: MultipartFile, roomsFile: MultipartFile, world: World, tempDirectory: string,
                        arrangement: Arrangement): Layout
    requires Prepared(studentsFile, roomsFile, world, tempDirectory)
  {
    Plan(arrangement,
         world.readStudents(Resolve(tempDirectory, studentsFile.originalFilename.value)).value,
         world.readRooms(Resolve(tempDirectory, roomsFile.originalFilename.value)).value)
  }

  /** No call in `effects` renders a PDF. */
  predicate NoRender(effects: seq<Effect>)
  {
    forall i :: 0 <= i < |effects| ==> !effects[i].RenderPdf?
  }

  /** The steps of the `try` before rendering: temporary directory, both uploads, the allocation. */
  method Prepare(studentsFile: MultipartFile, roomsFile: MultipartFile, arrangementType: string, world: World)
    returns (plan: Result<Layout, Exception>, effects: seq<Effect>)
    ensures (plan, effects) == Preparation(studentsFile, roomsFile, arrangementType, world)
    ensures |effects| >= 1 && effects[0] == CreateTempDirectory && NoRender(effects)
    ensures world.tempDirectory.Err? ==> plan == Err(world.tempDirectory.error) && effects == [CreateTempDirectory]
    ensures world.tempDirectory.Ok? && Prepared(studentsFile, roomsFile, world, world.tempDirectory.value) ==>
              effects == PreparedEffects(studentsFile, roomsFile, world.tempDirectory.value) &&
              var arrangement := ParseArrangement(arrangementType);
              plan == (if arrangement.Err? then Err(arrangement.error)
                       else Ok(PreparedPlan(studentsFile, roomsFile, world, world.tempDirectory.value, arrangement.value)))
    ensures plan.Ok? ==>
              world.tempDirectory.Ok? && Prepared(studentsFile, roomsFile, world, world.tempDirectory.value) &&
              ParseArrangement(arrangementType).Ok?
    ensures |effects| <= 5 && Stopped(world, ErrorOf(plan), effects)
  {
    PreparationStops(studentsFile, roomsFile, arrangementType, world);
    effects := [CreateTempDirectory];
    if world.tempDirectory.Err? {
      return Err(world.tempDirectory.error), effects;
    }
    var tempDirectory := world.tempDirectory.value;
    var studentFile, e1 := SaveMultipartFile(studentsFile, tempDirectory, world);
    effects := effects + e1;
    if studentFile.Err? {
      return Err(studentFile.error), effects;
    }
    var roomFile, e2 := SaveMultipartFile(roomsFile, tempDirectory, world);
    effects := effects + e2;
    if roomFile.Err? {
      return Err(roomFile.error), effects;
    }
    var e3;
    plan, e3 := ProcessSeatingArrangement(studentFile.value, roomFile.value, arrangementType, world);
    effects := effects + e3;
  }

  /** The body of the `try` in `generateSeatingArrangement`. */
  method Run(studentsFile: MultipartFile, roomsFile: MultipartFile, arrangementType: string, world: World)
    returns (outcome: Result<string, Exception>, effects: seq<Effect>)
    ensures (outcome, effects) == RunOutcome(studentsFile, roomsFile, arrangementType, world)
    ensures ValidateFiles(studentsFile, roomsFile).Some? ==>
              outcome == Err(ValidateFiles(studentsFile, roomsFile).value) && effects == []
    ensures ValidateFiles(studentsFile, roomsFile).None? ==> |effects| >= 1 && effects[0] == CreateTempDirectory
    ensures ValidateFiles(studentsFile, roomsFile).None? && world.tempDirectory.Err? ==>
              outcome == Err(world.tempDirectory.error) && effects == [CreateTempDirectory]
    ensures ValidateFiles(studentsFile, roomsFile).None? && world.tempDirectory.Ok? &&
            Prepared(studentsFile, roomsFile, world, world.tempDirectory.value) ==>
              var dir := world.tempDirectory.value;
              var arrangement := ParseArrangement(arrangementType);
              if arrangement.Err? then
                outcome == Err(arrangement.error) && effects == PreparedEffects(studentsFile, roomsFile, dir)
              else
                var pdfPath := Resolve(dir, PDF_NAME);
                var plan := PreparedPlan(studentsFile, roomsFile, world, dir, arrangement.value);
                effects == PreparedEffects(studentsFile, roomsFile, dir) + [RenderPdf(pdfPath, plan)] &&
                outcome == (if world.renderFailure(plan, pdfPath).Some?
                            then Err(RenderException(world.renderFailure(plan, pdfPath).value)) else Ok(pdfPath))
    ensures outcome.Ok? ==>
              ValidateFiles(studentsFile, roomsFile).None? && world.tempDirectory.Ok? &&
              Prepared(studentsFile, roomsFile, world, world.tempDirectory.value) &&
              ParseArrangement(arrangementType).Ok? &&
              outcome.value == Resolve(world.tempDirectory.value, PDF_NAME)
    ensures forall i :: 0 <= i < |effects| && effects[i].RenderPdf? ==>
              i == |effects| - 1 && ParseArrangement(arrangementType).Ok?
    ensures |effects| <= 6 && Stopped(world, ErrorOf(outcome), effects)
  {
    StopsAtFirstFailure(studentsFile, roomsFile, arrangementType, world);
    var invalid := ValidateFiles(studentsFile, roomsFile);
    if invalid.Some? {
      return Err(invalid.value), [];
    }
    var seatingPlan;
    seatingPlan, effects := Prepare(studentsFile, roomsFile, arrangementType, world);
    if seatingPlan.Err? {
      return Err(seatingPlan.error), effects;
    }
    var prepared := effects;
    var pdfPath, e4 := GeneratePdf(seatingPlan.value, world.tempDirectory.value, world);
    effects := prepared + e4;
    assert forall i :: 0 <= i < |prepared| ==> effects[i] == prepared[i];
    outcome := pdfPath;
  }

  /** `generateSeatingArrangement`: run the steps and catch what they throw. */
  method GenerateSeatingArrangement(studentsFile: MultipartFile, roomsFile: MultipartFile, arrangementType: string,
                                    world: World)
    returns (response: Response, effects: seq<Effect>)
    ensures response == CatchResponse(RunOutcome(studentsFile, roomsFile, arrangementType, world).0)
    ensures effects == RunOutcome(studentsFile, roomsFile, arrangementType, world).1
    ensures ValidateFiles(studentsFile, roomsFile).Some? ==>
              response == Response(400, Some(FORMAT_MESSAGE)) && effects == []
    ensures response.status == 200 || response.status == 400 || response.status == 500
    ensures response.status == 200 ==>
              world.tempDirectory.Ok? && ParseArrangement(arrangementType).Ok? &&
              response.body == Some(SUCCESS_PREFIX + Resolve(world.tempDirectory.value, PDF_NAME))
    ensures ValidateFiles(studentsFile, roomsFile).None? && world.tempDirectory.Ok? &&
            Prepared(studentsFile, roomsFile, world, world.tempDirectory.value) &&
            ParseArrangement(arrangementType).Err? ==>
              response == Response(400, Some(TYPE_MESSAGE)) &&
              effects == PreparedEffects(studentsFile, roomsFile, world.tempDirectory.value)
    ensures ValidateFiles(studentsFile, roomsFile).None? && world.tempDirectory.Ok? &&
            Prepared(studentsFile, roomsFile, world, world.tempDirectory.value) &&
            ParseArrangement(arrangementType).Ok? ==>
              var dir := world.tempDirectory.value;
              var pdfPath := Resolve(dir, PDF_NAME);
              var plan := PreparedPlan(studentsFile, roomsFile, world, dir, ParseArrangement(arrangementType).value);
              effects == PreparedEffects(studentsFile, roomsFile, dir) + [RenderPdf(pdfPath, plan)] &&
              response == CatchResponse(if world.renderFailure(plan, pdfPath).Some?
                                        then Err(RenderException(world.renderFailure(plan, pdfPath).value))
                                        else Ok(pdfPath))
  {
    var outcome;
    outcome, effects := Run(studentsFile, roomsFile, arrangementType, world);
    StatusClassifies(outcome);
    response := CatchResponse(outcome);
  }
}
