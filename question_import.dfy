/** The question bank's write permission and the bulk import of questions
    from an uploaded CSV file (backend/questions/views.py). The file arrives
    already split into rows: each row maps a header name to its cell, and a
    header the row has no cell for is absent from the map. */
module QuestionImport {
  import opened Common
  import opened InterviewModels

  // ------------------------------------------------------------------ permission

  /** The authenticated user behind a request, if any. */
  datatype Requester = Anonymous | SignedIn(role: Role)

  /** Django REST framework's safe methods. */
  const SAFE_METHODS: seq<string> := ["GET", "HEAD", "OPTIONS"]

  predicate IsAdmin(user: Requester)
  {
    user.SignedIn? && user.role == Admin
  }

  /** Lines 16-19: `IsAdminOrReadOnly.has_permission`. */
  predicate HasPermission(httpMethod: string, user: Requester)
  {
    httpMethod in SAFE_METHODS || IsAdmin(user)
  }

  /** Reading is open to everyone; anything else only to a signed-in admin. */
  lemma PermissionCases(httpMethod: string, user: Requester)
    ensures httpMethod in SAFE_METHODS ==> HasPermission(httpMethod, user)
    ensures httpMethod !in SAFE_METHODS ==> (HasPermission(httpMethod, user) <==> user.SignedIn? && user.role == Admin)
    ensures !HasPermission(httpMethod, user) ==> httpMethod != "GET" && httpMethod != "HEAD" && httpMethod != "OPTIONS"
  {
  }

  // ------------------------------------------------------------------ one row

  type Row = map<string, string>

  /** A question the import creates; the table hands out its key. */
  datatype ImportedQuestion = ImportedQuestion(text: string, topic: string, difficulty: string, timeRequired: int)

  datatype RowResult = Created(question: ImportedQuestion) | Rejected(message: string)

  /** Line 55, in this order. */
  const REQUIRED_FIELDS: seq<string> := ["text", "topic", "difficulty", "time_required"]

  const DIFFICULTIES: seq<string> := ["easy", "medium", "hard"]

  /** `row.get(field)` is truthy: the cell is there and not empty. */
  predicate Present(row: Row, field: string)
  {
    field in row && row[field] != ""
  }

  function AbsentIn(row: Row): string -> bool
  {
    (f: string) => !Present(row, f)
  }

  /** Line 56: the required fields the row lacks, in the order they are required. */
  function MissingFields(row: Row): seq<string>
  {
    Filter(REQUIRED_FIELDS, AbsentIn(row))
  }

  /** `sep.join(cells)` in Python. */
  function JoinWith(cells: seq<string>, sep: string): string
  {
    if |cells| == 0 then "" else if |cells| == 1 then cells[0] else cells[0] + sep + JoinWith(cells[1..], sep)
  }

  function RowPrefix(rowNum: int): string
  {
    "Row " + IntToString(rowNum) + ": "
  }

  predicate AllPresent(row: Row)
  {
    Present(row, "text") && Present(row, "topic") && Present(row, "difficulty") && Present(row, "time_required")
  }

  /** A row is missing nothing exactly when each required field is there. */
  lemma NoneMissing(row: Row)
    ensures MissingFields(row) == [] <==> AllPresent(row)
  {
    FilterMembers(REQUIRED_FIELDS, AbsentIn(row));
    var missing := MissingFields(row);
    if !Present(row, "text") {
      assert "text" in missing;
    } else if !Present(row, "topic") {
      assert "topic" in missing;
    } else if !Present(row, "difficulty") {
      assert "difficulty" in missing;
    } else if !Present(row, "time_required") {
      assert "time_required" in missing;
      assert missing != [] && !AllPresent(row);
    } else {
      forall f | f in missing ensures false {
        FilterMember(REQUIRED_FIELDS, AbsentIn(row), f);
      }
      HeadMember(missing);
    }
  }

  /** A row that passes every check. */
  predicate ValidRow(row: Row)
  {
    && AllPresent(row)
    && row["difficulty"] in DIFFICULTIES
    && ParsePyInt(row["time_required"]).Some?
    && ParsePyInt(row["time_required"]).value > 0
  }

  /** Lines 53-84 for one row: the first failed check gives the row's error,
      otherwise the question the row creates. */
  function CheckRow(rowNum: int, row: Row): (r: RowResult)
    ensures r.Created? <==> ValidRow(row)
    ensures r.Created? ==>
      && r.question.text == Strip(row["text"]) && r.question.topic == Strip(row["topic"])
      && r.question.difficulty == row["difficulty"]
      && Some(r.question.timeRequired) == ParsePyInt(row["time_required"]) && r.question.timeRequired > 0
    ensures r.Rejected? ==> RowPrefix(rowNum) <= r.message
  {
    NoneMissing(row);
    var missing := MissingFields(row);
    if missing != [] then
      Rejected(RowPrefix(rowNum) + "Missing fields: " + JoinWith(missing, ", "))
    else
      var difficulty := row["difficulty"];
      if difficulty !in DIFFICULTIES then
        Rejected(RowPrefix(rowNum) + "Invalid difficulty '" + difficulty + "'. Must be easy, medium, or hard")
      else
        match ParsePyInt(row["time_required"])
        case None => Rejected(RowPrefix(rowNum) + "time_required must be a number")
        case Some(t) =>
          if t <= 0 then Rejected(RowPrefix(rowNum) + "time_required must be positive")
          else
            LowerDifficulty(difficulty);
            Created(ImportedQuestion(Strip(row["text"]), Strip(row["topic"]), ToLower(difficulty), t))
  }

  /** Line 81 lowercases a difficulty that is already lowercase. */
  lemma LowerDifficulty(d: string)
    requires d in DIFFICULTIES
    ensures ToLower(d) == d
  {
    if d == "easy" {
      assert ToLower(d) == "easy";
    } else if d == "medium" {
      assert ToLower(d) == "medium";
    } else {
      assert ToLower(d) == "hard";
    }
  }

  /** A row lacking any required field is rejected with the list of what it lacks, and nothing else is checked. */
  lemma MissingFieldsFirst(rowNum: int, row: Row, f: string)
    requires f in REQUIRED_FIELDS && !Present(row, f)
    ensures f in MissingFields(row)
    ensures CheckRow(rowNum, row) == Rejected(RowPrefix(rowNum) + "Missing fields: " + JoinWith(MissingFields(row), ", "))
  {
    FilterMembers(REQUIRED_FIELDS, AbsentIn(row));
    NoneMissing(row);
  }

  // ------------------------------------------------------------------ all rows

  /** Line 52: data rows are numbered from 2, the header being row 1. */
  function Results(rows: seq<Row>): (rs: seq<RowResult>)
    ensures |rs| == |rows|
    ensures forall i :: 0 <= i < |rows| ==> rs[i] == CheckRow(i + 2, rows[i])
  {
    seq(|rows|, i requires 0 <= i < |rows| => CheckRow(i + 2, rows[i]))
  }

  function CreatedQuestions(rs: seq<RowResult>): seq<ImportedQuestion>
  {
    if rs == [] then []
    else CreatedQuestions(rs[..|rs| - 1]) + (if rs[|rs| - 1].Created? then [rs[|rs| - 1].question] else [])
  }

  function ErrorMessages(rs: seq<RowResult>): seq<string>
  {
    if rs == [] then []
    else ErrorMessages(rs[..|rs| - 1]) + (if rs[|rs| - 1].Rejected? then [rs[|rs| - 1].message] else [])
  }

  /** One more row adds its question or its error, and nothing else. */
  lemma ResultsStep(rs: seq<RowResult>, i: nat)
    requires i < |rs|
    ensures CreatedQuestions(rs[..i + 1]) == CreatedQuestions(rs[..i]) + (if rs[i].Created? then [rs[i].question] else [])
    ensures ErrorMessages(rs[..i + 1]) == ErrorMessages(rs[..i]) + (if rs[i].Rejected? then [rs[i].message] else [])
  {
    assert rs[..i + 1][..i] == rs[..i];
  }

  predicate IsCreated(r: RowResult)
  {
    r.Created?
  }

  /** Every row yields exactly one question or one error; the questions are
      as many as the rows that pass. */
  lemma {:induction false} ResultCounts(rs: seq<RowResult>)
    ensures |CreatedQuestions(rs)| + |ErrorMessages(rs)| == |rs|
    ensures |CreatedQuestions(rs)| == Count(rs, IsCreated)
    ensures forall q :: q in CreatedQuestions(rs) ==> Created(q) in rs
  {
    if rs != [] {
      ResultCounts(rs[..|rs| - 1]);
    }
  }

  /** The rows that pass, counted on the rows themselves. */
  lemma {:induction false} CreatedCountsValidRows(rows: seq<Row>)
    ensures |CreatedQuestions(Results(rows))| == Count(rows, ValidRow)
  {
    if rows != [] {
      var init := rows[..|rows| - 1];
      CreatedCountsValidRows(init);
      assert Results(rows)[..|rows| - 1] == Results(init);
    }
  }

  // ------------------------------------------------------------------ reporting

  /** The text of the line that stands for the errors beyond the first ten. */
  function MoreErrors(n: nat): string
  {
    "... and " + IntToString(n) + " more errors"
  }

  /** Lines 95-98: no `errors` key without errors; otherwise the first ten
      errors, followed by one line counting the rest when there are more. */
  function ReportErrors(errors: seq<string>): (r: Option<seq<string>>)
    ensures r.None? <==> errors == []
    ensures r.Some? ==> |r.value| == Min(|errors|, 10) + (if |errors| > 10 then 1 else 0)
    ensures r.Some? ==> r.value[..Min(|errors|, 10)] == errors[..Min(|errors|, 10)]
    ensures r.Some? && |errors| > 10 ==> r.value[10] == MoreErrors(|errors| - 10)
  {
    if errors == [] then None
    else if |errors| <= 10 then Some(errors)
    else Some(errors[..10] + [MoreErrors(|errors| - 10)])
  }

  // ------------------------------------------------------------------ the endpoint

  /** An uploaded file with the data rows the CSV reader yields. */
  datatype Upload = Upload(name: string, rows: seq<Row>)

  datatype ImportReply =
    /** Line 27: `IsAuthenticated` refuses a request without credentials
        before `post` runs. */
    | NotAuthenticated
    | Forbidden
    | BadRequest(message: string)
    /** Line 103: the text is Python's message for the exception. */
    | ProcessingFailed
    | Imported(created: nat, totalRowsProcessed: nat, errors: Option<seq<string>>)

  const NOT_AUTHENTICATED: string := "Authentication credentials were not provided."
  const ADMIN_REQUIRED: string := "Admin access required."
  const NO_FILE: string := "No file uploaded."
  const NOT_CSV: string := "Please upload a CSV file."

  function Status(r: ImportReply): int
  {
    match r
    case NotAuthenticated => UNAUTHORIZED
    case Forbidden => FORBIDDEN
    case BadRequest(_) => BAD_REQUEST
    case ProcessingFailed => BAD_REQUEST
    case Imported(_, _, _) => 200
  }

  /** Lines 29-103: the reply, and the questions the import creates. A file
      without data rows leaves `row_num` unbound at line 92, which the outer
      handler turns into a 400. The anonymous test of line 31 is never
      reached, because line 27 has already refused such a request. */
  function ImportReplyFor(user: Requester, file: Option<Upload>): (r: ImportReply)
    ensures Status(r) == 200 <==> r.Imported?
    ensures r.Imported? ==> IsAdmin(user) && file.Some? && EndsWith(file.value.name, ".csv") && file.value.rows != []
    ensures r.Imported? ==> r.totalRowsProcessed == |file.value.rows| && r.created <= r.totalRowsProcessed
  {
    if user.Anonymous? then NotAuthenticated
    else if !IsAdmin(user) then Forbidden
    else if file.None? then BadRequest(NO_FILE)
    else if !EndsWith(file.value.name, ".csv") then BadRequest(NOT_CSV)
    else if file.value.rows == [] then ProcessingFailed
    else
      var rs := Results(file.value.rows);
      ResultCounts(rs);
      Imported(|CreatedQuestions(rs)|, |file.value.rows|, ReportErrors(ErrorMessages(rs)))
  }

  function ImportedQuestions(user: Requester, file: Option<Upload>): seq<ImportedQuestion>
  {
    if !IsAdmin(user) || file.None? || !EndsWith(file.value.name, ".csv") then []
    else CreatedQuestions(Results(file.value.rows))
  }

  /** The checks run in order (credentials, admin, then a file, then its name), an empty
      file creates nothing and fails, and otherwise `created` counts the rows
      that pass, `total_rows_processed` counts all data rows, and every
      created question comes from a row that passed. */
  lemma ImportOutcome(user: Requester, file: Option<Upload>)
    ensures var r := ImportReplyFor(user, file);
      && (user.Anonymous? ==> r == NotAuthenticated && Status(r) == UNAUTHORIZED)
      && (user.SignedIn? && !IsAdmin(user) ==> r == Forbidden && Status(r) == FORBIDDEN)
      && (IsAdmin(user) && file.None? ==> r == BadRequest(NO_FILE))
      && (IsAdmin(user) && file.Some? && !EndsWith(file.value.name, ".csv") ==> r == BadRequest(NOT_CSV))
      && (r.Imported? ==> file.Some? && file.value.rows != [])
      && (IsAdmin(user) && file.Some? && EndsWith(file.value.name, ".csv") ==>
            && (file.value.rows == [] <==> Status(r) == BAD_REQUEST)
            && (file.value.rows != [] ==>
                  && r.created == Count(file.value.rows, ValidRow) == |ImportedQuestions(user, file)|
                  && r.totalRowsProcessed == |file.value.rows|
                  && r.created <= r.totalRowsProcessed
                  && (r.errors.None? <==> r.created == r.totalRowsProcessed)))
  {
    if IsAdmin(user) && file.Some? && EndsWith(file.value.name, ".csv") && file.value.rows != [] {
      var rows := file.value.rows;
      var rs := Results(rows);
      ResultCounts(rs);
      CreatedCountsValidRows(rows);
      assert ImportReplyFor(user, file) == Imported(|CreatedQuestions(rs)|, |rows|, ReportErrors(ErrorMessages(rs)));
    }
  }

  /** Lines 49-87: the loop over the rows, collecting the created questions and the errors. */
  method CheckRows(rows: seq<Row>) returns (added: seq<ImportedQuestion>, errors: seq<string>)
    ensures added == CreatedQuestions(Results(rows))
    ensures errors == ErrorMessages(Results(rows))
  {
    ghost var rs := Results(rows);
    added := [];
    errors := [];
    for i := 0 to |rows|
      invariant added == CreatedQuestions(rs[..i])
      invariant errors == ErrorMessages(rs[..i])
    {
      var result := CheckRow(i + 2, rows[i]);
      ResultsStep(rs, i);
      match result
      case Rejected(message) =>
        errors := errors + [message];
      case Created(q) =>
        added := added + [q];
    }
    assert rs[..|rows|] == rs;
  }

  /** Lines 95-98, truncating and extending the error list. */
  method Report(errors: seq<string>) returns (report: Option<seq<string>>)
    ensures report == ReportErrors(errors)
  {
    report := None;
    if errors != [] {
      var shown := errors[..Min(|errors|, 10)];
      assert |errors| <= 10 ==> shown == errors;
      if |errors| > 10 {
        shown := shown + [MoreErrors(|errors| - 10)];
      }
      report := Some(shown);
    }
  }

  /** Lines 29-100. */
  method BulkImport(user: Requester, file: Option<Upload>) returns (reply: ImportReply, added: seq<ImportedQuestion>)
    ensures reply == ImportReplyFor(user, file)
    ensures added == ImportedQuestions(user, file)
  {
    added := [];
    if user.Anonymous? {
      return NotAuthenticated, added;
    }
    if !IsAdmin(user) {
      return Forbidden, added;
    }
    if file.None? {
      return BadRequest(NO_FILE), added;
    }
    var upload := file.value;
    if !EndsWith(upload.name, ".csv") {
      return BadRequest(NOT_CSV), added;
    }
    var rows := upload.rows;
    var errors;
    added, errors := CheckRows(rows);
    if rows == [] {
      return ProcessingFailed, added;
    }
    var report := Report(errors);
    reply := Imported(|added|, |rows|, report);
  }
}
