/** The admin dashboard's client-side logic (frontend/src/pages/AdminDashboard.js):
    the question export and candidate summary CSV files, the score badge,
    the payload a question edit saves, and the check made before an import
    is uploaded. */
module AdminDashboard {
  import opened Common
  import opened Scores
  import QI = QuestionImport

  // ------------------------------------------------------------------ CSV text

  /** A template literal that wraps a cell in double quotes, escaping nothing. */
  function Quote(s: string): (r: string)
    ensures |r| == |s| + 2 && r[0] == '"' && r[|r| - 1] == '"' && r[1..|r| - 1] == s
  {
    "\"" + s + "\""
  }

  /** Line 135 (and 215): each row's cells joined by commas, the rows by newlines. */
  function Lines(rows: seq<seq<string>>): (lines: seq<string>)
    ensures |lines| == |rows|
    ensures forall i :: 0 <= i < |rows| ==> lines[i] == Join(rows[i], ',')
  {
    seq(|rows|, i requires 0 <= i < |rows| => Join(rows[i], ','))
  }

  function CsvContent(rows: seq<seq<string>>): string
  {
    Join(Lines(rows), '\n')
  }

  /** A cell that holds neither separator. */
  predicate Plain(s: string)
  {
    ',' !in s && '\n' !in s
  }

  /** Round trip: for a table of one or more rows without empty rows whose
      cells hold no separator, splitting the text at newlines and then at
      commas gives the table back. */
  lemma CsvRoundTrip(rows: seq<seq<string>>)
    requires |rows| >= 1
    requires forall i :: 0 <= i < |rows| ==> |rows[i]| >= 1
    requires forall i, k :: 0 <= i < |rows| && 0 <= k < |rows[i]| ==> Plain(rows[i][k])
    ensures var lines := Split(CsvContent(rows), '\n');
      |lines| == |rows| && forall i :: 0 <= i < |rows| ==> Split(lines[i], ',') == rows[i]
  {
    var lines := Lines(rows);
    forall i | 0 <= i < |rows| ensures '\n' !in lines[i] && Split(lines[i], ',') == rows[i] {
      JoinAvoids(rows[i], ',', '\n');
      SplitJoin(rows[i], ',');
    }
    SplitJoin(lines, '\n');
  }

  // ------------------------------------------------------------------ question export

  /** A question as the dashboard lists it. */
  datatype ListedQuestion = ListedQuestion(id: int, text: string, topic: string, difficulty: string, timeRequired: int)

  const EXPORT_HEADER: seq<string> := ["ID", "Text", "Topic", "Difficulty"]

  function ExportRow(q: ListedQuestion): seq<string>
  {
    [IntToString(q.id), Quote(q.text), q.topic, q.difficulty]
  }

  /** Lines 131-134: the header, then one row per question in list order. */
  function ExportRows(qs: seq<ListedQuestion>): (rows: seq<seq<string>>)
    ensures |rows| == |qs| + 1 && rows[0] == EXPORT_HEADER
    ensures forall i :: 0 <= i < |qs| ==> rows[i + 1] == ExportRow(qs[i])
  {
    [EXPORT_HEADER] + seq(|qs|, i requires 0 <= i < |qs| => ExportRow(qs[i]))
  }

  /** Lines 131-135: the exported file's text. */
  function ExportCsv(qs: seq<ListedQuestion>): string
  {
    CsvContent(ExportRows(qs))
  }

  /** Reading the export back: the header line, then each question's id,
      quoted text, topic and difficulty, as long as no text, topic or
      difficulty holds a comma or a newline. */
  lemma ExportRoundTrip(qs: seq<ListedQuestion>)
    requires forall i :: 0 <= i < |qs| ==> Plain(qs[i].text) && Plain(qs[i].topic) && Plain(qs[i].difficulty)
    ensures var lines := Split(ExportCsv(qs), '\n');
      && |lines| == |qs| + 1
      && Split(lines[0], ',') == EXPORT_HEADER
      && forall i :: 0 <= i < |qs| ==> Split(lines[i + 1], ',') == [IntToString(qs[i].id), Quote(qs[i].text), qs[i].topic, qs[i].difficulty]
  {
    var rows := ExportRows(qs);
    forall i, k | 0 <= i < |rows| && 0 <= k < |rows[i]| ensures Plain(rows[i][k]) {
      if i > 0 {
        assert rows[i] == ExportRow(qs[i - 1]);
      }
    }
    CsvRoundTrip(rows);
  }

  // ------------------------------------------------------------------ candidate summary

  datatype CandidateInfo = CandidateInfo(username: string, email: string, totalSessions: int, averageScore: Option<real>)

  datatype QuestionDetail = QuestionDetail(
    text: string, topic: string, difficulty: string,
    response: Option<string>, isCorrect: Option<bool>, responseTime: Option<int>)

  /** A session of the candidate detail; the start and end times arrive already formatted. */
  datatype SessionDetail = SessionDetail(
    id: int, score: Option<real>, startTime: string, endTime: Option<string>,
    totalQuestions: int, correctAnswers: int, averageTime: Option<real>,
    questions: seq<QuestionDetail>)

  const CANDIDATE_HEADER: seq<string> := ["Candidate", "Email", "Total Sessions", "Average Score"]
  const SESSION_HEADER: seq<string> := ["Session ID", "Score", "Start Time", "End Time", "Total Questions", "Correct Answers", "Average Time"]
  const QUESTION_HEADER: seq<string> := ["Question", "Topic", "Difficulty", "Response", "Correct", "Time (s)"]

  /** JavaScript's `Math.round`: the nearest integer, halves rounded up. */
  function Round(x: real): (n: int)
    ensures n as real - 0.5 <= x < n as real + 0.5
  {
    (x + 0.5).Floor
  }

  /** Line 185; `fixed2` renders a number with two decimals (`toFixed(2)`).
      A missing average score is shown as 0. */
  function CandidateRow(c: CandidateInfo, fixed2: real -> string): (row: seq<string>)
    ensures |row| == |CANDIDATE_HEADER|
    ensures row[0] == c.username && row[1] == c.email && row[2] == IntToString(c.totalSessions)
    ensures c.averageScore.None? ==> row[3] == fixed2(0.0)
    ensures c.averageScore.Some? ==> row[3] == fixed2(c.averageScore.value)
  {
    [c.username, c.email, IntToString(c.totalSessions), fixed2(OrElse(c.averageScore, 0.0))]
  }

  /** Lines 188-196: a missing score counts as 0, a missing end time shows
      `N/A`, and the average time is rounded, 0 when missing, and suffixed by `s`. */
  function SessionRow(s: SessionDetail, fixed2: real -> string): (row: seq<string>)
    ensures |row| == |SESSION_HEADER|
    ensures row[0] == IntToString(s.id) && row[2] == s.startTime
    ensures row[4] == IntToString(s.totalQuestions) && row[5] == IntToString(s.correctAnswers)
    ensures s.score.None? ==> row[1] == fixed2(0.0)
    ensures s.score.Some? ==> row[1] == fixed2(s.score.value)
    ensures s.endTime.None? ==> row[3] == "N/A"
    ensures s.endTime.Some? ==> row[3] == s.endTime.value
    ensures var n := Round(OrElse(s.averageTime, 0.0));
      && row[6] == IntToString(n) + "s"
      && (s.averageTime.None? ==> n == 0)
      && (s.averageTime.Some? ==> n as real - 0.5 <= s.averageTime.value < n as real + 0.5)
  {
    [IntToString(s.id), fixed2(OrElse(s.score, 0.0)), s.startTime,
     match s.endTime case Some(t) => t case None => "N/A",
     IntToString(s.totalQuestions), IntToString(s.correctAnswers),
     IntToString(Round(OrElse(s.averageTime, 0.0))) + "s"]
  }

  /** Lines 204-211. */
  function QuestionRow(q: QuestionDetail): (row: seq<string>)
    ensures |row| == |QUESTION_HEADER|
    ensures row[3] == Quote(OrElse(q.response, ""))
    ensures row[4] == "Yes" <==> q.isCorrect == Some(true)
    ensures row[4] == "No" <==> q.isCorrect != Some(true)
    ensures row[5] == IntToString(OrElse(q.responseTime, 0))
  {
    [Quote(q.text), q.topic, q.difficulty, Quote(StringOr(q.response, "")),
     if q.isCorrect == Some(true) then "Yes" else "No",
     IntToString(OrElse(q.responseTime, 0))]
  }

  /** Lines 192-196: one row per session, in order. */
  function SessionRows(ss: seq<SessionDetail>, fixed2: real -> string): (rows: seq<seq<string>>)
    ensures |rows| == |ss|
    ensures forall i :: 0 <= i < |ss| ==> rows[i] == SessionRow(ss[i], fixed2)
  {
    if ss == [] then [] else [SessionRow(ss[0], fixed2)] + SessionRows(ss[1..], fixed2)
  }

  /** Lines 183-199: the rows written before any question row. */
  function HeadRows(c: CandidateInfo, ss: seq<SessionDetail>, fixed2: real -> string): (rows: seq<seq<string>>)
    ensures |rows| == 6 + |ss|
    ensures rows[0] == CANDIDATE_HEADER && rows[1] == CandidateRow(c, fixed2) && rows[2] == [] && rows[3] == SESSION_HEADER
    ensures forall i :: 0 <= i < |ss| ==> rows[4 + i] == SessionRow(ss[i], fixed2)
    ensures rows[4 + |ss|] == [] && rows[5 + |ss|] == QUESTION_HEADER
  {
    var head := [CANDIDATE_HEADER, CandidateRow(c, fixed2), [], SESSION_HEADER];
    var sessions := SessionRows(ss, fixed2);
    var tail := [[], QUESTION_HEADER];
    Concat3(head, sessions, tail);
    head + sessions + tail
  }

  function QuestionBlock(qs: seq<QuestionDetail>): (rows: seq<seq<string>>)
    ensures |rows| == |qs|
  {
    Map(qs, QuestionRow)
  }

  /** Each session's question rows. */
  function QuestionBlocks(ss: seq<SessionDetail>): (blocks: seq<seq<seq<string>>>)
    ensures |blocks| == |ss|
    ensures forall i :: 0 <= i < |ss| ==> blocks[i] == QuestionBlock(ss[i].questions)
  {
    seq(|ss|, i requires 0 <= i < |ss| => QuestionBlock(ss[i].questions))
  }

  /** Lines 202-213: every question of every session, in session order. */
  function QuestionRows(ss: seq<SessionDetail>): seq<seq<string>>
  {
    Flatten(QuestionBlocks(ss))
  }

  /** The number of questions over the sessions, one row each. */
  function TotalQuestions(ss: seq<SessionDetail>): nat
  {
    TotalLength(QuestionBlocks(ss))
  }

  function SummaryTable(c: CandidateInfo, ss: seq<SessionDetail>, fixed2: real -> string): seq<seq<string>>
  {
    HeadRows(c, ss, fixed2) + QuestionRows(ss)
  }

  /** Question `j` of session `i` is row number `TotalQuestions(ss[..i]) + j` of the question part. */
  lemma QuestionRowsAt(ss: seq<SessionDetail>, i: nat, j: nat)
    requires i < |ss| && j < |ss[i].questions|
    ensures TotalQuestions(ss[..i]) + j < TotalQuestions(ss) == |QuestionRows(ss)|
    ensures QuestionRows(ss)[TotalQuestions(ss[..i]) + j] == QuestionRow(ss[i].questions[j])
  {
    var blocks := QuestionBlocks(ss);
    FlattenAt(blocks, i, j);
    assert QuestionBlocks(ss[..i]) == blocks[..i];
  }

  /** Lines 183-199: the candidate header and row and an empty row, the
      session header, one row per session and an empty row, the question
      header; after them only question rows follow. */
  lemma SummaryHeadLayout(c: CandidateInfo, ss: seq<SessionDetail>, fixed2: real -> string)
    ensures var t := SummaryTable(c, ss, fixed2); var n := |ss|;
      && |t| == 6 + n + TotalQuestions(ss)
      && t[0] == CANDIDATE_HEADER && t[1] == CandidateRow(c, fixed2) && t[2] == [] && t[3] == SESSION_HEADER
      && (forall i :: 0 <= i < n ==> t[4 + i] == SessionRow(ss[i], fixed2))
      && t[4 + n] == [] && t[5 + n] == QUESTION_HEADER
  {
    var head := HeadRows(c, ss, fixed2);
    var t := head + QuestionRows(ss);
    assert forall k :: 0 <= k < |head| ==> t[k] == head[k];
  }

  /** Lines 202-213: question `j` of session `i` is the row after the head
      and after the question rows of the sessions before `i`, so the
      question rows follow the sessions' order. */
  lemma SummaryQuestionAt(c: CandidateInfo, ss: seq<SessionDetail>, fixed2: real -> string, i: nat, j: nat)
    requires i < |ss| && j < |ss[i].questions|
    ensures var t := SummaryTable(c, ss, fixed2);
      && 6 + |ss| + TotalQuestions(ss[..i]) + j < |t|
      && t[6 + |ss| + TotalQuestions(ss[..i]) + j] == QuestionRow(ss[i].questions[j])
  {
    var head := HeadRows(c, ss, fixed2);
    QuestionRowsAt(ss, i, j);
    ConcatAt(head, QuestionRows(ss), 6 + |ss| + TotalQuestions(ss[..i]) + j);
  }

  lemma QuestionRowsStep(rows: seq<seq<string>>, ss: seq<SessionDetail>, i: nat)
    requires i < |ss|
    ensures rows + QuestionRows(ss[..i + 1]) == rows + QuestionRows(ss[..i]) + QuestionBlock(ss[i].questions)
  {
    var blocks := QuestionBlocks(ss[..i + 1]);
    assert blocks[..i] == QuestionBlocks(ss[..i]);
  }

  /** Lines 203-212: one pushed row per question of a session. */
  method PushQuestions(rows: seq<seq<string>>, qs: seq<QuestionDetail>) returns (result: seq<seq<string>>)
    ensures result == rows + QuestionBlock(qs)
  {
    result := rows;
    for j := 0 to |qs|
      invariant result == rows + QuestionBlock(qs[..j])
    {
      MapPush(rows, qs, QuestionRow, j);
      result := result + [QuestionRow(qs[j])];
    }
    assert qs[..|qs|] == qs;
  }

  /** Lines 202-213: the question rows of every session, pushed in order. */
  method PushSessions(rows: seq<seq<string>>, ss: seq<SessionDetail>) returns (result: seq<seq<string>>)
    ensures result == rows + QuestionRows(ss)
  {
    result := rows;
    for i := 0 to |ss|
      invariant result == rows + QuestionRows(ss[..i])
    {
      QuestionRowsStep(rows, ss, i);
      result := PushQuestions(result, ss[i].questions);
    }
    assert ss[..|ss|] == ss;
  }

  /** Lines 180-215: no text without a loaded candidate detail; otherwise the
      summary's CSV text, its question rows pushed in two nested loops. */
  method DownloadCandidateSummary(c: CandidateInfo, detail: Option<seq<SessionDetail>>, fixed2: real -> string)
    returns (csv: Option<string>)
    ensures detail.None? ==> csv.None?
    ensures detail.Some? ==> csv == Some(CsvContent(SummaryTable(c, detail.value, fixed2)))
  {
    if detail.None? {
      return None;
    }
    var rows := PushSessions(HeadRows(c, detail.value, fixed2), detail.value);
    csv := Some(CsvContent(rows));
  }

  // ------------------------------------------------------------------ score badge

  /** Lines 227-232: a missing score counts as 0. */
  function ScoreColor(score: Option<real>): (c: string)
    ensures c == "success" <==> score.Some? && score.value >= 80.0
    ensures c == "warning" <==> score.Some? && 60.0 <= score.value < 80.0
    ensures c == "danger" <==> score.None? || score.value < 60.0
  {
    Color(OrElse(score, 0.0))
  }

  /** Lines 234-239, with the same thresholds and the same default. */
  function ScoreEmoji(score: Option<real>): (e: string)
    ensures e == "\U{1F389}" <==> score.Some? && score.value >= 80.0
    ensures e == "\U{1F44D}" <==> score.Some? && 60.0 <= score.value < 80.0
    ensures e == "\U{1F4AA}" <==> score.None? || score.value < 60.0
  {
    Emoji(OrElse(score, 0.0))
  }

  // ------------------------------------------------------------------ saving a question

  /** The question in the edit form; the add form starts with no key. */
  datatype FormQuestion = FormQuestion(id: Option<int>, text: string, topic: string, difficulty: Option<string>, timeRequired: int)

  datatype Payload = Payload(id: Option<int>, text: string, topic: string, difficulty: string, timeRequired: int)

  /** Line 82: the add form's initial question. */
  const NEW_QUESTION: FormQuestion := FormQuestion(None, "", "", Some("Easy"), 60)

  /** Lines 91-94: the form's question with its difficulty lowercased, a missing one becoming empty. */
  function SavePayload(q: FormQuestion): (p: Payload)
    ensures p.id == q.id && p.text == q.text && p.topic == q.topic && p.timeRequired == q.timeRequired
    ensures q.difficulty.None? ==> p.difficulty == ""
    ensures q.difficulty.Some? ==> |p.difficulty| == |q.difficulty.value|
    ensures q.difficulty.Some? ==> forall i :: 0 <= i < |p.difficulty| ==> p.difficulty[i] == LowerChar(q.difficulty.value[i])
    ensures forall i :: 0 <= i < |p.difficulty| ==> !IsUpper(p.difficulty[i])
  {
    Payload(q.id, q.text, q.topic, ToLower(OrElse(q.difficulty, "")), q.timeRequired)
  }

  /** The payload shown again in the form. */
  function Reopen(p: Payload): FormQuestion
  {
    FormQuestion(p.id, p.text, p.topic, Some(p.difficulty), p.timeRequired)
  }

  /** Saving what was saved changes nothing. */
  lemma SaveIdempotent(q: FormQuestion)
    ensures SavePayload(Reopen(SavePayload(q))) == SavePayload(q)
  {
    ToLowerIdempotent(OrElse(q.difficulty, ""));
  }

  /** The add form's default difficulty is saved as one the server accepts. */
  lemma NewQuestionDifficulty()
    ensures SavePayload(NEW_QUESTION).difficulty == "easy"
    ensures SavePayload(NEW_QUESTION).difficulty in QI.DIFFICULTIES
  {
    assert ToLower("Easy") == "easy";
  }

  // ------------------------------------------------------------------ import

  datatype ImportStep = NothingChosen | NotCsv | Send(name: string)

  const NOT_CSV_TOAST: string := "Please select a CSV file."

  /** Lines 152-159: nothing happens without a file; a name not ending in `.csv` stops before the upload. */
  function ImportStepFor(file: Option<string>): (step: ImportStep)
    ensures file.None? <==> step == NothingChosen
    ensures step.Send? <==> file.Some? && EndsWith(file.value, ".csv")
    ensures step.Send? ==> step.name == file.value
  {
    match file
    case None => NothingChosen
    case Some(name) => if EndsWith(name, ".csv") then Send(name) else NotCsv
  }

  /** The page uploads exactly the files whose name the server's own check accepts. */
  lemma ImportCheckMatchesServer(user: QI.Requester, name: string, rows: seq<QI.Row>)
    requires QI.IsAdmin(user)
    ensures ImportStepFor(Some(name)).Send? <==> QI.ImportReplyFor(user, Some(QI.Upload(name, rows))) != QI.BadRequest(QI.NOT_CSV)
  {
  }
}
