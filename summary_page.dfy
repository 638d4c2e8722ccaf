/** The candidate's summary page (frontend/src/pages/SummaryPage.js): which
    session it shows, how the fetched summary is turned into rows with
    defaults, the error it shows otherwise, and the correct-answer count. */
module SummaryPage {
  import opened Common
  import opened Scores

  /** The signed-in user as the page sees it; the page may also have none. */
  datatype Viewer = Viewer(role: string)

  /** An awaited request: its data, or the message of the error it threw. */
  datatype Response<T> = Received(data: T) | Threw(message: string)

  /** A session of the user's session list; only its key is used. */
  datatype SessionRef = SessionRef(id: int)

  /** One entry of `sessionquestion_set`, with the question's text. */
  datatype SummaryQuestion = SummaryQuestion(text: string, response: Option<string>, isCorrect: Option<bool>, responseTime: Option<int>)

  /** A summary response; `questionSet` is absent when the body has no `sessionquestion_set`. */
  datatype SummaryData = SummaryData(score: Option<real>, startTime: Option<string>, endTime: Option<string>, questionSet: Option<seq<SummaryQuestion>>)

  datatype SummaryRow = SummaryRow(question: string, answer: string, correct: bool, time: int)

  datatype Summary = Summary(score: real, startTime: Option<string>, endTime: Option<string>, questions: seq<SummaryRow>)

  /** What the page settles on once loading is over. */
  datatype View = AdminNotice | Failed(error: string) | Shown(summary: Summary)

  const NO_SESSIONS: string := "No interview sessions found."
  const INVALID_SUMMARY: string := "Invalid summary data received."
  const LOAD_FAILED: string := "Failed to load summary. Please try again."

  /** Line 11. */
  predicate IsAdmin(user: Option<Viewer>)
  {
    user.Some? && user.value.role == "admin"
  }

  /** Lines 50-55: one row per session question; a missing or empty answer
      becomes `''`, a missing correctness `false`, a missing time 0. */
  function RowOf(q: SummaryQuestion): (r: SummaryRow)
    ensures r.question == q.text
    ensures r.answer == "" <==> q.response.None? || q.response.value == ""
    ensures r.answer != "" ==> r.answer == q.response.value
    ensures r.correct <==> q.isCorrect == Some(true)
    ensures q.responseTime.Some? ==> r.time == q.responseTime.value
    ensures q.responseTime.None? ==> r.time == 0
  {
    SummaryRow(q.text, StringOr(q.response, ""), OrElse(q.isCorrect, false), OrElse(q.responseTime, 0))
  }

  function Rows(qs: seq<SummaryQuestion>): (rows: seq<SummaryRow>)
    ensures |rows| == |qs|
    ensures forall i :: 0 <= i < |qs| ==> rows[i] == RowOf(qs[i])
  {
    seq(|qs|, i requires 0 <= i < |qs| => RowOf(qs[i]))
  }

  /** Lines 46-56: the summary kept in the page's state; a missing score counts as 0. */
  function SummaryOf(d: SummaryData): (s: Summary)
    requires d.questionSet.Some?
    ensures |s.questions| == |d.questionSet.value|
    ensures forall i :: 0 <= i < |s.questions| ==> s.questions[i] == RowOf(d.questionSet.value[i])
    ensures d.score.None? ==> s.score == 0.0
    ensures d.score.Some? ==> s.score == d.score.value
    ensures s.startTime == d.startTime && s.endTime == d.endTime
  {
    Summary(OrElse(d.score, 0.0), d.startTime, d.endTime, Rows(d.questionSet.value))
  }

  /** Line 62: the thrown error's message, or a fixed text when it has none. */
  function ErrorText(message: string): (e: string)
    ensures e != ""
    ensures message != "" ==> e == message
  {
    if message == "" then LOAD_FAILED else message
  }

  /** Lines 45-59: the summary of the chosen session, once fetched. A body
      without `sessionquestion_set`, or no body, is reported as invalid; a
      failed request shows its error. */
  function ViewOfSummary(summary: Response<Option<SummaryData>>): (v: View)
    ensures summary.Threw? ==> v == Failed(ErrorText(summary.message))
    ensures summary.Received? && summary.data.Some? && summary.data.value.questionSet.Some? ==>
      v == Shown(SummaryOf(summary.data.value))
    ensures summary.Received? && (summary.data.None? || summary.data.value.questionSet.None?) ==>
      v == Failed(INVALID_SUMMARY)
    ensures !v.AdminNotice?
  {
    match summary
    case Threw(m) => Failed(ErrorText(m))
    case Received(d) =>
      if d.Some? && d.value.questionSet.Some? then Shown(SummaryOf(d.value))
      else Failed(INVALID_SUMMARY)
  }

  /** Lines 11-69: an admin gets the notice and nothing is fetched; otherwise
      the session list is fetched, and the summary of its last session.
      `fetchSummary` stands for the summary request for a session key. */
  function Load(user: Option<Viewer>, sessions: Response<Option<seq<SessionRef>>>,
                fetchSummary: int -> Response<Option<SummaryData>>): (v: View)
    ensures IsAdmin(user) <==> v == AdminNotice
    ensures v.Failed? ==> v.error != ""
    ensures !IsAdmin(user) && (sessions == Received(None) || sessions == Received(Some([]))) ==> v == Failed(NO_SESSIONS)
    ensures !IsAdmin(user) && sessions.Threw? ==> v == Failed(ErrorText(sessions.message))
    ensures !IsAdmin(user) && sessions.Received? && sessions.data.Some? && sessions.data.value != [] ==>
      var summary := fetchSummary(sessions.data.value[|sessions.data.value| - 1].id);
      && (summary.Received? && (summary.data.None? || summary.data.value.questionSet.None?) ==> v == Failed(INVALID_SUMMARY))
      && (summary.Threw? ==> v == Failed(ErrorText(summary.message)))
    ensures v.Shown? ==> && sessions.Received? && sessions.data.Some? && sessions.data.value != []
                         && v == ViewOfSummary(fetchSummary(sessions.data.value[|sessions.data.value| - 1].id))
  {
    if IsAdmin(user) then AdminNotice
    else
      match sessions
      case Threw(m) => Failed(ErrorText(m))
      case Received(list) =>
        if list.None? || list.value == [] then Failed(NO_SESSIONS)
        else ViewOfSummary(fetchSummary(list.value[|list.value| - 1].id))
  }

  /** Only the last session of the list matters: two lists that end in the
      same session give the same page. */
  lemma LatestSessionOnly(user: Option<Viewer>, a: seq<SessionRef>, b: seq<SessionRef>,
                          fetchSummary: int -> Response<Option<SummaryData>>)
    requires a != [] && b != [] && a[|a| - 1] == b[|b| - 1]
    ensures Load(user, Received(Some(a)), fetchSummary) == Load(user, Received(Some(b)), fetchSummary)
  {
  }

  /** A well-formed summary of the last session is shown, whatever came before it in the list. */
  lemma ShownWhenWellFormed(user: Option<Viewer>, ss: seq<SessionRef>, d: SummaryData,
                            fetchSummary: int -> Response<Option<SummaryData>>)
    requires !IsAdmin(user) && ss != [] && d.questionSet.Some?
    requires fetchSummary(ss[|ss| - 1].id) == Received(Some(d))
    ensures Load(user, Received(Some(ss)), fetchSummary) == Shown(SummaryOf(d))
  {
  }

  predicate IsCorrectRow(r: SummaryRow)
  {
    r.correct
  }

  predicate AnsweredCorrectly(q: SummaryQuestion)
  {
    q.isCorrect == Some(true)
  }

  /** Line 179: the number of correct rows. */
  function CorrectCount(s: Summary): (n: nat)
    ensures n <= |s.questions|
  {
    Count(s.questions, IsCorrectRow)
  }

  /** The rows count as correct exactly the session questions the server marked correct. */
  lemma {:induction false} RowsCorrect(qs: seq<SummaryQuestion>)
    ensures Count(Rows(qs), IsCorrectRow) == Count(qs, AnsweredCorrectly)
  {
    if qs != [] {
      var init := qs[..|qs| - 1];
      RowsCorrect(init);
      assert Rows(qs)[..|qs| - 1] == Rows(init);
    }
  }

  /** The correct count of a shown summary: the questions marked correct, at most all of them. */
  lemma CorrectCountOfSummary(d: SummaryData)
    requires d.questionSet.Some?
    ensures CorrectCount(SummaryOf(d)) == Count(d.questionSet.value, AnsweredCorrectly) <= |d.questionSet.value|
  {
    RowsCorrect(d.questionSet.value);
  }

  /** Lines 71-81 and 148-152: the badge colour and emoji of a shown summary. */
  function Badge(s: Summary): (b: (string, string))
    ensures b.0 == "success" <==> b.1 == "\U{1F389}"
    ensures b.0 == "success" <==> s.score >= 80.0
    ensures b.0 == "warning" <==> 60.0 <= s.score < 80.0
    ensures b.0 == "danger" <==> s.score < 60.0
  {
    (Color(s.score), Emoji(s.score))
  }

  /** A summary without a score gets the lowest band. */
  lemma MissingScoreBadge(d: SummaryData)
    requires d.questionSet.Some? && d.score.None?
    ensures Badge(SummaryOf(d)) == ("danger", "\U{1F4AA}")
  {
  }
}
