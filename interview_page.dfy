/** The candidate's interview page: a question cursor, a 60-second question
    countdown, a 120-second interview countdown, one answer slot per question,
    an append-only chat transcript and the review/submit step.

    The React component's state variables are the fields of
    `InterviewController`; each event handler and each interval callback is a
    method that changes them in one step. A handler that awaits the network
    (starting the interview, submitting it) is split into the part before the
    await (`BeginStart`, `BeginSubmit`) and the part after it (`FinishStart`,
    `FinishSubmit`), which receives the outcome of the request as a parameter. */
module InterviewPage {
  import opened Common

  /** Seconds per question. */
  const QUESTION_TIME_LIMIT: int := 60
  /** Seconds for the whole interview. */
  const TOTAL_INTERVIEW_TIME: int := 120

  const NO_QUESTIONS_ERROR: string := "No questions available for interview."
  const START_FAILED_ERROR: string := "Failed to start interview. Please try again."

  datatype Role = Candidate | Admin

  /** The logged-in user the page receives as a prop. */
  datatype PageUser = PageUser(role: Role, hasCompletedInterview: bool, isBlockedFromInterview: bool)

  /** A candidate who has completed an interview or has been blocked sees the
      "access restricted" screen instead of the start button. No user, or an
      admin, is never blocked. */
  predicate IsBlocked(user: Option<PageUser>)
    ensures IsBlocked(user) ==> user.Some? && user.value.role == Candidate
    ensures user.Some? && user.value.role == Candidate && user.value.hasCompletedInterview ==> IsBlocked(user)
    ensures user.Some? && user.value.role == Candidate && user.value.isBlockedFromInterview ==> IsBlocked(user)
    ensures IsBlocked(user) ==> user.value.hasCompletedInterview || user.value.isBlockedFromInterview
  {
    user.Some? && user.value.role == Candidate
    && (user.value.hasCompletedInterview || user.value.isBlockedFromInterview)
  }

  /** A question as the start endpoint returns it (only the fields the page reads). */
  datatype ClientQuestion = ClientQuestion(id: int, text: string)

  datatype Speaker = Asked | Answered

  /** One chat bubble of the transcript. */
  datatype Message = Message(kind: Speaker, text: string)

  /** The captured answer to one question and the seconds it took. */
  datatype AnswerSlot = AnswerSlot(answer: string, time: int)

  /** One entry of the submission body. */
  datatype PayloadEntry = PayloadEntry(questionId: int, response: string, responseTime: int)

  datatype Payload = Payload(sessionId: Option<int>, answers: seq<PayloadEntry>)

  /** What `fetchQuestions()` produced: the response body (whose `questions`
      may be missing), or a failure with the server's `error` text if any. */
  datatype StartOutcome =
    | Fetched(sessionId: Option<int>, questions: Option<seq<ClientQuestion>>)
    | FetchFailed(serverError: Option<string>)

  /** Every state variable of the page, as one value. */
  datatype PageState = PageState(
    questions: seq<ClientQuestion>,
    sessionId: Option<int>,
    messages: seq<Message>,
    current: nat,
    answers: seq<AnswerSlot>,
    answer: string,
    loading: bool,
    error: string,
    submitting: bool,
    timer: int,
    totalTimer: int,
    reviewMode: bool,
    interviewStarted: bool,
    timeUp: bool)

  /** The slots a fresh interview starts with: one per question, empty text, full time. */
  function FreshSlots(n: nat): (slots: seq<AnswerSlot>)
    ensures |slots| == n
    ensures forall i :: 0 <= i < n ==> slots[i] == AnswerSlot("", QUESTION_TIME_LIMIT)
  {
    seq(n, _ => AnswerSlot("", QUESTION_TIME_LIMIT))
  }

  /** The transcript shows questions 0 to `current` at the even positions, in
      order, with answers in between; everything after question `current` is an
      answer; and before the last question the transcript ends with the
      current question. */
  ghost predicate TranscriptShape(messages: seq<Message>, questions: seq<ClientQuestion>, current: nat)
  {
    && current < |questions|
    && |messages| >= 2 * current + 1
    && (current < |questions| - 1 ==> |messages| == 2 * current + 1)
    && forall j :: 0 <= j < |messages| ==>
         if j % 2 == 0 && j <= 2 * current then messages[j] == Message(Asked, questions[j / 2].text)
         else messages[j].kind == Answered
  }

  /** Answering a question before the last one and asking the next keeps the transcript's shape, one question further on. */
  lemma TranscriptAdvances(messages: seq<Message>, questions: seq<ClientQuestion>, current: nat, val: string)
    requires TranscriptShape(messages, questions, current) && current < |questions| - 1
    ensures TranscriptShape(messages + [Message(Answered, val), Message(Asked, questions[current + 1].text)],
                            questions, current + 1)
  {
    var m := messages + [Message(Answered, val), Message(Asked, questions[current + 1].text)];
    forall j | 0 <= j < |m|
      ensures if j % 2 == 0 && j <= 2 * (current + 1) then m[j] == Message(Asked, questions[j / 2].text)
              else m[j].kind == Answered
    {
      if j < |messages| {
        assert m[j] == messages[j];
      }
    }
  }

  /** Answering the last question (again, after a submission) only appends an answer. */
  lemma TranscriptAnswersLast(messages: seq<Message>, questions: seq<ClientQuestion>, current: nat, val: string)
    requires TranscriptShape(messages, questions, current) && current == |questions| - 1
    ensures TranscriptShape(messages + [Message(Answered, val)], questions, current)
  {
    var m := messages + [Message(Answered, val)];
    forall j | 0 <= j < |m|
      ensures if j % 2 == 0 && j <= 2 * current then m[j] == Message(Asked, questions[j / 2].text)
              else m[j].kind == Answered
    {
      if j < |messages| {
        assert m[j] == messages[j];
      }
    }
  }

  /** The page invariant: one slot per question, both countdowns in range,
      `timeUp` exactly when the interview countdown reads 0, every recorded
      time within the question limit, submitting only in review, nothing
      asked before the start, and afterwards a transcript of the shape above. */
  ghost predicate PageInvariant(st: PageState)
  {
    && |st.answers| == |st.questions|
    && 1 <= st.timer <= QUESTION_TIME_LIMIT
    && 0 <= st.totalTimer <= TOTAL_INTERVIEW_TIME
    && (st.timeUp <==> st.totalTimer == 0)
    && (forall i :: 0 <= i < |st.answers| ==> 0 <= st.answers[i].time <= QUESTION_TIME_LIMIT)
    && (st.submitting ==> st.reviewMode)
    && (!st.interviewStarted ==> st.questions == [] && st.messages == [] && st.current == 0 && !st.reviewMode && !st.timeUp)
    && (st.interviewStarted ==> TranscriptShape(st.messages, st.questions, st.current))
  }

  /** The state after `val` is recorded for the current question: only the
      current slot is overwritten, with the text and the seconds used; the
      answer is appended to the transcript and the answer box is cleared;
      then either the next question is asked (and its countdown starts again
      at the full limit), or, after the last question, review begins. */
  ghost function Recorded(st: PageState, val: string): PageState
    requires PageInvariant(st) && st.interviewStarted
  {
    if st.current < |st.questions| - 1 then Advanced(st, val) else AnsweredLast(st, val)
  }

  /** An answer to a question before the last: the next question is asked. */
  ghost function Advanced(st: PageState, val: string): PageState
    requires PageInvariant(st) && st.interviewStarted && st.current < |st.questions| - 1
  {
    st.(answers := st.answers[st.current := AnswerSlot(val, QUESTION_TIME_LIMIT - st.timer)],
        messages := st.messages + [Message(Answered, val), Message(Asked, st.questions[st.current + 1].text)],
        answer := "", current := st.current + 1, timer := QUESTION_TIME_LIMIT)
  }

  /** An answer to the last question: review begins. */
  ghost function AnsweredLast(st: PageState, val: string): PageState
    requires PageInvariant(st) && st.interviewStarted
  {
    st.(answers := st.answers[st.current := AnswerSlot(val, QUESTION_TIME_LIMIT - st.timer)],
        messages := st.messages + [Message(Answered, val)],
        answer := "", reviewMode := true)
  }

  /** Recording an answer outside review keeps the page invariant. */
  lemma RecordedKeeps(st: PageState, val: string)
    requires PageInvariant(st) && st.interviewStarted && !st.reviewMode
    ensures PageInvariant(Recorded(st, val))
  {
    if st.current < |st.questions| - 1 {
      TranscriptAdvances(st.messages, st.questions, st.current, val);
    } else {
      TranscriptAnswersLast(st.messages, st.questions, st.current, val);
    }
  }

  /** The state in which a fetched, non-empty question list starts the interview. */
  ghost function Started(st: PageState, qs: seq<ClientQuestion>, sid: Option<int>): PageState
    requires |qs| > 0
  {
    st.(questions := qs, sessionId := sid,
        messages := [Message(Asked, qs[0].text)], answers := FreshSlots(|qs|),
        timer := QUESTION_TIME_LIMIT, totalTimer := TOTAL_INTERVIEW_TIME,
        interviewStarted := true, loading := false)
  }

  /** Starting with a non-empty list keeps the page invariant, at question 0. */
  lemma StartedKeeps(st: PageState, qs: seq<ClientQuestion>, sid: Option<int>)
    requires PageInvariant(st) && !st.interviewStarted && |qs| > 0
    ensures PageInvariant(Started(st, qs, sid)) && Started(st, qs, sid).current == 0
  {
    var m := [Message(Asked, qs[0].text)];
    forall j | 0 <= j < |m|
      ensures if j % 2 == 0 && j <= 0 then m[j] == Message(Asked, qs[j / 2].text) else m[j].kind == Answered
    {
      assert j == 0;
    }
  }

  class InterviewController {
    const user: Option<PageUser>
    var questions: seq<ClientQuestion>
    var sessionId: Option<int>
    var messages: seq<Message>
    var current: nat
    var answers: seq<AnswerSlot>
    /** The text in the answer box, not yet sent. */
    var answer: string
    var loading: bool
    var error: string
    var submitting: bool
    /** Seconds left for the current question. */
    var timer: int
    /** Seconds left for the whole interview. */
    var totalTimer: int
    var reviewMode: bool
    var interviewStarted: bool
    var timeUp: bool

    ghost function State(): PageState
      reads this
    {
      PageState(questions, sessionId, messages, current, answers, answer, loading, error,
                submitting, timer, totalTimer, reviewMode, interviewStarted, timeUp)
    }

    ghost predicate Valid()
      reads this
    {
      PageInvariant(State())
    }

    /** Both interval effects run exactly while this holds; otherwise their
        intervals are cleared and a tick changes nothing. */
    predicate TimersRunning()
      reads this
    {
      interviewStarted && !reviewMode && !timeUp && !loading
    }

    /** The page as first rendered. */
    constructor (user: Option<PageUser>)
      ensures Valid() && this.user == user
      ensures State() == PageState([], None, [], 0, [], "", false, "", false,
                                   QUESTION_TIME_LIMIT, TOTAL_INTERVIEW_TIME, false, false, false)
    {
      this.user := user;
      questions, sessionId, messages, current, answers, answer := [], None, [], 0, [], "";
      loading, error, submitting := false, "", false;
      timer, totalTimer := QUESTION_TIME_LIMIT, TOTAL_INTERVIEW_TIME;
      reviewMode, interviewStarted, timeUp := false, false, false;
    }

    /** `handleStartInterview` up to the request: the start button is shown
        only to a user who is not blocked, before the interview has started. */
    method BeginStart()
      requires Valid() && !IsBlocked(user) && !interviewStarted && !loading
      modifies this
      ensures Valid()
      ensures State() == old(State()).(loading := true, error := "")
    {
      loading := true;
      error := "";
    }

    /** `handleStartInterview` after the request: a non-empty question list
        starts the interview at question 0 with fresh slots and full timers;
        otherwise an error is shown and the interview does not start. */
    method FinishStart(outcome: StartOutcome)
      requires Valid() && loading && !interviewStarted
      modifies this
      ensures Valid() && !loading
      ensures outcome.Fetched? && outcome.questions.Some? && |outcome.questions.value| > 0 ==>
        var qs := outcome.questions.value;
        State() == Started(old(State()), qs, outcome.sessionId)
      ensures outcome.Fetched? && (outcome.questions.None? || |outcome.questions.value| == 0) ==>
        State() == old(State()).(error := NO_QUESTIONS_ERROR, loading := false)
      ensures outcome.FetchFailed? ==>
        State() == old(State()).(error := StringOr(outcome.serverError, START_FAILED_ERROR), loading := false)
    {
      match outcome {
        case Fetched(sid, qs) =>
          if qs.Some? && |qs.value| > 0 {
            Begin(qs.value, sid);
          } else {
            Fail(NO_QUESTIONS_ERROR);
          }
        case FetchFailed(serverError) =>
          Fail(StringOr(serverError, START_FAILED_ERROR));
      }
    }

    /** Lines 47-55 and 64: the interview starts with the fetched questions. */
    method Begin(qs: seq<ClientQuestion>, sid: Option<int>)
      requires Valid() && !interviewStarted && |qs| > 0
      modifies this
      ensures Valid() && State() == Started(old(State()), qs, sid)
    {
      StartedKeeps(State(), qs, sid);
      questions, sessionId := qs, sid;
      messages := [Message(Asked, qs[0].text)];
      answers := FreshSlots(|qs|);
      timer, totalTimer := QUESTION_TIME_LIMIT, TOTAL_INTERVIEW_TIME;
      interviewStarted, loading := true, false;
    }

    /** Lines 56-57 and 59-64: the error is shown and loading ends. */
    method Fail(message: string)
      requires Valid()
      modifies this
      ensures Valid() && State() == old(State()).(error := message, loading := false)
    {
      error, loading := message, false;
    }

    /** Typing (or a voice transcript) replaces the pending answer text. */
    method SetPendingAnswer(text: string)
      requires Valid()
      modifies this
      ensures Valid()
      ensures State() == old(State()).(answer := text)
    {
      answer := text;
    }

    /** `handleAnswer(val, auto)`, reachable while the chat is shown. A manual
        answer whose text is blank is ignored; an automatic one (the question
        timer ran out) is recorded even when blank. */
    method HandleAnswer(val: string, auto: bool)
      requires Valid() && interviewStarted && !reviewMode
      modifies this
      ensures Valid()
      ensures Strip(val) == "" && !auto ==> State() == old(State())
      ensures !(Strip(val) == "" && !auto) ==> State() == Recorded(old(State()), val)
    {
      if Strip(val) == "" && !auto {
        return;
      }
      RecordAnswer(val);
    }

    method RecordAnswer(val: string)
      requires Valid() && interviewStarted && !reviewMode
      modifies this
      ensures Valid()
      ensures State() == Recorded(old(State()), val)
    {
      if current < |questions| - 1 {
        Advance(val);
      } else {
        AnswerLast(val);
      }
    }

    /** The answer is stored and the next question asked. */
    method Advance(val: string)
      requires Valid() && interviewStarted && !reviewMode && current < |questions| - 1
      modifies this
      ensures Valid()
      ensures State() == Advanced(old(State()), val)
    {
      RecordedKeeps(State(), val);
      answers := answers[current := AnswerSlot(val, QUESTION_TIME_LIMIT - timer)];
      messages := messages + [Message(Answered, val), Message(Asked, questions[current + 1].text)];
      answer, current, timer := "", current + 1, QUESTION_TIME_LIMIT;
    }

    /** The answer to the last question is stored and review begins. */
    method AnswerLast(val: string)
      requires Valid() && interviewStarted && !reviewMode && current >= |questions| - 1
      modifies this
      ensures Valid()
      ensures State() == AnsweredLast(old(State()), val)
    {
      RecordedKeeps(State(), val);
      answers := answers[current := AnswerSlot(val, QUESTION_TIME_LIMIT - timer)];
      messages := messages + [Message(Answered, val)];
      answer, reviewMode := "", true;
    }

    /** One second of the interview countdown: it counts down while above 1;
        at 1 or below it reads 0, marks the time as up and enters review,
        which stops both countdowns, whatever question is current. */
    method TotalTick()
      requires Valid()
      modifies this
      ensures Valid()
      ensures !old(TimersRunning()) ==> State() == old(State())
      ensures old(TimersRunning()) && old(totalTimer) > 1 ==>
        State() == old(State()).(totalTimer := old(totalTimer) - 1)
      ensures old(TimersRunning()) && old(totalTimer) <= 1 ==>
        State() == old(State()).(totalTimer := 0, timeUp := true, reviewMode := true)
      ensures old(TimersRunning()) && old(totalTimer) <= 1 ==> !TimersRunning()
    {
      if !TimersRunning() {
        return;
      }
      if totalTimer <= 1 {
        timeUp := true;
        reviewMode := true;
        totalTimer := 0;
      } else {
        totalTimer := totalTimer - 1;
      }
    }

    /** One second of the question countdown: it counts down while above 1; at
        1 or below the pending text is answered automatically and the countdown
        is set back to the full limit. */
    method QuestionTick()
      requires Valid()
      modifies this
      ensures Valid()
      ensures !old(TimersRunning()) ==> State() == old(State())
      ensures old(TimersRunning()) && old(timer) > 1 ==>
        State() == old(State()).(timer := old(timer) - 1)
      ensures old(TimersRunning()) && old(timer) <= 1 ==>
        State() == Recorded(old(State()), old(answer)).(timer := QUESTION_TIME_LIMIT)
    {
      if !TimersRunning() {
        return;
      }
      if timer <= 1 {
        HandleAnswer(answer, true);
        timer := QUESTION_TIME_LIMIT;
      } else {
        timer := timer - 1;
      }
    }

    /** `handleReviewChange(idx, val)`: editing an answer in review replaces
        that slot's text and keeps its time and every other slot. */
    method ReviewChange(idx: nat, val: string)
      requires Valid() && reviewMode && !submitting && idx < |answers|
      modifies this
      ensures Valid()
      ensures State() == old(State()).(answers := old(answers)[idx := old(answers)[idx].(answer := val)])
      ensures answers[idx].time == old(answers)[idx].time
    {
      answers := answers[idx := answers[idx].(answer := val)];
    }

    /** `handleSubmit` up to the request: the body has one entry per slot, in
        question order, with the question's id, the text and the seconds. */
    method BeginSubmit() returns (payload: Payload)
      requires Valid() && reviewMode && !submitting
      modifies this
      ensures Valid()
      ensures State() == old(State()).(submitting := true)
      ensures payload.sessionId == sessionId && |payload.answers| == |answers|
      ensures forall i :: 0 <= i < |answers| ==>
        payload.answers[i] == PayloadEntry(questions[i].id, answers[i].answer, answers[i].time)
      ensures forall i :: 0 <= i < |payload.answers| ==>
        0 <= payload.answers[i].responseTime <= QUESTION_TIME_LIMIT
    {
      submitting := true;
      var entries: seq<PayloadEntry> := [];
      var i := 0;
      while i < |answers|
        invariant 0 <= i <= |answers|
        invariant |entries| == i
        invariant forall k :: 0 <= k < i ==>
          entries[k] == PayloadEntry(questions[k].id, answers[k].answer, answers[k].time)
      {
        entries := entries + [PayloadEntry(questions[i].id, answers[i].answer, answers[i].time)];
        i := i + 1;
      }
      payload := Payload(sessionId, entries);
    }

    /** `handleSubmit` after the request: success leaves review (there is no
        separate "submitted" flag); failure stays in review with the answers
        as they were, so the candidate can submit again. */
    method FinishSubmit(success: bool)
      requires Valid() && submitting
      modifies this
      ensures Valid() && !submitting
      ensures success ==> State() == old(State()).(submitting := false, reviewMode := false)
      ensures !success ==> State() == old(State()).(submitting := false)
      ensures !success ==> reviewMode
    {
      if success {
        reviewMode := false;
      }
      submitting := false;
    }
  }
}
