/** What the submit endpoint does with the answers of a session: each answer
    is written into the first question row of the session that asks its
    question, and the session's score is the share of answers with a
    non-empty response. */
module InterviewSubmit {
  import opened Common
  import opened InterviewModels

  /** A key of a posted JSON object: missing, present with `null`, or present with a value. */
  datatype JsonField<T> = Absent | Null | Given(value: T)

  /** One element of the posted `answers` list. For `question_id` and
      `response`, `None` stands for a missing key or a JSON null, which
      `dict.get` does not tell apart; `response_time` keeps the difference,
      because only a missing key gets the default 0. */
  datatype SubmittedAnswer = SubmittedAnswer(questionId: Option<int>, response: Option<string>, responseTime: JsonField<int>)

  /** Line 125: `ans.get('response_time', 0)`, stored in a nullable column. */
  function StoredTime(t: JsonField<int>): Option<int>
  {
    match t
    case Absent => Some(0)
    case Null => None
    case Given(v) => Some(v)
  }

  /** Python's `bool(response)` for a text that may be missing. */
  predicate Truthy(response: Option<string>)
  {
    response.Some? && response.value != ""
  }

  /** Lines 124-127: the row after an answer is written into it. */
  function Applied(sq: SessionQuestion, a: SubmittedAnswer): (r: SessionQuestion)
    ensures r.id == sq.id && r.sessionId == sq.sessionId && r.questionId == sq.questionId
    ensures r.response == a.response
    ensures a.responseTime.Absent? ==> r.responseTime == Some(0)
    ensures a.responseTime.Null? ==> r.responseTime.None?
    ensures a.responseTime.Given? ==> r.responseTime == Some(a.responseTime.value)
    ensures r.isCorrect == Some(Truthy(a.response))
  {
    sq.(response := a.response, responseTime := StoredTime(a.responseTime), isCorrect := Some(Truthy(a.response)))
  }

  /** A later answer to the same row replaces everything an earlier one wrote. */
  lemma AppliedTwice(sq: SessionQuestion, a: SubmittedAnswer, b: SubmittedAnswer)
    ensures Applied(Applied(sq, a), b) == Applied(sq, b)
  {
  }

  predicate RowMatches(sq: SessionQuestion, sessionId: int, questionId: Option<int>)
  {
    questionId.Some? && sq.sessionId == sessionId && sq.questionId == questionId.value
  }

  /** Line 122: `SessionQuestion.objects.filter(session=..., question_id=qid).first()`,
      rows being kept in primary-key order. A missing `question_id` matches nothing. */
  function FirstMatch(sqs: seq<SessionQuestion>, sessionId: int, questionId: Option<int>): (k: Option<nat>)
    ensures k.Some? ==> k.value < |sqs| && RowMatches(sqs[k.value], sessionId, questionId)
    ensures k.Some? ==> forall j :: 0 <= j < k.value ==> !RowMatches(sqs[j], sessionId, questionId)
    ensures k.None? ==> forall j :: 0 <= j < |sqs| ==> !RowMatches(sqs[j], sessionId, questionId)
  {
    if sqs == [] then None
    else if RowMatches(sqs[0], sessionId, questionId) then Some(0)
    else match FirstMatch(sqs[1..], sessionId, questionId)
      case None => None
      case Some(k) => Some(k + 1)
  }

  /** Lines 120-128 for one answer. */
  function ApplyOne(sqs: seq<SessionQuestion>, sessionId: int, a: SubmittedAnswer): seq<SessionQuestion>
  {
    match FirstMatch(sqs, sessionId, a.questionId)
    case None => sqs
    case Some(k) => sqs[k := Applied(sqs[k], a)]
  }

  /** Lines 119-128: the answers applied in list order. */
  function ApplyAll(sqs: seq<SessionQuestion>, sessionId: int, answers: seq<SubmittedAnswer>): seq<SessionQuestion>
  {
    if answers == [] then sqs
    else ApplyOne(ApplyAll(sqs, sessionId, answers[..|answers| - 1]), sessionId, answers[|answers| - 1])
  }

  /** Two tables with the same row keys, position by position. */
  ghost predicate SameKeys(s: seq<SessionQuestion>, t: seq<SessionQuestion>)
  {
    |s| == |t| && forall k :: 0 <= k < |s| ==> s[k].id == t[k].id && s[k].sessionId == t[k].sessionId && s[k].questionId == t[k].questionId
  }

  lemma {:induction false} FirstMatchSameKeys(s: seq<SessionQuestion>, t: seq<SessionQuestion>, sessionId: int, questionId: Option<int>)
    requires SameKeys(s, t)
    ensures FirstMatch(s, sessionId, questionId) == FirstMatch(t, sessionId, questionId)
  {
    if s != [] {
      assert SameKeys(s[1..], t[1..]) by {
        forall k | 0 <= k < |s[1..]| ensures s[1..][k].sessionId == t[1..][k].sessionId && s[1..][k].questionId == t[1..][k].questionId && s[1..][k].id == t[1..][k].id {
          assert s[1..][k] == s[k + 1] && t[1..][k] == t[k + 1];
        }
      }
      FirstMatchSameKeys(s[1..], t[1..], sessionId, questionId);
    }
  }

  lemma {:induction false} ApplyAllSameKeys(sqs: seq<SessionQuestion>, sessionId: int, answers: seq<SubmittedAnswer>)
    ensures SameKeys(ApplyAll(sqs, sessionId, answers), sqs)
  {
    if answers != [] {
      ApplyAllSameKeys(sqs, sessionId, answers[..|answers| - 1]);
    }
  }

  /** The last answer (in list order) whose question's first row in the session is row `k`. */
  function LastAnswerFor(sqs: seq<SessionQuestion>, sessionId: int, answers: seq<SubmittedAnswer>, k: nat): Option<SubmittedAnswer>
  {
    if answers == [] then None
    else if FirstMatch(sqs, sessionId, answers[|answers| - 1].questionId) == Some(k) then Some(answers[|answers| - 1])
    else LastAnswerFor(sqs, sessionId, answers[..|answers| - 1], k)
  }

  /** Submitting changes no row key and writes into each row exactly what the
      last answer addressed to it carries; a row no answer addresses (another
      session's, or one whose question no answer names) is left as it was. */
  lemma {:induction false} ApplyAllRows(sqs: seq<SessionQuestion>, sessionId: int, answers: seq<SubmittedAnswer>, k: nat)
    requires k < |sqs|
    ensures |ApplyAll(sqs, sessionId, answers)| == |sqs|
    ensures ApplyAll(sqs, sessionId, answers)[k]
         == match LastAnswerFor(sqs, sessionId, answers, k)
            case None => sqs[k]
            case Some(a) => Applied(sqs[k], a)
  {
    ApplyAllSameKeys(sqs, sessionId, answers);
    if answers != [] {
      var init := answers[..|answers| - 1];
      var last := answers[|answers| - 1];
      var before := ApplyAll(sqs, sessionId, init);
      ApplyAllRows(sqs, sessionId, init, k);
      ApplyAllSameKeys(sqs, sessionId, init);
      FirstMatchSameKeys(before, sqs, sessionId, last.questionId);
    }
  }

  /** Rows of other sessions are never touched. */
  lemma OtherSessionsUntouched(sqs: seq<SessionQuestion>, sessionId: int, answers: seq<SubmittedAnswer>, k: nat)
    requires k < |sqs| && sqs[k].sessionId != sessionId
    ensures |ApplyAll(sqs, sessionId, answers)| == |sqs|
    ensures ApplyAll(sqs, sessionId, answers)[k] == sqs[k]
  {
    ApplyAllRows(sqs, sessionId, answers, k);
    LastAnswerForMatches(sqs, sessionId, answers, k);
  }

  lemma {:induction false} LastAnswerForMatches(sqs: seq<SessionQuestion>, sessionId: int, answers: seq<SubmittedAnswer>, k: nat)
    ensures LastAnswerFor(sqs, sessionId, answers, k).Some? ==> k < |sqs| && sqs[k].sessionId == sessionId
  {
    if answers != [] {
      LastAnswerForMatches(sqs, sessionId, answers[..|answers| - 1], k);
    }
  }

  /** Lines 119-128 as a loop over the answers. */
  method ApplyAnswers(sqs: seq<SessionQuestion>, sessionId: int, answers: seq<SubmittedAnswer>)
    returns (result: seq<SessionQuestion>)
    ensures result == ApplyAll(sqs, sessionId, answers)
  {
    result := sqs;
    for i := 0 to |answers|
      invariant result == ApplyAll(sqs, sessionId, answers[..i])
    {
      var a := answers[i];
      assert answers[..i + 1][..i] == answers[..i];
      var k := FirstMatch(result, sessionId, a.questionId);
      if k.Some? {
        result := result[k.value := Applied(result[k.value], a)];
      }
    }
    assert answers[..|answers|] == answers;
  }

  /** Line 131: the percentage of answers with a non-empty response; no answers score 0. */
  function Score(answers: seq<SubmittedAnswer>): real
  {
    (Count(answers, (a: SubmittedAnswer) => Truthy(a.response)) as real) / (if |answers| > 1 then |answers| else 1) as real * 100.0
  }

  /** The score is a percentage: 0 when no response is non-empty, 100 when all are. */
  lemma ScoreBounds(answers: seq<SubmittedAnswer>)
    ensures 0.0 <= Score(answers) <= 100.0
    ensures Score(answers) == 0.0 <==> forall i :: 0 <= i < |answers| ==> !Truthy(answers[i].response)
    ensures |answers| > 0 ==> (Score(answers) == 100.0 <==> Count(answers, (a: SubmittedAnswer) => Truthy(a.response)) == |answers|)
  {
    var p := (a: SubmittedAnswer) => Truthy(a.response);
    var c := Count(answers, p);
    var n := if |answers| > 1 then |answers| else 1;
    CountZeroIffNone(answers, p);
    DivAtMostOne(c as real, n as real);
  }

  lemma DivAtMostOne(a: real, b: real)
    requires 0.0 <= a <= b && b > 0.0
    ensures 0.0 <= a / b <= 1.0
    ensures a / b == 1.0 <==> a == b
    ensures a / b == 0.0 <==> a == 0.0
  {
    var q := a / b;
    assert q * b == a;
    ProductBounds(q, b);
  }

  lemma ProductBounds(q: real, b: real)
    requires b > 0.0
    ensures q > 1.0 ==> q * b > b
    ensures q < 0.0 ==> q * b < 0.0
  {
  }
}
