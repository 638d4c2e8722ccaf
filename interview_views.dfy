/** The interview endpoints of the server (backend/interview/views.py) as
    methods of a `Database` object that holds the four tables: starting an
    interview, submitting its answers, reading a session summary, the admin
    analytics, and the admin's unblock and remove actions. The requester is
    the authenticated user, given by their position in the user table. */
module InterviewViews {
  import opened Common
  import opened InterviewModels
  import opened InterviewSelection
  import opened InterviewSubmit
  import opened InterviewAnalytics
  import Page = InterviewPage

  const NOT_ALLOWED: string := "You are not allowed to take another interview at this time."
  const NO_QUESTIONS: string := "No questions available."
  const SESSION_NOT_FOUND: string := "Session not found."
  const NOT_AUTHORIZED: string := "Not authorized."
  const CANDIDATE_NOT_FOUND: string := "Candidate not found."
  const UNBLOCKED_MESSAGE: string := "Candidate unblocked and can take interview again."
  const REMOVED_MESSAGE: string := "All interview records for candidate removed. Candidate is now blocked until admin unblocks."

  // ------------------------------------------------------------------ user flags

  /** Line 40: a candidate who has completed an interview or is blocked may not start one. */
  predicate MayNotStart(u: User)
    ensures MayNotStart(u) ==> u.role == Candidate
    ensures u.role == Candidate && u.hasCompletedInterview ==> MayNotStart(u)
    ensures u.role == Candidate && u.isBlockedFromInterview ==> MayNotStart(u)
    ensures MayNotStart(u) ==> u.hasCompletedInterview || u.isBlockedFromInterview
  {
    u.role == Candidate && (u.hasCompletedInterview || u.isBlockedFromInterview)
  }

  /** Lines 135-136: a candidate's flag after submitting. */
  function Completed(u: User): (r: User)
    requires u.role == Candidate
    ensures r.id == u.id && r.role == u.role && r.isBlockedFromInterview == u.isBlockedFromInterview
    ensures MayNotStart(r)
  {
    u.(hasCompletedInterview := true)
  }

  /** Lines 299-300: unblocking clears both flags, so the candidate may start again. */
  function Unblocked(u: User): (r: User)
    ensures r.id == u.id && r.role == u.role
    ensures !r.hasCompletedInterview && !r.isBlockedFromInterview
    ensures !MayNotStart(r)
  {
    u.(hasCompletedInterview := false, isBlockedFromInterview := false)
  }

  /** Lines 320-321: after removal the candidate is blocked until unblocked. */
  function Removed(u: User): (r: User)
    requires u.role == Candidate
    ensures r.id == u.id && r.role == u.role
    ensures !r.hasCompletedInterview && r.isBlockedFromInterview
    ensures MayNotStart(r) && Unblocked(r) == Unblocked(u)
  {
    u.(hasCompletedInterview := false, isBlockedFromInterview := true)
  }

  /** The user record as the page receives it (the login response's user). */
  function PageView(u: User): Page.PageUser
  {
    Page.PageUser(if u.role == Candidate then Page.Candidate else Page.Admin,
                  u.hasCompletedInterview, u.isBlockedFromInterview)
  }

  /** The page hides the start button exactly when the server would refuse to start. */
  lemma PageGateAgrees(u: User)
    ensures Page.IsBlocked(Some(PageView(u))) <==> MayNotStart(u)
  {
  }

  // ------------------------------------------------------------------ tables

  function UserIdsOf(users: seq<User>): seq<int>
  {
    seq(|users|, i requires 0 <= i < |users| => users[i].id)
  }

  function SessionIdsOf(ss: seq<Session>): seq<int>
  {
    seq(|ss|, i requires 0 <= i < |ss| => ss[i].id)
  }

  function QuestionIdsOf(qs: seq<Question>): seq<int>
  {
    seq(|qs|, i requires 0 <= i < |qs| => qs[i].id)
  }

  ghost predicate UniqueUserIds(users: seq<User>)
  {
    forall i, j :: 0 <= i < |users| && 0 <= j < |users| && i != j ==> users[i].id != users[j].id
  }

  /** Sessions are kept in primary-key order, every key below the next one to hand out. */
  ghost predicate SessionsOrdered(ss: seq<Session>, next: int)
  {
    && (forall i, j :: 0 <= i < j < |ss| ==> ss[i].id < ss[j].id)
    && (forall i :: 0 <= i < |ss| ==> ss[i].id < next)
  }

  /** Session questions are kept in primary-key order, which is the order `.first()` uses. */
  ghost predicate RowsOrdered(sqs: seq<SessionQuestion>, next: int)
  {
    && (forall i, j :: 0 <= i < j < |sqs| ==> sqs[i].id < sqs[j].id)
    && (forall i :: 0 <= i < |sqs| ==> sqs[i].id < next)
  }

  ghost predicate SessionsOwned(ss: seq<Session>, users: seq<User>)
  {
    forall i :: 0 <= i < |ss| ==> ss[i].userId in UserIdsOf(users)
  }

  ghost predicate RowsLinked(sqs: seq<SessionQuestion>, ss: seq<Session>, qs: seq<Question>)
  {
    forall i :: 0 <= i < |sqs| ==> sqs[i].sessionId in SessionIdsOf(ss) && sqs[i].questionId in QuestionIdsOf(qs)
  }

  /** The database invariant: unique keys, keys in order, and every foreign key resolves. */
  ghost predicate Tables(users: seq<User>, qs: seq<Question>, ss: seq<Session>, sqs: seq<SessionQuestion>,
                         nextSession: int, nextRow: int)
  {
    && UniqueUserIds(users) && UniqueQuestionIds(qs)
    && SessionsOrdered(ss, nextSession) && RowsOrdered(sqs, nextRow)
    && SessionsOwned(ss, users) && RowsLinked(sqs, ss, qs)
  }

  // ------------------------------------------------------------------ lookups

  /** `InterviewSession.objects.get(id=...)`: the position of the session with that key. */
  function FindSession(ss: seq<Session>, id: int): (k: Option<nat>)
    ensures k.Some? ==> k.value < |ss| && ss[k.value].id == id
    ensures k.None? ==> forall i :: 0 <= i < |ss| ==> ss[i].id != id
  {
    if ss == [] then None
    else if ss[0].id == id then Some(0)
    else match FindSession(ss[1..], id)
      case None => None
      case Some(k) => Some(k + 1)
  }

  /** Line 115: the session with that key, owned by that user; a missing key matches nothing. */
  function FindOwnedSession(ss: seq<Session>, id: Option<int>, userId: int): (k: Option<nat>)
    ensures k.Some? ==> id.Some? && k.value < |ss| && ss[k.value].id == id.value && ss[k.value].userId == userId
    ensures k.None? ==> forall i :: 0 <= i < |ss| ==> !(id.Some? && ss[i].id == id.value && ss[i].userId == userId)
  {
    if ss == [] then None
    else if id.Some? && ss[0].id == id.value && ss[0].userId == userId then Some(0)
    else match FindOwnedSession(ss[1..], id, userId)
      case None => None
      case Some(k) => Some(k + 1)
  }

  /** Lines 295, 312: `User.objects.get(id=..., role='candidate')`. */
  function FindCandidate(users: seq<User>, id: int): (k: Option<nat>)
    ensures k.Some? ==> k.value < |users| && users[k.value].id == id && users[k.value].role == Candidate
    ensures k.None? ==> forall i :: 0 <= i < |users| ==> !(users[i].id == id && users[i].role == Candidate)
  {
    if users == [] then None
    else if users[0].id == id && users[0].role == Candidate then Some(0)
    else match FindCandidate(users[1..], id)
      case None => None
      case Some(k) => Some(k + 1)
  }

  /** The question a session question points at. */
  function QuestionById(qs: seq<Question>, id: int): (q: Question)
    requires id in QuestionIdsOf(qs)
    ensures q in qs && q.id == id
  {
    if qs[0].id == id then qs[0]
    else
      assert QuestionIdsOf(qs) == [qs[0].id] + QuestionIdsOf(qs[1..]);
      QuestionById(qs[1..], id)
  }

  // ------------------------------------------------------------------ start

  datatype StartBody = StartBody(sessionId: int, questions: seq<Question>)

  /** Lines 99-101: one new session question per selected question, keys handed out in order. */
  function NewRows(first: int, sessionId: int, qs: seq<Question>): seq<SessionQuestion>
  {
    seq(|qs|, i requires 0 <= i < |qs| => SessionQuestion(first + i, sessionId, qs[i].id, None, None, None))
  }

  function OfSession(sessionId: int): SessionQuestion -> bool
  {
    (r: SessionQuestion) => r.sessionId == sessionId
  }

  /** The session's questions, in key order (the summary's `sessionquestion_set`). */
  function SessionRows(sqs: seq<SessionQuestion>, sessionId: int): seq<SessionQuestion>
  {
    Filter(sqs, OfSession(sessionId))
  }

  /** A new session has exactly one question row per selected question, in
      the order the start response lists the questions, none answered yet. */
  lemma StartRows(sqs: seq<SessionQuestion>, first: int, sessionId: int, qs: seq<Question>)
    requires forall i :: 0 <= i < |sqs| ==> sqs[i].sessionId != sessionId
    ensures var rows := SessionRows(sqs + NewRows(first, sessionId, qs), sessionId);
      && |rows| == |qs|
      && (forall i :: 0 <= i < |qs| ==>
            rows[i].questionId == qs[i].id && rows[i].sessionId == sessionId
            && rows[i].response.None? && rows[i].isCorrect.None?)
  {
    var p := OfSession(sessionId);
    var added := NewRows(first, sessionId, qs);
    FilterAppend(sqs, added, p);
    FilterNone(sqs, p);
    FilterAll(added, p);
  }

  /** Lines 100-101 as the loop that creates the rows one by one. */
  method CreateRows(first: int, sessionId: int, qs: seq<Question>) returns (rows: seq<SessionQuestion>)
    ensures rows == NewRows(first, sessionId, qs)
  {
    rows := [];
    for i := 0 to |qs|
      invariant rows == NewRows(first, sessionId, qs[..i])
    {
      assert NewRows(first, sessionId, qs[..i + 1]) == rows + [SessionQuestion(first + i, sessionId, qs[i].id, None, None, None)];
      rows := rows + [SessionQuestion(first + i, sessionId, qs[i].id, None, None, None)];
    }
    assert qs[..|qs|] == qs;
  }

  // ------------------------------------------------------------------ summary

  datatype SummaryBody = SummaryBody(session: Session, rows: seq<SessionQuestion>)

  /** Line 150: the session's owner and admins may read its summary. */
  predicate MaySee(u: User, s: Session)
  {
    s.userId == u.id || u.role == Admin
  }

  // ------------------------------------------------------------------ analytics

  /** Lines 267-268: every session question, answered or not, with its question's topic. */
  function AnalyticsRows(sqs: seq<SessionQuestion>, qs: seq<Question>): (rows: seq<AnalyticsRow>)
    requires forall i :: 0 <= i < |sqs| ==> sqs[i].questionId in QuestionIdsOf(qs)
    ensures |rows| == |sqs|
    ensures forall i :: 0 <= i < |sqs| ==>
      rows[i].questionId == sqs[i].questionId && rows[i].isCorrect == sqs[i].isCorrect
      && exists q :: q in qs && q.id == sqs[i].questionId && rows[i].topic == q.topic
  {
    seq(|sqs|, i requires 0 <= i < |sqs| =>
      AnalyticsRow(QuestionById(qs, sqs[i].questionId).topic, sqs[i].questionId, sqs[i].isCorrect))
  }

  datatype AnalyticsBody = AnalyticsBody(totalSessions: nat, topicStats: map<string, TopicStat>, mostMissed: Tally)

  // ------------------------------------------------------------------ remove

  function NotOwnedBy(userId: int): Session -> bool
  {
    (s: Session) => s.userId != userId
  }

  /** Line 316: the keys of the candidate's sessions. */
  function RemovedIds(ss: seq<Session>, userId: int): set<int>
  {
    set s | s in ss && s.userId == userId :: s.id
  }

  function NotIn(ids: set<int>): SessionQuestion -> bool
  {
    (r: SessionQuestion) => r.sessionId !in ids
  }

  /** Line 318: the sessions left after deleting the candidate's. */
  function KeepSessions(ss: seq<Session>, userId: int): seq<Session>
  {
    Filter(ss, NotOwnedBy(userId))
  }

  /** Line 317: the session questions left after deleting those of the candidate's sessions. */
  function KeepRows(sqs: seq<SessionQuestion>, ss: seq<Session>, userId: int): seq<SessionQuestion>
  {
    Filter(sqs, NotIn(RemovedIds(ss, userId)))
  }

  /** Removal deletes exactly the candidate's sessions and the questions of
      those sessions, keeps every other record, and keeps their order. */
  lemma RemoveExactly(ss: seq<Session>, sqs: seq<SessionQuestion>, userId: int)
    requires forall i :: 0 <= i < |sqs| ==> sqs[i].sessionId in SessionIdsOf(ss)
    requires forall i, j :: 0 <= i < |ss| && 0 <= j < |ss| && ss[i].id == ss[j].id ==> i == j
    ensures forall s :: s in KeepSessions(ss, userId) <==> s in ss && s.userId != userId
    ensures forall r :: r in KeepRows(sqs, ss, userId) <==>
      r in sqs && exists s :: s in KeepSessions(ss, userId) && s.id == r.sessionId
  {
    FilterMembers(ss, NotOwnedBy(userId));
    FilterMembers(sqs, NotIn(RemovedIds(ss, userId)));
    forall r | r in sqs ensures r.sessionId !in RemovedIds(ss, userId) <==> exists s :: s in KeepSessions(ss, userId) && s.id == r.sessionId {
      var k :| 0 <= k < |sqs| && sqs[k] == r;
      var j :| 0 <= j < |ss| && SessionIdsOf(ss)[j] == r.sessionId;
      if r.sessionId !in RemovedIds(ss, userId) {
        assert ss[j] in KeepSessions(ss, userId);
      } else {
        var s0 :| s0 in ss && s0.userId == userId && s0.id == r.sessionId;
        forall s | s in KeepSessions(ss, userId) ensures s.id != r.sessionId {
          var a :| 0 <= a < |ss| && ss[a] == s;
          var b :| 0 <= b < |ss| && ss[b] == s0;
          assert a != b;
        }
      }
    }
  }

  // ------------------------------------------------------------------ invariant lemmas

  lemma QuestionIdIn(qs: seq<Question>, q: Question)
    requires q in qs
    ensures q.id in QuestionIdsOf(qs)
  {
    var j :| 0 <= j < |qs| && qs[j] == q;
    assert QuestionIdsOf(qs)[j] == q.id;
  }

  lemma SessionIdIn(ss: seq<Session>, j: nat)
    requires j < |ss|
    ensures ss[j].id in SessionIdsOf(ss)
  {
    assert SessionIdsOf(ss)[j] == ss[j].id;
  }

  /** Starting an interview keeps the database invariant. */
  lemma StartKeepsTables(users: seq<User>, qs: seq<Question>, ss: seq<Session>, sqs: seq<SessionQuestion>,
                         nextSession: int, nextRow: int, userId: int, sel: seq<Question>)
    requires Tables(users, qs, ss, sqs, nextSession, nextRow)
    requires userId in UserIdsOf(users)
    requires forall q :: q in sel ==> q in qs
    ensures forall i :: 0 <= i < |sqs| ==> sqs[i].sessionId != nextSession
    ensures Tables(users, qs, ss + [Session(nextSession, userId, false, None)],
                   sqs + NewRows(nextRow, nextSession, sel), nextSession + 1, nextRow + |sel|)
  {
    var ss' := ss + [Session(nextSession, userId, false, None)];
    var added := NewRows(nextRow, nextSession, sel);
    var sqs' := sqs + added;
    assert SessionIdsOf(ss') == SessionIdsOf(ss) + [nextSession];
    forall i | 0 <= i < |sqs| ensures sqs[i].sessionId != nextSession {
      var j :| 0 <= j < |ss| && SessionIdsOf(ss)[j] == sqs[i].sessionId;
    }
    forall i | 0 <= i < |sqs'|
      ensures sqs'[i].sessionId in SessionIdsOf(ss') && sqs'[i].questionId in QuestionIdsOf(qs)
    {
      if i >= |sqs| {
        assert sqs'[i] == added[i - |sqs|];
        QuestionIdIn(qs, sel[i - |sqs|]);
      }
    }
    assert SessionsOwned(ss', users);
    assert RowsOrdered(sqs', nextRow + |sel|);
  }

  /** Starting with the bank's selection keeps the database invariant. */
  lemma StartSelectionKeepsTables(users: seq<User>, qs: seq<Question>, ss: seq<Session>, sqs: seq<SessionQuestion>,
                                  nextSession: int, nextRow: int, me: nat, rnd: seq<seq<nat>>)
    requires Tables(users, qs, ss, sqs, nextSession, nextRow) && me < |users| && qs != []
    ensures var sel := SelectedAsWritten(qs, rnd);
      Tables(users, qs, ss + [Session(nextSession, users[me].id, false, None)],
             sqs + NewRows(nextRow, nextSession, sel), nextSession + 1, nextRow + |sel|)
  {
    SelectionAsWrittenBounds(qs, rnd);
    assert UserIdsOf(users)[me] == users[me].id;
    StartKeepsTables(users, qs, ss, sqs, nextSession, nextRow, users[me].id, SelectedAsWritten(qs, rnd));
  }

  /** Rows with the same keys, position by position, satisfy the same invariant. */
  lemma SameKeysTables(users: seq<User>, qs: seq<Question>, ss: seq<Session>, sqs: seq<SessionQuestion>,
                       nextSession: int, nextRow: int, sqs': seq<SessionQuestion>)
    requires Tables(users, qs, ss, sqs, nextSession, nextRow) && SameKeys(sqs', sqs)
    ensures Tables(users, qs, ss, sqs', nextSession, nextRow)
  {
  }

  /** Submitting keeps the database invariant. */
  lemma SubmitKeepsTables(users: seq<User>, qs: seq<Question>, ss: seq<Session>, sqs: seq<SessionQuestion>,
                          nextSession: int, nextRow: int, k: nat, sq: Session, answers: seq<SubmittedAnswer>,
                          me: nat, u: User)
    requires Tables(users, qs, ss, sqs, nextSession, nextRow)
    requires k < |ss| && sq.id == ss[k].id && sq.userId == ss[k].userId
    requires me < |users| && u.id == users[me].id
    ensures Tables(users[me := u], qs, ss[k := sq], ApplyAll(sqs, ss[k].id, answers), nextSession, nextRow)
  {
    ApplyAllSameKeys(sqs, ss[k].id, answers);
    SameKeysTables(users, qs, ss, sqs, nextSession, nextRow, ApplyAll(sqs, ss[k].id, answers));
    assert UserIdsOf(users[me := u]) == UserIdsOf(users);
    assert SessionIdsOf(ss[k := sq]) == SessionIdsOf(ss);
  }

  function SessionKey(s: Session): int { s.id }

  function RowKey(r: SessionQuestion): int { r.id }

  lemma KeepSessionsOrdered(ss: seq<Session>, next: int, userId: int)
    requires SessionsOrdered(ss, next)
    ensures SessionsOrdered(KeepSessions(ss, userId), next)
  {
    var r := KeepSessions(ss, userId);
    assert IncreasingBy(ss, SessionKey);
    FilterIncreasing(ss, NotOwnedBy(userId), SessionKey);
    assert IncreasingBy(r, SessionKey);
    FilterMembers(ss, NotOwnedBy(userId));
    forall i, j | 0 <= i < j < |r| ensures r[i].id < r[j].id {
      assert SessionKey(r[i]) < SessionKey(r[j]);
    }
    forall i | 0 <= i < |r| ensures r[i].id < next {
      assert r[i] in ss;
    }
  }

  lemma KeepRowsOrdered(sqs: seq<SessionQuestion>, next: int, ss: seq<Session>, userId: int)
    requires RowsOrdered(sqs, next)
    ensures RowsOrdered(KeepRows(sqs, ss, userId), next)
  {
    var r := KeepRows(sqs, ss, userId);
    assert IncreasingBy(sqs, RowKey);
    FilterIncreasing(sqs, NotIn(RemovedIds(ss, userId)), RowKey);
    assert IncreasingBy(r, RowKey);
    FilterMembers(sqs, NotIn(RemovedIds(ss, userId)));
    forall i, j | 0 <= i < j < |r| ensures r[i].id < r[j].id {
      assert RowKey(r[i]) < RowKey(r[j]);
    }
    forall i | 0 <= i < |r| ensures r[i].id < next {
      assert r[i] in sqs;
    }
  }

  lemma KeepSessionsOwned(ss: seq<Session>, users: seq<User>, userId: int)
    requires SessionsOwned(ss, users)
    ensures SessionsOwned(KeepSessions(ss, userId), users)
  {
    var r := KeepSessions(ss, userId);
    FilterMembers(ss, NotOwnedBy(userId));
    forall i | 0 <= i < |r| ensures r[i].userId in UserIdsOf(users) {
      assert r[i] in ss;
    }
  }

  lemma KeepRowsLinked(sqs: seq<SessionQuestion>, ss: seq<Session>, qs: seq<Question>, next: int, userId: int)
    requires RowsLinked(sqs, ss, qs) && SessionsOrdered(ss, next)
    ensures RowsLinked(KeepRows(sqs, ss, userId), KeepSessions(ss, userId), qs)
  {
    var ss' := KeepSessions(ss, userId);
    var sqs' := KeepRows(sqs, ss, userId);
    assert forall i, j :: 0 <= i < |ss| && 0 <= j < |ss| && ss[i].id == ss[j].id ==> i == j;
    RemoveExactly(ss, sqs, userId);
    forall i | 0 <= i < |sqs'| ensures sqs'[i].sessionId in SessionIdsOf(ss') && sqs'[i].questionId in QuestionIdsOf(qs) {
      var r := sqs'[i];
      assert r in sqs;
      var s :| s in ss' && s.id == r.sessionId;
      var j :| 0 <= j < |ss'| && ss'[j] == s;
      SessionIdIn(ss', j);
      var k :| 0 <= k < |sqs| && sqs[k] == r;
    }
  }

  /** Removing a candidate's records keeps the database invariant. */
  lemma RemoveKeepsTables(users: seq<User>, qs: seq<Question>, ss: seq<Session>, sqs: seq<SessionQuestion>,
                          nextSession: int, nextRow: int, me: nat, u: User)
    requires Tables(users, qs, ss, sqs, nextSession, nextRow)
    requires me < |users| && u.id == users[me].id
    ensures Tables(users[me := u], qs, KeepSessions(ss, users[me].id), KeepRows(sqs, ss, users[me].id), nextSession, nextRow)
  {
    var cid := users[me].id;
    assert UserIdsOf(users[me := u]) == UserIdsOf(users);
    KeepSessionsOrdered(ss, nextSession, cid);
    KeepRowsOrdered(sqs, nextRow, ss, cid);
    KeepSessionsOwned(ss, users, cid);
    KeepRowsLinked(sqs, ss, qs, nextSession, cid);
  }

  // ------------------------------------------------------------------ the database

  class Database {
    var users: seq<User>
    var questions: seq<Question>
    var sessions: seq<Session>
    var sessionQuestions: seq<SessionQuestion>
    var nextSessionId: int
    var nextRowId: int

    ghost predicate Valid()
      reads this
    {
      Tables(users, questions, sessions, sessionQuestions, nextSessionId, nextRowId)
    }

    /** A database with the given users and question bank and no sessions yet. */
    constructor (users: seq<User>, questions: seq<Question>)
      requires UniqueUserIds(users) && UniqueQuestionIds(questions)
      ensures Valid()
      ensures this.users == users && this.questions == questions
      ensures sessions == [] && sessionQuestions == [] && nextSessionId == 1 && nextRowId == 1
    {
      this.users := users;
      this.questions := questions;
      sessions := [];
      sessionQuestions := [];
      nextSessionId := 1;
      nextRowId := 1;
    }

    /** Lines 99-106: a new session of user `me` holding the questions `sel`. */
    method CreateSession(me: nat, sel: seq<Question>) returns (reply: Reply<StartBody>)
      requires Valid() && me < |users|
      requires forall q :: q in sel ==> q in questions
      modifies this
      ensures Valid()
      ensures users == old(users) && questions == old(questions)
      ensures reply == Ok(StartBody(old(nextSessionId), sel))
      ensures sessions == old(sessions) + [Session(old(nextSessionId), users[me].id, false, None)]
      ensures sessionQuestions == old(sessionQuestions) + NewRows(old(nextRowId), old(nextSessionId), sel)
      ensures nextSessionId == old(nextSessionId) + 1 && nextRowId == old(nextRowId) + |sel|
    {
      var u := users[me];
      assert UserIdsOf(users)[me] == u.id;
      StartKeepsTables(users, questions, sessions, sessionQuestions, nextSessionId, nextRowId, u.id, sel);
      var sid := nextSessionId;
      var rows := CreateRows(nextRowId, sid, sel);
      sessions := sessions + [Session(sid, u.id, false, None)];
      nextSessionId := nextSessionId + 1;
      sessionQuestions := sessionQuestions + rows;
      nextRowId := nextRowId + |sel|;
      reply := Ok(StartBody(sid, sel));
    }

    /** `StartInterviewView.post` (lines 38-106), with the selection as written. */
    method Start(me: nat, rnd: seq<seq<nat>>) returns (reply: Reply<StartBody>)
      requires Valid() && me < |users|
      modifies this
      ensures Valid()
      ensures users == old(users) && questions == old(questions)
      ensures MayNotStart(users[me]) ==> reply == Error(FORBIDDEN, NOT_ALLOWED)
      ensures !MayNotStart(users[me]) && questions == [] ==> reply == Error(BAD_REQUEST, NO_QUESTIONS)
      ensures reply.Error? ==> unchanged(this)
      ensures !MayNotStart(users[me]) && questions != [] ==>
        var sel := SelectedAsWritten(questions, rnd);
        && reply == Ok(StartBody(old(nextSessionId), sel))
        && sessions == old(sessions) + [Session(old(nextSessionId), users[me].id, false, None)]
        && sessionQuestions == old(sessionQuestions) + NewRows(old(nextRowId), old(nextSessionId), sel)
        && nextSessionId == old(nextSessionId) + 1 && nextRowId == old(nextRowId) + |sel|
    {
      if MayNotStart(users[me]) {
        return Error(FORBIDDEN, NOT_ALLOWED);
      }
      if questions == [] {
        return Error(BAD_REQUEST, NO_QUESTIONS);
      }
      var sel := SelectQuestionsAsWritten(questions, rnd);
      SelectionAsWrittenBounds(questions, rnd);
      reply := CreateSession(me, sel);
    }

    /** The start endpoint with the corrected selection, whose fill pass runs
        once after the distribution loop: the new session lists each question
        at most once. */
    method StartIntended(me: nat, rnd: seq<seq<nat>>) returns (reply: Reply<StartBody>)
      requires Valid() && me < |users|
      modifies this
      ensures Valid()
      ensures users == old(users) && questions == old(questions)
      ensures MayNotStart(users[me]) ==> reply == Error(FORBIDDEN, NOT_ALLOWED)
      ensures !MayNotStart(users[me]) && questions == [] ==> reply == Error(BAD_REQUEST, NO_QUESTIONS)
      ensures reply.Error? ==> unchanged(this)
      ensures !MayNotStart(users[me]) && questions != [] ==>
        var sel := Selected(questions, rnd);
        && reply == Ok(StartBody(old(nextSessionId), sel))
        && Distinct(sel)
        && sessions == old(sessions) + [Session(old(nextSessionId), users[me].id, false, None)]
        && sessionQuestions == old(sessionQuestions) + NewRows(old(nextRowId), old(nextSessionId), sel)
        && nextSessionId == old(nextSessionId) + 1 && nextRowId == old(nextRowId) + |sel|
    {
      if MayNotStart(users[me]) {
        return Error(FORBIDDEN, NOT_ALLOWED);
      }
      if questions == [] {
        return Error(BAD_REQUEST, NO_QUESTIONS);
      }
      var sel := SelectQuestions(questions, rnd);
      UniqueIdsAreDistinct(questions);
      SelectionBounds(questions, rnd);
      reply := CreateSession(me, sel);
    }

    /** `SubmitAnswersView.post` (lines 111-138); the reply carries the score. */
    method Submit(me: nat, sessionId: Option<int>, answers: seq<SubmittedAnswer>) returns (reply: Reply<real>)
      requires Valid() && me < |users|
      modifies this
      ensures Valid()
      ensures questions == old(questions) && nextSessionId == old(nextSessionId) && nextRowId == old(nextRowId)
      ensures var k := FindOwnedSession(old(sessions), sessionId, old(users)[me].id);
        && (k.None? ==> reply == Error(NOT_FOUND, SESSION_NOT_FOUND) && unchanged(this))
        && (k.Some? ==>
              var s := old(sessions)[k.value];
              && reply == Ok(Score(answers))
              && sessionQuestions == ApplyAll(old(sessionQuestions), s.id, answers)
              && sessions == old(sessions)[k.value := s.(ended := true, score := Some(Score(answers)))]
              && users == if old(users)[me].role == Candidate then old(users)[me := Completed(old(users)[me])] else old(users))
    {
      var u := users[me];
      var k := FindOwnedSession(sessions, sessionId, u.id);
      if k.None? {
        return Error(NOT_FOUND, SESSION_NOT_FOUND);
      }
      var s := sessions[k.value];
      var score := Score(answers);
      var u' := if u.role == Candidate then Completed(u) else u;
      SubmitKeepsTables(users, questions, sessions, sessionQuestions, nextSessionId, nextRowId,
                        k.value, s.(ended := true, score := Some(score)), answers, me, u');
      sessionQuestions := ApplyAnswers(sessionQuestions, s.id, answers);
      sessions := sessions[k.value := s.(ended := true, score := Some(score))];
      if u.role == Candidate {
        users := users[me := Completed(u)];
      }
      reply := Ok(score);
    }

    /** `SessionSummaryView.get` (lines 143-154). */
    method Summary(me: nat, sessionId: int) returns (reply: Reply<SummaryBody>)
      requires Valid() && me < |users|
      ensures var k := FindSession(sessions, sessionId);
        && (k.None? ==> reply == Error(NOT_FOUND, SESSION_NOT_FOUND))
        && (k.Some? && !MaySee(users[me], sessions[k.value]) ==> reply == Error(FORBIDDEN, NOT_AUTHORIZED))
        && (k.Some? && MaySee(users[me], sessions[k.value]) ==>
              reply == Ok(SummaryBody(sessions[k.value], SessionRows(sessionQuestions, sessionId))))
    {
      var k := FindSession(sessions, sessionId);
      if k.None? {
        return Error(NOT_FOUND, SESSION_NOT_FOUND);
      }
      var s := sessions[k.value];
      if s.userId != users[me].id && users[me].role != Admin {
        return Error(FORBIDDEN, NOT_AUTHORIZED);
      }
      reply := Ok(SummaryBody(s, SessionRows(sessionQuestions, sessionId)));
    }

    /** `AdminAnalyticsView.get` (lines 256-285), without the average score. */
    method Analytics(me: nat) returns (reply: Reply<AnalyticsBody>)
      requires Valid() && me < |users|
      ensures users[me].role != Admin ==> reply == Error(FORBIDDEN, NOT_AUTHORIZED)
      ensures users[me].role == Admin ==>
        var rows := AnalyticsRows(sessionQuestions, questions);
        reply == Ok(AnalyticsBody(|sessions|, TopicStats(rows), MostMissed(MissTally(rows))))
    {
      if users[me].role != Admin {
        return Error(FORBIDDEN, NOT_AUTHORIZED);
      }
      var rows := AnalyticsRows(sessionQuestions, questions);
      var stats, tally := CountRows(rows);
      reply := Ok(AnalyticsBody(|sessions|, stats, MostMissed(tally)));
    }

    /** `AdminUnblockCandidateView.post` (lines 290-303). */
    method Unblock(me: nat, candidateId: int) returns (reply: Reply<string>)
      requires Valid() && me < |users|
      modifies this
      ensures Valid()
      ensures questions == old(questions) && sessions == old(sessions) && sessionQuestions == old(sessionQuestions)
      ensures nextSessionId == old(nextSessionId) && nextRowId == old(nextRowId)
      ensures old(users)[me].role != Admin ==> reply == Error(FORBIDDEN, NOT_AUTHORIZED) && users == old(users)
      ensures old(users)[me].role == Admin ==>
        match FindCandidate(old(users), candidateId)
        case None => reply == Error(NOT_FOUND, CANDIDATE_NOT_FOUND) && users == old(users)
        case Some(k) => reply == Ok(UNBLOCKED_MESSAGE) && users == old(users)[k := Unblocked(old(users)[k])]
    {
      if users[me].role != Admin {
        return Error(FORBIDDEN, NOT_AUTHORIZED);
      }
      var k := FindCandidate(users, candidateId);
      if k.None? {
        return Error(NOT_FOUND, CANDIDATE_NOT_FOUND);
      }
      assert UserIdsOf(users[k.value := Unblocked(users[k.value])]) == UserIdsOf(users);
      users := users[k.value := Unblocked(users[k.value])];
      reply := Ok(UNBLOCKED_MESSAGE);
    }

    /** `AdminRemoveCandidateView.delete` (lines 308-323). */
    method Remove(me: nat, candidateId: int) returns (reply: Reply<string>)
      requires Valid() && me < |users|
      modifies this
      ensures Valid()
      ensures questions == old(questions) && nextSessionId == old(nextSessionId) && nextRowId == old(nextRowId)
      ensures old(users)[me].role != Admin ==> reply == Error(FORBIDDEN, NOT_AUTHORIZED) && unchanged(this)
      ensures old(users)[me].role == Admin ==>
        match FindCandidate(old(users), candidateId)
        case None => reply == Error(NOT_FOUND, CANDIDATE_NOT_FOUND) && unchanged(this)
        case Some(k) =>
          && reply == Ok(REMOVED_MESSAGE)
          && sessions == KeepSessions(old(sessions), candidateId)
          && sessionQuestions == KeepRows(old(sessionQuestions), old(sessions), candidateId)
          && users == old(users)[k := Removed(old(users)[k])]
    {
      if users[me].role != Admin {
        return Error(FORBIDDEN, NOT_AUTHORIZED);
      }
      var k := FindCandidate(users, candidateId);
      if k.None? {
        return Error(NOT_FOUND, CANDIDATE_NOT_FOUND);
      }
      var c := users[k.value];
      RemoveKeepsTables(users, questions, sessions, sessionQuestions, nextSessionId, nextRowId, k.value, Removed(c));
      sessionQuestions := KeepRows(sessionQuestions, sessions, candidateId);
      sessions := KeepSessions(sessions, candidateId);
      users := users[k.value := Removed(c)];
      reply := Ok(REMOVED_MESSAGE);
    }
  }
}
