/** The server's tables (users, questions, interview sessions and the
    questions asked in each session) as records, and the reply of an API
    view: a body, or an HTTP error status with an error text. */
module InterviewModels {
  import opened Common

  datatype Role = Candidate | Admin

  datatype User = User(id: int, role: Role, hasCompletedInterview: bool, isBlockedFromInterview: bool)

  datatype Question = Question(id: int, text: string, topic: string, difficulty: string, timeRequired: int)

  /** `end_time` is a clock reading in the source; only whether it is set is kept. */
  datatype Session = Session(id: int, userId: int, ended: bool, score: Option<real>)

  /** A question asked in a session, with the answer once submitted. */
  datatype SessionQuestion = SessionQuestion(
    id: int, sessionId: int, questionId: int,
    response: Option<string>, responseTime: Option<int>, isCorrect: Option<bool>)

  datatype Reply<T> = Ok(body: T) | Error(status: int, message: string)

  const BAD_REQUEST: int := 400
  const UNAUTHORIZED: int := 401
  const FORBIDDEN: int := 403
  const NOT_FOUND: int := 404

  /** Every element occurs at most once. */
  ghost predicate Distinct<T(!new)>(s: seq<T>)
  {
    forall x :: multiset(s)[x] <= 1
  }

  /** No two rows share a primary key. */
  ghost predicate UniqueQuestionIds(qs: seq<Question>)
  {
    forall i, j :: 0 <= i < |qs| && 0 <= j < |qs| && i != j ==> qs[i].id != qs[j].id
  }

  /** Rows with distinct keys are distinct records, so comparing questions by
      key (as Django does) and comparing them as records agree on a table. */
  lemma {:induction false} UniqueIdsAreDistinct(qs: seq<Question>)
    requires UniqueQuestionIds(qs)
    ensures Distinct(qs)
  {
    if qs != [] {
      var init := qs[..|qs| - 1];
      var last := qs[|qs| - 1];
      assert UniqueQuestionIds(init) by {
        forall i, j | 0 <= i < |init| && 0 <= j < |init| && i != j ensures init[i].id != init[j].id {
          assert init[i] == qs[i] && init[j] == qs[j];
        }
      }
      UniqueIdsAreDistinct(init);
      assert qs == init + [last];
      assert last !in init by {
        forall i | 0 <= i < |init| ensures init[i] != last {
          assert init[i] == qs[i];
        }
      }
      forall x ensures multiset(qs)[x] <= 1 {
        assert multiset(qs)[x] == multiset(init)[x] + multiset([last])[x];
      }
    }
  }

  lemma DistinctSubMultiset<T(!new)>(s: seq<T>, t: seq<T>)
    requires Distinct(t) && multiset(s) <= multiset(t)
    ensures Distinct(s)
  {
    forall x ensures multiset(s)[x] <= 1 {
      assert multiset(s)[x] <= multiset(t)[x];
    }
  }

  /** Appending rows that do not meet the existing ones keeps the rows distinct. */
  lemma DistinctAppend<T(!new)>(s: seq<T>, t: seq<T>)
    requires Distinct(s) && Distinct(t)
    requires forall x :: x in t ==> x !in s
    ensures Distinct(s + t)
  {
    forall x ensures multiset(s + t)[x] <= 1 {
      assert multiset(s + t)[x] == multiset(s)[x] + multiset(t)[x];
      if x in t {
        assert x !in multiset(s);
      }
    }
  }
}
