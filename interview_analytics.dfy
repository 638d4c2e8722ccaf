/** The admin analytics counts: per topic, how many session questions were
    asked and how many were not answered correctly; per question, how many
    times it was missed; and the five most missed questions. */
module InterviewAnalytics {
  import opened Common
  import opened InterviewModels

  /** What the counting loop reads of one session question: its question's
      topic and id, and whether it was marked correct. */
  datatype AnalyticsRow = AnalyticsRow(topic: string, questionId: int, isCorrect: Option<bool>)

  datatype TopicStat = TopicStat(total: nat, missed: nat)

  /** Python's `not sq.is_correct`: false, and also a question never marked. */
  predicate Missed(r: AnalyticsRow)
  {
    r.isCorrect != Some(true)
  }

  // ------------------------------------------------------------------ topic statistics

  /** Lines 268-272 for one row. */
  function BumpTopic(stats: map<string, TopicStat>, r: AnalyticsRow): map<string, TopicStat>
  {
    var prev := if r.topic in stats then stats[r.topic] else TopicStat(0, 0);
    stats[r.topic := TopicStat(prev.total + 1, prev.missed + if Missed(r) then 1 else 0)]
  }

  /** Lines 267-272: `topic_stats` after the rows, in order. */
  function TopicStats(rows: seq<AnalyticsRow>): map<string, TopicStat>
  {
    if rows == [] then map[] else BumpTopic(TopicStats(rows[..|rows| - 1]), rows[|rows| - 1])
  }

  function OfTopic(t: string): AnalyticsRow -> bool
  {
    (r: AnalyticsRow) => r.topic == t
  }

  function MissedOfTopic(t: string): AnalyticsRow -> bool
  {
    (r: AnalyticsRow) => r.topic == t && Missed(r)
  }

  /** A topic has an entry exactly when some row has that topic; its `total`
      counts the rows of the topic and its `missed` the ones not correct. */
  lemma {:induction false} TopicStatsCount(rows: seq<AnalyticsRow>, t: string)
    ensures t in TopicStats(rows) <==> Count(rows, OfTopic(t)) > 0
    ensures t in TopicStats(rows) ==>
      && TopicStats(rows)[t].total == Count(rows, OfTopic(t))
      && TopicStats(rows)[t].missed == Count(rows, MissedOfTopic(t))
  {
    if rows != [] {
      var init := rows[..|rows| - 1];
      TopicStatsCount(init, t);
      CountMonotone(init, MissedOfTopic(t), OfTopic(t));
      assert Count(rows, OfTopic(t)) == Count(init, OfTopic(t)) + (if OfTopic(t)(rows[|rows| - 1]) then 1 else 0);
      assert Count(rows, MissedOfTopic(t)) == Count(init, MissedOfTopic(t)) + (if MissedOfTopic(t)(rows[|rows| - 1]) then 1 else 0);
    }
  }

  /** No topic has more missed than asked questions. */
  lemma {:induction false} MissedAtMostTotal(rows: seq<AnalyticsRow>, t: string)
    requires t in TopicStats(rows)
    ensures TopicStats(rows)[t].missed <= TopicStats(rows)[t].total
  {
    var init := rows[..|rows| - 1];
    if t in TopicStats(init) {
      MissedAtMostTotal(init, t);
    }
  }

  // ------------------------------------------------------------------ miss counts

  /** `miss_count` as a Python dict: (question id, count) pairs in first-miss order. */
  type Tally = seq<(int, nat)>

  /** The position of a question's entry, if it has one. */
  function IndexOf(tally: Tally, qid: int): (k: Option<nat>)
    ensures k.Some? ==> k.value < |tally| && tally[k.value].0 == qid
    ensures k.None? ==> forall i :: 0 <= i < |tally| ==> tally[i].0 != qid
  {
    if tally == [] then None
    else if tally[|tally| - 1].0 == qid then Some(|tally| - 1)
    else IndexOf(tally[..|tally| - 1], qid)
  }

  /** Line 276: `miss_count[qid] = miss_count.get(qid, 0) + 1`. */
  function BumpMiss(tally: Tally, qid: int): Tally
  {
    match IndexOf(tally, qid)
    case None => tally + [(qid, 1)]
    case Some(k) => tally[k := (qid, tally[k].1 + 1)]
  }

  /** Lines 274-276: `miss_count` after the rows, in order. */
  function MissTally(rows: seq<AnalyticsRow>): Tally
  {
    if rows == [] then []
    else
      var t := MissTally(rows[..|rows| - 1]);
      if Missed(rows[|rows| - 1]) then BumpMiss(t, rows[|rows| - 1].questionId) else t
  }

  ghost predicate KeysUnique(tally: Tally)
  {
    forall i, j :: 0 <= i < |tally| && 0 <= j < |tally| && i != j ==> tally[i].0 != tally[j].0
  }

  /** `miss_count.get(qid, 0)`. */
  function CountOf(tally: Tally, qid: int): nat
  {
    match IndexOf(tally, qid)
    case None => 0
    case Some(k) => tally[k].1
  }

  /** The count a question's entry should hold. */
  function Misses(rows: seq<AnalyticsRow>, qid: int): nat
  {
    Count(rows, (r: AnalyticsRow) => r.questionId == qid && Missed(r))
  }

  ghost predicate Positive(tally: Tally)
  {
    forall i :: 0 <= i < |tally| ==> tally[i].1 > 0
  }

  lemma {:induction false} IndexOfUnique(tally: Tally, i: nat)
    requires KeysUnique(tally) && i < |tally|
    ensures IndexOf(tally, tally[i].0) == Some(i)
  {
    var k := IndexOf(tally, tally[i].0);
    assert k.Some?;
  }

  lemma IndexOfAppend(t: Tally, e: (int, nat), qid: int)
    ensures IndexOf(t + [e], qid) == if e.0 == qid then Some(|t|) else IndexOf(t, qid)
  {
    assert (t + [e])[..|t|] == t;
  }

  lemma {:induction false} IndexOfSameKeys(t: Tally, u: Tally, qid: int)
    requires |t| == |u| && forall i :: 0 <= i < |t| ==> t[i].0 == u[i].0
    ensures IndexOf(t, qid) == IndexOf(u, qid)
  {
    if t != [] {
      IndexOfSameKeys(t[..|t| - 1], u[..|u| - 1], qid);
    }
  }

  /** One more miss of `qid` adds one to its count and changes no other. */
  lemma BumpMissCounts(t: Tally, qid: int)
    requires KeysUnique(t) && Positive(t)
    ensures KeysUnique(BumpMiss(t, qid)) && Positive(BumpMiss(t, qid))
    ensures forall x :: CountOf(BumpMiss(t, qid), x) == CountOf(t, x) + (if x == qid then 1 else 0)
  {
    match IndexOf(t, qid)
    case None =>
      var e := (qid, 1);
      forall x ensures CountOf(t + [e], x) == CountOf(t, x) + (if x == qid then 1 else 0) {
        IndexOfAppend(t, e, x);
      }
    case Some(k) =>
      var u := t[k := (qid, t[k].1 + 1)];
      forall x ensures CountOf(u, x) == CountOf(t, x) + (if x == qid then 1 else 0) {
        IndexOfSameKeys(t, u, x);
        var j := IndexOf(t, x);
        if j.Some? && x == qid {
          IndexOfUnique(t, k);
        }
      }
  }

  /** Every question appears at most once, every entry counts at least one
      miss, and a question's count is how often it was missed. */
  lemma {:induction false} MissTallyCounts(rows: seq<AnalyticsRow>)
    ensures KeysUnique(MissTally(rows)) && Positive(MissTally(rows))
    ensures forall qid :: CountOf(MissTally(rows), qid) == Misses(rows, qid)
  {
    if rows != [] {
      var init := rows[..|rows| - 1];
      var last := rows[|rows| - 1];
      MissTallyCounts(init);
      forall qid ensures Misses(rows, qid) == Misses(init, qid) + (if last.questionId == qid && Missed(last) then 1 else 0) {
        var p := (r: AnalyticsRow) => r.questionId == qid && Missed(r);
        assert Count(rows, p) == Count(init, p) + (if p(last) then 1 else 0);
      }
      if Missed(last) {
        BumpMissCounts(MissTally(init), last.questionId);
      }
    }
  }

  /** The entries of the tally: each question missed at least once, with how often. */
  lemma MissTallyEntries(rows: seq<AnalyticsRow>)
    ensures KeysUnique(MissTally(rows))
    ensures forall i :: 0 <= i < |MissTally(rows)| ==> MissTally(rows)[i].1 == Misses(rows, MissTally(rows)[i].0) > 0
    ensures forall qid :: Misses(rows, qid) > 0 <==> IndexOf(MissTally(rows), qid).Some?
  {
    var t := MissTally(rows);
    MissTallyCounts(rows);
    forall i | 0 <= i < |t| ensures t[i].1 == Misses(rows, t[i].0) {
      IndexOfUnique(t, i);
    }
  }

  /** Lines 267-276 as the loop over the session questions. */
  method CountRows(rows: seq<AnalyticsRow>) returns (stats: map<string, TopicStat>, tally: Tally)
    ensures stats == TopicStats(rows) && tally == MissTally(rows)
  {
    stats := map[];
    tally := [];
    for i := 0 to |rows|
      invariant stats == TopicStats(rows[..i]) && tally == MissTally(rows[..i])
    {
      var r := rows[i];
      assert rows[..i + 1][..i] == rows[..i];
      var prev := if r.topic in stats then stats[r.topic] else TopicStat(0, 0);
      stats := stats[r.topic := TopicStat(prev.total + 1, prev.missed + if Missed(r) then 1 else 0)];
      if Missed(r) {
        var k := IndexOf(tally, r.questionId);
        if k.Some? {
          tally := tally[k.value := (r.questionId, tally[k.value].1 + 1)];
        } else {
          tally := tally + [(r.questionId, 1)];
        }
      }
    }
    assert rows[..|rows|] == rows;
  }

  // ------------------------------------------------------------------ ranking

  /** Puts `e` before the first entry whose count is not larger. */
  function Insert(e: (int, nat), sorted: Tally): Tally
  {
    if sorted == [] || sorted[0].1 <= e.1 then [e] + sorted
    else [sorted[0]] + Insert(e, sorted[1..])
  }

  /** `sorted(..., key=count, reverse=True)`: an insertion sort by count, larger first,
      that keeps equal counts in their original order. */
  function SortByCount(t: Tally): Tally
  {
    if t == [] then [] else Insert(t[0], SortByCount(t[1..]))
  }

  ghost predicate Descending(t: Tally)
  {
    forall i, j :: 0 <= i < j < |t| ==> t[i].1 >= t[j].1
  }

  lemma {:induction false} InsertMembers(e: (int, nat), s: Tally)
    ensures forall x :: x in Insert(e, s) <==> x == e || x in s
    ensures multiset(Insert(e, s)) == multiset(s) + multiset{e}
  {
    if s != [] && s[0].1 > e.1 {
      InsertMembers(e, s[1..]);
      assert s == [s[0]] + s[1..];
    }
  }

  lemma {:induction false} InsertDescending(e: (int, nat), s: Tally)
    requires Descending(s)
    ensures Descending(Insert(e, s))
  {
    if s != [] && s[0].1 > e.1 {
      InsertDescending(e, s[1..]);
      InsertMembers(e, s[1..]);
      var r := Insert(e, s[1..]);
      assert forall x :: x in r ==> x.1 <= s[0].1;
      assert Insert(e, s) == [s[0]] + r;
    }
  }

  /** Ranking orders by count, largest first, and loses or adds no entry. */
  lemma {:induction false} SortByCountProperties(t: Tally)
    ensures Descending(SortByCount(t))
    ensures multiset(SortByCount(t)) == multiset(t)
  {
    if t != [] {
      SortByCountProperties(t[1..]);
      InsertMembers(t[0], SortByCount(t[1..]));
      InsertDescending(t[0], SortByCount(t[1..]));
      assert t == [t[0]] + t[1..];
    }
  }

  /** Line 278: the five most missed questions. */
  function MostMissed(t: Tally): Tally
  {
    var sorted := SortByCount(t);
    sorted[..if |sorted| < 5 then |sorted| else 5]
  }

  /** At most five entries, largest first, all from the tally, all of them
      when there are at most five, and no entry left out was missed more often
      than any entry kept. */
  lemma MostMissedTop5(t: Tally)
    ensures var top := MostMissed(t);
      && |top| == (if |t| < 5 then |t| else 5)
      && Descending(top)
      && multiset(top) <= multiset(t)
      && forall i, x :: 0 <= i < |top| && x in multiset(t) - multiset(top) ==> x.1 <= top[i].1
  {
    var sorted := SortByCount(t);
    SortByCountProperties(t);
    assert |multiset(sorted)| == |sorted|;
    var n := if |sorted| < 5 then |sorted| else 5;
    DescendingSplit(sorted, n);
    forall i, x | 0 <= i < n && x in multiset(t) - multiset(sorted[..n]) ensures x.1 <= sorted[i].1 {
      assert x in multiset(sorted[n..]);
      TailBelowHead(sorted, n, i, x);
    }
  }

  lemma DescendingSplit(sorted: Tally, n: nat)
    requires n <= |sorted| && Descending(sorted)
    ensures Descending(sorted[..n])
    ensures multiset(sorted) == multiset(sorted[..n]) + multiset(sorted[n..])
  {
    assert sorted == sorted[..n] + sorted[n..];
  }

  lemma TailBelowHead(sorted: Tally, n: nat, i: nat, x: (int, nat))
    requires Descending(sorted) && i < n <= |sorted| && x in sorted[n..]
    ensures x.1 <= sorted[i].1
  {
    var j :| 0 <= j < |sorted[n..]| && sorted[n..][j] == x;
    assert sorted[n + j] == x;
  }
}
