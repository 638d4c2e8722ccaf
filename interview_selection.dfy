/** How the start endpoint chooses the questions of a new interview:
    the bank is grouped by (topic, difficulty); each group of the target
    distribution contributes a random sample, a question being kept only while
    the running time stays within 900 seconds; a fill pass tops the selection
    up to 10 questions from the rest of the bank; and if nothing was chosen at
    all, a plain random sample of up to 10 questions is taken.

    `random.sample` and `random.shuffle` are modelled by `Permute`, which
    orders a list as a caller-supplied code says; each random call consumes
    the next code of a caller-supplied stream `rnd`, in call order.

    In the source the fill pass is indented inside the distribution loop, so
    it runs after every group. `SelectQuestionsAsWritten` models that, and is
    the selection the start endpoint (`Database.Start`) makes;
    `AsWrittenMaySelectTwice` shows that it can choose a question twice, and
    since a later group's sample is not capped at 10 it can also choose more
    than 10. `SelectQuestions` is the corrected selection, with the fill pass
    run once after the loop; `Database.StartIntended` uses it, and
    `SelectionBounds` states what it guarantees. */
module InterviewSelection {
  import opened Common
  import opened InterviewModels

  /** The time budget of one interview, in seconds. */
  const MAX_TIME: int := 900
  /** How many questions the fill pass aims for. */
  const TARGET_COUNT: nat := 10

  type Key = (string, string)

  function KeyOf(q: Question): Key
  {
    (q.topic, q.difficulty)
  }

  /** How many questions to draw from each (topic, difficulty) group, in this order. */
  const TARGET_DISTRIBUTION: seq<(Key, nat)> := [
    (("Personal", "easy"), 2),
    (("Technical", "easy"), 2),
    (("Technical", "medium"), 2),
    (("Problem Solving", "medium"), 1),
    (("Teamwork", "medium"), 1),
    (("Learning", "medium"), 1),
    (("Architecture", "hard"), 1)
  ]

  // ------------------------------------------------------------------ grouping

  /** The questions of `qs` whose key is `key`, in bank order. */
  function InGroup(qs: seq<Question>, key: Key): seq<Question>
  {
    if qs == [] then []
    else InGroup(qs[..|qs| - 1], key) + (if KeyOf(qs[|qs| - 1]) == key then [qs[|qs| - 1]] else [])
  }

  lemma InGroupSnoc(qs: seq<Question>, q: Question, key: Key)
    ensures InGroup(qs + [q], key) == InGroup(qs, key) + (if KeyOf(q) == key then [q] else [])
  {
    assert (qs + [q])[..|qs|] == qs;
  }

  lemma {:induction false} InGroupEmpty(qs: seq<Question>, key: Key)
    requires forall i :: 0 <= i < |qs| ==> KeyOf(qs[i]) != key
    ensures InGroup(qs, key) == []
  {
    if qs != [] {
      InGroupEmpty(qs[..|qs| - 1], key);
    }
  }

  /** A question is in the group of a key exactly when it is in the bank and has that key. */
  lemma {:induction false} InGroupMembers(qs: seq<Question>, key: Key)
    ensures forall q :: q in InGroup(qs, key) <==> q in qs && KeyOf(q) == key
    ensures multiset(InGroup(qs, key)) <= multiset(qs)
  {
    if qs != [] {
      var init := qs[..|qs| - 1];
      InGroupMembers(init, key);
      assert qs == init + [qs[|qs| - 1]];
    }
  }

  /** `groups` maps exactly the keys occurring in `qs`, each to its non-empty group. */
  ghost predicate GroupsOf(qs: seq<Question>, groups: map<Key, seq<Question>>)
  {
    && (forall j :: 0 <= j < |qs| ==> KeyOf(qs[j]) in groups)
    && (forall k :: k in groups ==> groups[k] == InGroup(qs, k) && groups[k] != [])
    && (forall k :: k !in groups ==> InGroup(qs, k) == [])
  }

  /** Lines 51-54: appending a question to the list of its key. */
  function AddToGroup(groups: map<Key, seq<Question>>, q: Question): map<Key, seq<Question>>
  {
    groups[KeyOf(q) := (if KeyOf(q) in groups then groups[KeyOf(q)] else []) + [q]]
  }

  lemma AddToGroupKeeps(qs: seq<Question>, q: Question, groups: map<Key, seq<Question>>)
    requires GroupsOf(qs, groups)
    ensures GroupsOf(qs + [q], AddToGroup(groups, q))
  {
    var groups' := AddToGroup(groups, q);
    forall k ensures InGroup(qs + [q], k) == InGroup(qs, k) + (if KeyOf(q) == k then [q] else []) {
      InGroupSnoc(qs, q, k);
    }
    forall j | 0 <= j < |qs + [q]| ensures KeyOf((qs + [q])[j]) in groups' {
      if j < |qs| {
        assert (qs + [q])[j] == qs[j];
      }
    }
  }

  /** Lines 49-54: build `questions_by_topic_diff`. */
  method GroupByTopicDifficulty(all: seq<Question>) returns (groups: map<Key, seq<Question>>)
    ensures forall i :: 0 <= i < |all| ==> KeyOf(all[i]) in groups
    ensures forall k :: k in groups ==> groups[k] == InGroup(all, k) && groups[k] != []
  {
    groups := map[];
    for i := 0 to |all|
      invariant GroupsOf(all[..i], groups)
    {
      var q := all[i];
      var key := KeyOf(q);
      ghost var before := groups;
      if key !in groups {
        groups := groups[key := []];
      }
      ghost var created := groups;
      groups := groups[key := groups[key] + [q]];
      AppendAtKey(before, key, q, created, groups);
      AddToGroupKeeps(all[..i], q, before);
      TakeSnoc(all, i);
    }
    assert all[..|all|] == all;
  }

  /** `questions_by_topic_diff.get(key, [])` is the group of `key`. */
  lemma GroupLookup(all: seq<Question>, groups: map<Key, seq<Question>>, key: Key)
    requires forall i :: 0 <= i < |all| ==> KeyOf(all[i]) in groups
    requires forall k :: k in groups ==> groups[k] == InGroup(all, k)
    ensures (if key in groups then groups[key] else []) == InGroup(all, key)
  {
    InGroupMembers(all, key);
    HeadMember(InGroup(all, key));
    assert forall q :: q in all ==> KeyOf(q) in groups;
  }

  // ------------------------------------------------------------------ random choices

  /** The `k`-th code of the random stream (empty once the stream is used up). */
  function Draw(rnd: seq<seq<nat>>, k: nat): seq<nat>
  {
    if k < |rnd| then rnd[k] else []
  }

  /** An ordering of `xs` chosen by `code`: each code value, modulo the number of
      elements left, picks the next element, so every ordering is reachable. */
  function Permute<T>(xs: seq<T>, code: seq<nat>): (r: seq<T>)
    ensures |r| == |xs|
    ensures multiset(r) == multiset(xs)
    decreases |xs|
  {
    if |xs| == 0 then []
    else
      var i := (if |code| > 0 then code[0] else 0) % |xs|;
      assert xs == xs[..i] + [xs[i]] + xs[i + 1..];
      [xs[i]] + Permute(xs[..i] + xs[i + 1..], if |code| > 0 then code[1..] else [])
  }

  /** `random.sample(xs, k)`: `k` of the elements, at distinct positions. */
  function Sample<T>(xs: seq<T>, k: nat, code: seq<nat>): (r: seq<T>)
    requires k <= |xs|
    ensures |r| == k
    ensures multiset(r) <= multiset(xs)
  {
    var p := Permute(xs, code);
    assert p == p[..k] + p[k..];
    p[..k]
  }

  // ------------------------------------------------------------------ the passes

  function TotalTime(qs: seq<Question>): int
  {
    if qs == [] then 0 else TotalTime(qs[..|qs| - 1]) + qs[|qs| - 1].timeRequired
  }

  lemma TotalTimeAppend(qs: seq<Question>, q: Question)
    ensures TotalTime(qs + [q]) == TotalTime(qs) + q.timeRequired
  {
    assert (qs + [q])[..|qs|] == qs;
  }

  /** Lines 77-80: keep each candidate, in order, whose time still fits the budget. */
  function AddFitting(candidates: seq<Question>, selected: seq<Question>): seq<Question>
    decreases |candidates|
  {
    if candidates == [] then selected
    else
      AddFitting(candidates[1..],
        if TotalTime(selected) + candidates[0].timeRequired <= MAX_TIME then selected + [candidates[0]] else selected)
  }

  /** Lines 87-92: as `AddFitting`, but stop once `TARGET_COUNT` questions are selected. */
  function FillFrom(pool: seq<Question>, selected: seq<Question>): seq<Question>
    decreases |pool|
  {
    if pool == [] || |selected| >= TARGET_COUNT then selected
    else
      FillFrom(pool[1..],
        if TotalTime(selected) + pool[0].timeRequired <= MAX_TIME then selected + [pool[0]] else selected)
  }

  /** Line 84: the bank without the questions already selected, in bank order. */
  function Remaining(all: seq<Question>, selected: seq<Question>): (r: seq<Question>)
    ensures forall q :: q in r ==> q !in selected
  {
    if all == [] then []
    else Remaining(all[..|all| - 1], selected) + (if all[|all| - 1] in selected then [] else [all[|all| - 1]])
  }

  lemma {:induction false} RemainingSub(all: seq<Question>, selected: seq<Question>)
    ensures multiset(Remaining(all, selected)) <= multiset(all)
  {
    if all != [] {
      var init, last := all[..|all| - 1], all[|all| - 1];
      RemainingSub(init, selected);
      assert all == init + [last];
      assert multiset(all) == multiset(init) + multiset{last};
      assert Remaining(all, selected) == Remaining(init, selected) + (if last in selected then [] else [last]);
    }
  }

  /** The selection so far and the number of random codes used. */
  datatype Draft = Draft(selected: seq<Question>, draws: nat)

  /** Lines 73-80 for one group of the target distribution. */
  function PickFor(all: seq<Question>, rnd: seq<seq<nat>>, key: Key, count: nat, d: Draft): Draft
  {
    var available := InGroup(all, key);
    if available == [] then d
    else Draft(AddFitting(Sample(available, Min(count, |available|), Draw(rnd, d.draws)), d.selected), d.draws + 1)
  }

  /** Lines 83-92: the fill pass. */
  function FillPass(all: seq<Question>, rnd: seq<seq<nat>>, d: Draft): Draft
  {
    if |d.selected| < TARGET_COUNT then
      Draft(FillFrom(Permute(Remaining(all, d.selected), Draw(rnd, d.draws)), d.selected), d.draws + 1)
    else d
  }

  /** Lines 72-92 as written: the fill pass runs after every group, from group `i` on. */
  function DistributionAsWritten(all: seq<Question>, rnd: seq<seq<nat>>, i: nat, d: Draft): Draft
    decreases |TARGET_DISTRIBUTION| - i
  {
    if i >= |TARGET_DISTRIBUTION| then d
    else
      var (key, count) := TARGET_DISTRIBUTION[i];
      DistributionAsWritten(all, rnd, i + 1, FillPass(all, rnd, PickFor(all, rnd, key, count, d)))
  }

  /** The distribution loop alone, from group `i` on. */
  function Distribution(all: seq<Question>, rnd: seq<seq<nat>>, i: nat, d: Draft): Draft
    decreases |TARGET_DISTRIBUTION| - i
  {
    if i >= |TARGET_DISTRIBUTION| then d
    else
      var (key, count) := TARGET_DISTRIBUTION[i];
      Distribution(all, rnd, i + 1, PickFor(all, rnd, key, count, d))
  }

  /** Lines 95-96: a plain sample of up to 10 when nothing was selected. */
  function Fallback(all: seq<Question>, rnd: seq<seq<nat>>, d: Draft): seq<Question>
  {
    if d.selected == [] then Sample(all, Min(TARGET_COUNT, |all|), Draw(rnd, d.draws)) else d.selected
  }

  /** What lines 49-96 select, as written. */
  function SelectedAsWritten(all: seq<Question>, rnd: seq<seq<nat>>): seq<Question>
  {
    Fallback(all, rnd, DistributionAsWritten(all, rnd, 0, Draft([], 0)))
  }

  /** What lines 49-96 select with the fill pass run once, after the distribution loop. */
  function Selected(all: seq<Question>, rnd: seq<seq<nat>>): seq<Question>
  {
    Fallback(all, rnd, FillPass(all, rnd, Distribution(all, rnd, 0, Draft([], 0))))
  }

  // ------------------------------------------------------------------ the methods

  method AddFittingLoop(candidates: seq<Question>, selected: seq<Question>, total: int)
    returns (out: seq<Question>, outTotal: int)
    requires total == TotalTime(selected)
    ensures out == AddFitting(candidates, selected) && outTotal == TotalTime(out)
  {
    out, outTotal := selected, total;
    var i := 0;
    while i < |candidates|
      invariant 0 <= i <= |candidates|
      invariant AddFitting(candidates[i..], out) == AddFitting(candidates, selected)
      invariant outTotal == TotalTime(out)
    {
      var q := candidates[i];
      assert candidates[i..][1..] == candidates[i + 1..];
      if outTotal + q.timeRequired <= MAX_TIME {
        TotalTimeAppend(out, q);
        out := out + [q];
        outTotal := outTotal + q.timeRequired;
      }
      i := i + 1;
    }
  }

  method FillLoop(pool: seq<Question>, selected: seq<Question>, total: int)
    returns (out: seq<Question>, outTotal: int)
    requires total == TotalTime(selected)
    ensures out == FillFrom(pool, selected) && outTotal == TotalTime(out)
  {
    out, outTotal := selected, total;
    var i := 0;
    while i < |pool|
      invariant 0 <= i <= |pool|
      invariant FillFrom(pool[i..], out) == FillFrom(pool, selected)
      invariant outTotal == TotalTime(out)
    {
      if |out| >= TARGET_COUNT {
        break;
      }
      var q := pool[i];
      assert pool[i..][1..] == pool[i + 1..];
      if outTotal + q.timeRequired <= MAX_TIME {
        TotalTimeAppend(out, q);
        out := out + [q];
        outTotal := outTotal + q.timeRequired;
      }
      i := i + 1;
    }
  }

  /** Lines 73-80 for one group: sample from the group, keep what fits. */
  method PickStep(all: seq<Question>, groups: map<Key, seq<Question>>, rnd: seq<seq<nat>>, key: Key, count: nat,
                  selected: seq<Question>, draws: nat, total: int)
    returns (selected': seq<Question>, draws': nat, total': int)
    requires forall i :: 0 <= i < |all| ==> KeyOf(all[i]) in groups
    requires forall k :: k in groups ==> groups[k] == InGroup(all, k)
    requires total == TotalTime(selected)
    ensures Draft(selected', draws') == PickFor(all, rnd, key, count, Draft(selected, draws))
    ensures total' == TotalTime(selected')
  {
    GroupLookup(all, groups, key);
    var available := if key in groups then groups[key] else [];
    selected', draws', total' := selected, draws, total;
    if available != [] {
      var picked := Sample(available, Min(count, |available|), Draw(rnd, draws));
      draws' := draws + 1;
      selected', total' := AddFittingLoop(picked, selected, total);
    }
  }

  /** Lines 83-92: the fill pass. */
  method FillStep(all: seq<Question>, rnd: seq<seq<nat>>, selected: seq<Question>, draws: nat, total: int)
    returns (selected': seq<Question>, draws': nat, total': int)
    requires total == TotalTime(selected)
    ensures Draft(selected', draws') == FillPass(all, rnd, Draft(selected, draws))
    ensures total' == TotalTime(selected')
  {
    selected', draws', total' := selected, draws, total;
    if |selected| < TARGET_COUNT {
      var pool := Permute(Remaining(all, selected), Draw(rnd, draws));
      draws' := draws + 1;
      selected', total' := FillLoop(pool, selected, total);
    }
  }

  /** Lines 49-92 as written, with the fill pass inside the distribution loop. */
  method DistributeAsWritten(all: seq<Question>, rnd: seq<seq<nat>>) returns (selected: seq<Question>, draws: nat)
    ensures Draft(selected, draws) == DistributionAsWritten(all, rnd, 0, Draft([], 0))
  {
    var groups := GroupByTopicDifficulty(all);
    selected := [];
    var total := 0;
    draws := 0;
    for i := 0 to |TARGET_DISTRIBUTION|
      invariant DistributionAsWritten(all, rnd, i, Draft(selected, draws)) == DistributionAsWritten(all, rnd, 0, Draft([], 0))
      invariant total == TotalTime(selected)
    {
      AsWrittenStep(all, rnd, i, Draft(selected, draws));
      var key := TARGET_DISTRIBUTION[i].0;
      var count := TARGET_DISTRIBUTION[i].1;
      selected, draws, total := PickStep(all, groups, rnd, key, count, selected, draws, total);
      selected, draws, total := FillStep(all, rnd, selected, draws, total);
    }
  }

  /** Lines 49-96 as written: the distribution loop, then the fallback sample. */
  method SelectQuestionsAsWritten(all: seq<Question>, rnd: seq<seq<nat>>) returns (selected: seq<Question>)
    requires |all| > 0
    ensures selected == SelectedAsWritten(all, rnd)
  {
    var found, draws := DistributeAsWritten(all, rnd);
    selected := FallbackStep(all, rnd, found, draws);
  }

  /** Lines 95-96: fall back to a plain sample when nothing was selected. */
  method FallbackStep(all: seq<Question>, rnd: seq<seq<nat>>, found: seq<Question>, draws: nat)
    returns (selected: seq<Question>)
    requires |all| > 0
    ensures selected == Fallback(all, rnd, Draft(found, draws))
  {
    selected := found;
    if selected == [] {
      selected := Sample(all, Min(TARGET_COUNT, |all|), Draw(rnd, draws));
    }
  }

  /** Lines 49-96 with the fill pass moved after the distribution loop: the
      corrected selection, which `Database.StartIntended` uses (`Database.Start`
      uses `SelectQuestionsAsWritten`). */
  method SelectQuestions(all: seq<Question>, rnd: seq<seq<nat>>) returns (selected: seq<Question>)
    requires |all| > 0
    ensures selected == Selected(all, rnd)
  {
    var groups := GroupByTopicDifficulty(all);
    selected := [];
    var total := 0;
    var draws: nat := 0;
    for i := 0 to |TARGET_DISTRIBUTION|
      invariant Distribution(all, rnd, i, Draft(selected, draws)) == Distribution(all, rnd, 0, Draft([], 0))
      invariant total == TotalTime(selected)
    {
      DistributionStep(all, rnd, i, Draft(selected, draws));
      var key := TARGET_DISTRIBUTION[i].0;
      var count := TARGET_DISTRIBUTION[i].1;
      selected, draws, total := PickStep(all, groups, rnd, key, count, selected, draws, total);
    }
    selected, draws, total := FillStep(all, rnd, selected, draws, total);
    selected := FallbackStep(all, rnd, selected, draws);
  }

  lemma AsWrittenStep(all: seq<Question>, rnd: seq<seq<nat>>, i: nat, d: Draft)
    requires i < |TARGET_DISTRIBUTION|
    ensures DistributionAsWritten(all, rnd, i, d)
         == DistributionAsWritten(all, rnd, i + 1,
              FillPass(all, rnd, PickFor(all, rnd, TARGET_DISTRIBUTION[i].0, TARGET_DISTRIBUTION[i].1, d)))
  {
  }

  lemma DistributionStep(all: seq<Question>, rnd: seq<seq<nat>>, i: nat, d: Draft)
    requires i < |TARGET_DISTRIBUTION|
    ensures Distribution(all, rnd, i, d)
         == Distribution(all, rnd, i + 1, PickFor(all, rnd, TARGET_DISTRIBUTION[i].0, TARGET_DISTRIBUTION[i].1, d))
  {
  }

  // ------------------------------------------------------------------ properties

  /** Adding fitting candidates extends the selection by some of the candidates
      and, from within the budget, stays within it. */
  lemma {:induction false} AddFittingGrows(candidates: seq<Question>, s: seq<Question>)
    ensures var r := AddFitting(candidates, s);
      && |s| <= |r| <= |s| + |candidates| && r[..|s|] == s
      && multiset(r[|s|..]) <= multiset(candidates)
      && (TotalTime(s) <= MAX_TIME ==> TotalTime(r) <= MAX_TIME)
    decreases |candidates|
  {
    if candidates != [] {
      var c := candidates[0];
      var fits := TotalTime(s) + c.timeRequired <= MAX_TIME;
      var added := if fits then [c] else [];
      AddFittingGrows(candidates[1..], s + added);
      ExtendsByStep(candidates, s, added, AddFitting(candidates[1..], s + added));
      if fits {
        TotalTimeAppend(s, c);
      } else {
        assert s + added == s;
      }
    }
  }

  /** The fill loop extends the selection by some of the pool. */
  lemma {:induction false} FillFromExtends(pool: seq<Question>, s: seq<Question>)
    ensures var r := FillFrom(pool, s);
      && |s| <= |r| <= |s| + |pool| && r[..|s|] == s
      && multiset(r[|s|..]) <= multiset(pool)
    decreases |pool|
  {
    if pool != [] && |s| < TARGET_COUNT {
      var added := if TotalTime(s) + pool[0].timeRequired <= MAX_TIME then [pool[0]] else [];
      FillFromExtends(pool[1..], s + added);
      ExtendsByStep(pool, s, added, FillFrom(pool[1..], s + added));
    }
  }

  /** The fill loop stays within the budget, adds nothing once `TARGET_COUNT`
      questions are selected, and never goes beyond that count. */
  lemma {:induction false} FillFromBounded(pool: seq<Question>, s: seq<Question>)
    ensures var r := FillFrom(pool, s);
      && (TotalTime(s) <= MAX_TIME ==> TotalTime(r) <= MAX_TIME)
      && (|s| >= TARGET_COUNT ==> r == s)
      && (|s| < TARGET_COUNT ==> |r| <= TARGET_COUNT)
    decreases |pool|
  {
    if pool != [] && |s| < TARGET_COUNT {
      var c := pool[0];
      var next := if TotalTime(s) + c.timeRequired <= MAX_TIME then s + [c] else s;
      FillFromBounded(pool[1..], next);
      if TotalTime(s) + c.timeRequired <= MAX_TIME {
        TotalTimeAppend(s, c);
      }
    }
  }

  /** The fill loop extends the selection by some of the pool, stays within the
      budget, and adds nothing once `TARGET_COUNT` questions are selected. */
  lemma FillFromGrows(pool: seq<Question>, s: seq<Question>)
    ensures var r := FillFrom(pool, s);
      && |s| <= |r| <= |s| + |pool| && r[..|s|] == s
      && multiset(r[|s|..]) <= multiset(pool)
      && (TotalTime(s) <= MAX_TIME ==> TotalTime(r) <= MAX_TIME)
      && (|s| >= TARGET_COUNT ==> r == s)
      && (|s| < TARGET_COUNT ==> |r| <= TARGET_COUNT)
  {
    FillFromExtends(pool, s);
    FillFromBounded(pool, s);
  }

  /** The fill pass adds only bank questions that were not yet selected, stays
      within the budget, and stops at `TARGET_COUNT` questions. */
  lemma FillPassAddsOnlyUnselected(all: seq<Question>, rnd: seq<seq<nat>>, d: Draft)
    ensures var r := FillPass(all, rnd, d).selected;
      && |d.selected| <= |r| && r[..|d.selected|] == d.selected
      && (forall q {:trigger q in r[|d.selected|..]} :: q in r[|d.selected|..] ==> q in all && q !in d.selected)
      && (TotalTime(d.selected) <= MAX_TIME ==> TotalTime(r) <= MAX_TIME)
      && (|d.selected| >= TARGET_COUNT ==> r == d.selected)
      && (|d.selected| < TARGET_COUNT ==> |r| <= TARGET_COUNT)
  {
    if |d.selected| < TARGET_COUNT {
      FillFromUnselected(all, Permute(Remaining(all, d.selected), Draw(rnd, d.draws)), d.selected);
    }
  }

  lemma FillFromUnselected(all: seq<Question>, pool: seq<Question>, s: seq<Question>)
    requires multiset(pool) <= multiset(Remaining(all, s))
    ensures var r := FillFrom(pool, s);
      && |s| <= |r| && r[..|s|] == s
      && (forall q {:trigger q in r[|s|..]} :: q in r[|s|..] ==> q in all && q !in s)
      && (TotalTime(s) <= MAX_TIME ==> TotalTime(r) <= MAX_TIME)
      && (|s| >= TARGET_COUNT ==> r == s)
      && (|s| < TARGET_COUNT ==> |r| <= TARGET_COUNT)
  {
    FillFromGrows(pool, s);
    RemainingSub(all, s);
    var r := FillFrom(pool, s);
    SubMembers(r[|s|..], pool);
    SubMembers(pool, Remaining(all, s));
    SubMembers(Remaining(all, s), all);
  }

  /** A sub-multiset has no member the whole lacks. */
  lemma SubMembers<T>(a: seq<T>, b: seq<T>)
    requires multiset(a) <= multiset(b)
    ensures forall x :: x in a ==> x in b
  {
    forall x | x in a ensures x in b {
      assert x in multiset(a);
    }
  }

  /** The members of a sequence are those of any prefix and the matching suffix. */
  lemma SplitMembers<T>(r: seq<T>, n: nat)
    requires n <= |r|
    ensures forall x :: x in r ==> x in r[..n] || x in r[n..]
  {
    assert r == r[..n] + r[n..];
  }

  lemma PickForGrows(all: seq<Question>, rnd: seq<seq<nat>>, key: Key, count: nat, d: Draft)
    ensures var r := PickFor(all, rnd, key, count, d).selected;
      && |d.selected| <= |r| && r[..|d.selected|] == d.selected
      && |r| <= |d.selected| + count
      && (forall q {:trigger q in r[|d.selected|..]} :: q in r[|d.selected|..] ==> q in all && KeyOf(q) == key)
      && multiset(r[|d.selected|..]) <= multiset(InGroup(all, key))
      && (TotalTime(d.selected) <= MAX_TIME ==> TotalTime(r) <= MAX_TIME)
  {
    var available := InGroup(all, key);
    if available != [] {
      var sample := Sample(available, Min(count, |available|), Draw(rnd, d.draws));
      AddFittingGrows(sample, d.selected);
      InGroupMembers(all, key);
      var r := PickFor(all, rnd, key, count, d).selected;
      SubMembers(r[|d.selected|..], available);
    }
  }

  /** A selection within the time budget that draws only bank questions. */
  ghost predicate WithinBank(all: seq<Question>, s: seq<Question>)
  {
    TotalTime(s) <= MAX_TIME && forall q {:trigger q in s} :: q in s ==> q in all
  }

  /** One round of the loop as written, a group and then the fill pass, keeps
      the selection within the budget and within the bank. */
  lemma RoundKeepsBudget(all: seq<Question>, rnd: seq<seq<nat>>, key: Key, count: nat, d: Draft)
    requires WithinBank(all, d.selected)
    ensures WithinBank(all, FillPass(all, rnd, PickFor(all, rnd, key, count, d)).selected)
  {
    var p := PickFor(all, rnd, key, count, d);
    PickForGrows(all, rnd, key, count, d);
    SplitMembers(p.selected, |d.selected|);
    var f := FillPass(all, rnd, p);
    FillPassAddsOnlyUnselected(all, rnd, p);
    SplitMembers(f.selected, |p.selected|);
  }

  lemma {:induction false} AsWrittenBudget(all: seq<Question>, rnd: seq<seq<nat>>, i: nat, d: Draft)
    requires WithinBank(all, d.selected)
    ensures WithinBank(all, DistributionAsWritten(all, rnd, i, d).selected)
    decreases |TARGET_DISTRIBUTION| - i
  {
    if i < |TARGET_DISTRIBUTION| {
      var key, count := TARGET_DISTRIBUTION[i].0, TARGET_DISTRIBUTION[i].1;
      var f := FillPass(all, rnd, PickFor(all, rnd, key, count, d));
      RoundKeepsBudget(all, rnd, key, count, d);
      AsWrittenBudget(all, rnd, i + 1, f);
      AsWrittenStep(all, rnd, i, d);
    }
  }

  lemma FallbackSample(all: seq<Question>, rnd: seq<seq<nat>>, d: Draft)
    requires |all| > 0 && d.selected == []
    ensures var r := Fallback(all, rnd, d);
      |r| == Min(TARGET_COUNT, |all|) && multiset(r) <= multiset(all) && forall q {:trigger q in r} :: q in r ==> q in all
  {
    var r := Fallback(all, rnd, d);
    forall q | q in r ensures q in all {
      assert q in multiset(r);
    }
  }

  /** The selection as written is never empty and draws only bank questions;
      when the distribution and fill passes found something it keeps within
      the 900-second budget, and otherwise it is a sample of min(10, n)
      questions. */
  lemma SelectionAsWrittenBounds(all: seq<Question>, rnd: seq<seq<nat>>)
    requires |all| > 0
    ensures var d := DistributionAsWritten(all, rnd, 0, Draft([], 0));
      var r := SelectedAsWritten(all, rnd);
      && r != [] && (forall q {:trigger q in r} :: q in r ==> q in all)
      && (d.selected != [] ==> r == d.selected && TotalTime(r) <= MAX_TIME)
      && (d.selected == [] ==> |r| == Min(TARGET_COUNT, |all|))
  {
    var d := DistributionAsWritten(all, rnd, 0, Draft([], 0));
    assert WithinBank(all, []);
    AsWrittenBudget(all, rnd, 0, Draft([], 0));
    if d.selected == [] {
      FallbackSample(all, rnd, d);
    }
  }

  // ------------------------------------------------------------------ the corrected selection

  /** The number of questions the first `i` groups of the distribution ask for. */
  function Quota(i: nat): nat
    requires i <= |TARGET_DISTRIBUTION|
  {
    if i == 0 then 0 else Quota(i - 1) + TARGET_DISTRIBUTION[i - 1].1
  }

  /** No key occurs twice in the target distribution. */
  lemma TargetKeysDiffer(j: nat, i: nat)
    requires j < i < |TARGET_DISTRIBUTION|
    ensures TARGET_DISTRIBUTION[j].0 != TARGET_DISTRIBUTION[i].0
  {
  }

  /** What holds of the draft after the first `i` groups of the distribution loop alone. */
  ghost predicate DraftInvariant(all: seq<Question>, i: nat, d: Draft)
    requires i <= |TARGET_DISTRIBUTION|
  {
    && Distinct(d.selected)
    && |d.selected| <= Quota(i)
    && TotalTime(d.selected) <= MAX_TIME
    && (forall q {:trigger q in d.selected} :: q in d.selected ==> q in all)
    && (forall q {:trigger q in d.selected} :: q in d.selected ==> exists j :: 0 <= j < i && TARGET_DISTRIBUTION[j].0 == KeyOf(q))
  }

  lemma PickForKeepsInvariant(all: seq<Question>, rnd: seq<seq<nat>>, i: nat, d: Draft)
    requires Distinct(all)
    requires i < |TARGET_DISTRIBUTION| && DraftInvariant(all, i, d)
    ensures DraftInvariant(all, i + 1, PickFor(all, rnd, TARGET_DISTRIBUTION[i].0, TARGET_DISTRIBUTION[i].1, d))
  {
    var key := TARGET_DISTRIBUTION[i].0;
    var s := d.selected;
    var r := PickFor(all, rnd, key, TARGET_DISTRIBUTION[i].1, d).selected;
    PickForGrows(all, rnd, key, TARGET_DISTRIBUTION[i].1, d);
    var added := r[|s|..];
    PrefixSplit(r, s);
    InGroupMembers(all, key);
    DistinctSubMultiset(InGroup(all, key), all);
    DistinctSubMultiset(added, InGroup(all, key));
    forall q | q in added ensures q !in s {
      if q in s {
        var j :| 0 <= j < i && TARGET_DISTRIBUTION[j].0 == KeyOf(q);
        TargetKeysDiffer(j, i);
      }
    }
    DistinctAppend(s, added);
    forall q | q in r ensures exists j :: 0 <= j < i + 1 && TARGET_DISTRIBUTION[j].0 == KeyOf(q) {
      if q in added {
        assert TARGET_DISTRIBUTION[i].0 == KeyOf(q);
      } else {
        assert q in s;
      }
    }
  }

  lemma {:induction false} DistributionKeepsInvariant(all: seq<Question>, rnd: seq<seq<nat>>, i: nat, d: Draft)
    requires Distinct(all)
    requires i <= |TARGET_DISTRIBUTION| && DraftInvariant(all, i, d)
    ensures DraftInvariant(all, |TARGET_DISTRIBUTION|, Distribution(all, rnd, i, d))
    decreases |TARGET_DISTRIBUTION| - i
  {
    if i < |TARGET_DISTRIBUTION| {
      DistributionStep(all, rnd, i, d);
      PickForKeepsInvariant(all, rnd, i, d);
      DistributionKeepsInvariant(all, rnd, i + 1, PickFor(all, rnd, TARGET_DISTRIBUTION[i].0, TARGET_DISTRIBUTION[i].1, d));
    }
  }

  /** The fill pass on a distinct bank keeps the selection distinct and adds
      at most up to `TARGET_COUNT` in all. */
  lemma FillPassKeepsDistinct(all: seq<Question>, rnd: seq<seq<nat>>, d: Draft)
    requires Distinct(all) && Distinct(d.selected) && |d.selected| <= TARGET_COUNT
    ensures var r := FillPass(all, rnd, d).selected;
      Distinct(r) && |r| <= TARGET_COUNT
  {
    if |d.selected| < TARGET_COUNT {
      var s := d.selected;
      var rem := Remaining(all, s);
      RemainingSub(all, s);
      DistinctSubMultiset(rem, all);
      var pool := Permute(rem, Draw(rnd, d.draws));
      var r := FillFrom(pool, s);
      FillFromExtends(pool, s);
      FillFromBounded(pool, s);
      var added := r[|s|..];
      PrefixSplit(r, s);
      assert multiset(added) <= multiset(rem);
      DistinctSubMultiset(added, rem);
      SubMembers(added, rem);
      DistinctAppend(s, added);
    }
  }

  /** The group quotas add up to the target of 10 questions. */
  lemma QuotaTotal()
    ensures Quota(|TARGET_DISTRIBUTION|) == TARGET_COUNT
  {
    assert Quota(3) == 6;
    assert Quota(7) == 10;
  }

  /** The fill pass after a draft that keeps the invariant of all groups. */
  lemma FillPassBounds(all: seq<Question>, rnd: seq<seq<nat>>, dd: Draft)
    requires Distinct(all) && DraftInvariant(all, |TARGET_DISTRIBUTION|, dd)
    ensures var f := FillPass(all, rnd, dd).selected;
      && Distinct(f) && |f| <= TARGET_COUNT && TotalTime(f) <= MAX_TIME
      && (forall q {:trigger q in f} :: q in f ==> q in all)
  {
    QuotaTotal();
    FillPassKeepsDistinct(all, rnd, dd);
    FillPassAddsOnlyUnselected(all, rnd, dd);
    SplitMembers(FillPass(all, rnd, dd).selected, |dd.selected|);
  }

  /** After the distribution loop and the fill pass, on a bank without repeated
      questions: no question twice, at most 10, within 900 s, only bank questions. */
  lemma FilledBounds(all: seq<Question>, rnd: seq<seq<nat>>)
    requires Distinct(all)
    ensures var f := FillPass(all, rnd, Distribution(all, rnd, 0, Draft([], 0))).selected;
      && Distinct(f) && |f| <= TARGET_COUNT && TotalTime(f) <= MAX_TIME
      && (forall q {:trigger q in f} :: q in f ==> q in all)
  {
    var d0 := Draft([], 0);
    assert DraftInvariant(all, 0, d0);
    DistributionKeepsInvariant(all, rnd, 0, d0);
    FillPassBounds(all, rnd, Distribution(all, rnd, 0, d0));
  }

  /** The corrected selection (the one `Database.StartIntended` makes) from a
      bank without repeated questions: never empty, only bank questions, none twice, at most 10;
      within the 900-second budget whenever the distribution and fill passes
      found anything, and otherwise a sample of min(10, n) questions. */
  lemma SelectionBounds(all: seq<Question>, rnd: seq<seq<nat>>)
    requires |all| > 0 && Distinct(all)
    ensures var d := FillPass(all, rnd, Distribution(all, rnd, 0, Draft([], 0)));
      var r := Selected(all, rnd);
      && r != [] && Distinct(r) && |r| <= TARGET_COUNT
      && (forall q {:trigger q in r} :: q in r ==> q in all)
      && (d.selected != [] ==> r == d.selected && TotalTime(r) <= MAX_TIME)
      && (d.selected == [] ==> |r| == Min(TARGET_COUNT, |all|))
  {
    FilledBounds(all, rnd);
    var f := FillPass(all, rnd, Distribution(all, rnd, 0, Draft([], 0)));
    if f.selected == [] {
      FallbackSample(all, rnd, f);
      DistinctSubMultiset(Selected(all, rnd), all);
    }
  }

  // ------------------------------------------------------------------ the finding

  const PERSONAL_EASY: Question := Question(1, "Tell us about yourself.", "Personal", "easy", 60)
  const TECHNICAL_EASY: Question := Question(2, "What is a variable?", "Technical", "easy", 60)

  lemma PermuteSingleton<T>(x: T, code: seq<nat>)
    ensures Permute([x], code) == [x]
  {
  }

  lemma {:induction false} RemainingCovered(all: seq<Question>, selected: seq<Question>)
    requires forall q :: q in all ==> q in selected
    ensures Remaining(all, selected) == []
  {
    if all != [] {
      RemainingCovered(all[..|all| - 1], selected);
      assert all[|all| - 1] in all;
    }
  }

  lemma FillPassOnEmptyRemainder(all: seq<Question>, rnd: seq<seq<nat>>, d: Draft)
    requires forall q :: q in all ==> q in d.selected
    ensures FillPass(all, rnd, d).selected == d.selected
  {
    RemainingCovered(all, d.selected);
    assert Permute(Remaining(all, d.selected), Draw(rnd, d.draws)) == [];
  }

  lemma LaterKeys(i: nat)
    requires 2 <= i < |TARGET_DISTRIBUTION|
    ensures KeyOf(PERSONAL_EASY) != TARGET_DISTRIBUTION[i].0
    ensures KeyOf(TECHNICAL_EASY) != TARGET_DISTRIBUTION[i].0
  {
  }

  lemma {:induction false} NoGroupsLeft(all: seq<Question>, rnd: seq<seq<nat>>, i: nat, d: Draft)
    requires 2 <= i
    requires all == TWO_QUESTIONS
    requires forall q :: q in all ==> q in d.selected
    ensures DistributionAsWritten(all, rnd, i, d).selected == d.selected
    decreases |TARGET_DISTRIBUTION| - i
  {
    if i < |TARGET_DISTRIBUTION| {
      var key := TARGET_DISTRIBUTION[i].0;
      var count := TARGET_DISTRIBUTION[i].1;
      LaterKeys(i);
      InGroupEmpty(all, key);
      var p := PickFor(all, rnd, key, count, d);
      assert p == d;
      FillPassOnEmptyRemainder(all, rnd, p);
      AsWrittenStep(all, rnd, i, d);
      NoGroupsLeft(all, rnd, i + 1, FillPass(all, rnd, p));
    }
  }

  /** The two-question bank of the finding. */
  const TWO_QUESTIONS: seq<Question> := [PERSONAL_EASY, TECHNICAL_EASY]

  /** The first group takes the Personal question and the fill pass after it the Technical one. */
  lemma FirstGroupThenFill(rnd: seq<seq<nat>>)
    ensures FillPass(TWO_QUESTIONS, rnd, PickFor(TWO_QUESTIONS, rnd, ("Personal", "easy"), 2, Draft([], 0)))
         == Draft([PERSONAL_EASY, TECHNICAL_EASY], 2)
  {
    var all := TWO_QUESTIONS;
    assert all == [PERSONAL_EASY] + [TECHNICAL_EASY];
    assert [PERSONAL_EASY] == [] + [PERSONAL_EASY];
    InGroupSnoc([], PERSONAL_EASY, ("Personal", "easy"));
    InGroupSnoc([PERSONAL_EASY], TECHNICAL_EASY, ("Personal", "easy"));
    assert InGroup(all, ("Personal", "easy")) == [PERSONAL_EASY];
    PermuteSingleton(PERSONAL_EASY, Draw(rnd, 0));
    assert Sample([PERSONAL_EASY], 1, Draw(rnd, 0)) == [PERSONAL_EASY];
    assert AddFitting([PERSONAL_EASY], []) == AddFitting([], [PERSONAL_EASY]);
    var d1 := PickFor(all, rnd, ("Personal", "easy"), 2, Draft([], 0));
    assert d1 == Draft([PERSONAL_EASY], 1);
    assert Remaining(all, [PERSONAL_EASY]) == [TECHNICAL_EASY] by {
      assert all[..1] == [PERSONAL_EASY];
      assert [PERSONAL_EASY][..0] == [];
      assert Remaining([PERSONAL_EASY], [PERSONAL_EASY]) == [];
      assert TECHNICAL_EASY !in [PERSONAL_EASY];
    }
    PermuteSingleton(TECHNICAL_EASY, Draw(rnd, 1));
    TotalTimeAppend([], PERSONAL_EASY);
    assert FillFrom([TECHNICAL_EASY], [PERSONAL_EASY]) == FillFrom([], [PERSONAL_EASY] + [TECHNICAL_EASY]);
  }

  /** The second group takes the Technical question again; the fill pass then finds nothing left. */
  lemma SecondGroupThenFill(rnd: seq<seq<nat>>)
    ensures FillPass(TWO_QUESTIONS, rnd, PickFor(TWO_QUESTIONS, rnd, ("Technical", "easy"), 2, Draft([PERSONAL_EASY, TECHNICAL_EASY], 2)))
         == Draft([PERSONAL_EASY, TECHNICAL_EASY, TECHNICAL_EASY], 4)
  {
    var all := TWO_QUESTIONS;
    assert all == [PERSONAL_EASY] + [TECHNICAL_EASY];
    assert [PERSONAL_EASY] == [] + [PERSONAL_EASY];
    InGroupSnoc([], PERSONAL_EASY, ("Technical", "easy"));
    InGroupSnoc([PERSONAL_EASY], TECHNICAL_EASY, ("Technical", "easy"));
    assert InGroup(all, ("Technical", "easy")) == [TECHNICAL_EASY];
    PermuteSingleton(TECHNICAL_EASY, Draw(rnd, 2));
    assert Sample([TECHNICAL_EASY], 1, Draw(rnd, 2)) == [TECHNICAL_EASY];
    TotalTimeAppend([], PERSONAL_EASY);
    TotalTimeAppend([PERSONAL_EASY], TECHNICAL_EASY);
    assert [PERSONAL_EASY] + [TECHNICAL_EASY] == [PERSONAL_EASY, TECHNICAL_EASY];
    assert AddFitting([TECHNICAL_EASY], [PERSONAL_EASY, TECHNICAL_EASY])
        == AddFitting([], [PERSONAL_EASY, TECHNICAL_EASY] + [TECHNICAL_EASY]);
    var d2 := PickFor(all, rnd, ("Technical", "easy"), 2, Draft([PERSONAL_EASY, TECHNICAL_EASY], 2));
    assert d2 == Draft([PERSONAL_EASY, TECHNICAL_EASY, TECHNICAL_EASY], 3);
    FillPassOnEmptyRemainder(all, rnd, d2);
  }

  /** With one Personal/easy and one Technical/easy question in the bank, the
      fill pass after the first group already takes the Technical question,
      and the second group then takes it again: whatever the random choices,
      the interview would ask it twice. */
  lemma AsWrittenSelectsTwice(rnd: seq<seq<nat>>)
    ensures SelectedAsWritten(TWO_QUESTIONS, rnd) == [PERSONAL_EASY, TECHNICAL_EASY, TECHNICAL_EASY]
  {
    var all := TWO_QUESTIONS;
    var d0 := Draft([], 0);
    var f1 := Draft([PERSONAL_EASY, TECHNICAL_EASY], 2);
    var f2 := Draft([PERSONAL_EASY, TECHNICAL_EASY, TECHNICAL_EASY], 4);
    AsWrittenStep(all, rnd, 0, d0);
    FirstGroupThenFill(rnd);
    assert DistributionAsWritten(all, rnd, 0, d0) == DistributionAsWritten(all, rnd, 1, f1);
    AsWrittenStep(all, rnd, 1, f1);
    SecondGroupThenFill(rnd);
    assert DistributionAsWritten(all, rnd, 1, f1) == DistributionAsWritten(all, rnd, 2, f2);
    NoGroupsLeft(all, rnd, 2, f2);
  }

  /** The bank of the finding has no repeated question, but the selection as written does. */
  lemma AsWrittenMaySelectTwice(rnd: seq<seq<nat>>)
    ensures Distinct(TWO_QUESTIONS)
    ensures !Distinct(SelectedAsWritten(TWO_QUESTIONS, rnd))
  {
    AsWrittenSelectsTwice(rnd);
    TwoQuestionsDistinct();
    RepeatNotDistinct();
  }

  lemma TwoQuestionsDistinct()
    ensures Distinct(TWO_QUESTIONS)
  {
    UniqueIdsAreDistinct(TWO_QUESTIONS);
  }

  lemma RepeatNotDistinct()
    ensures !Distinct([PERSONAL_EASY, TECHNICAL_EASY, TECHNICAL_EASY])
  {
    assert multiset([PERSONAL_EASY, TECHNICAL_EASY, TECHNICAL_EASY])[TECHNICAL_EASY] >= 2;
  }
}
