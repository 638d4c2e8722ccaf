# BotSpark interview application: a verified model of its core logic

BotSpark is an interview application. A candidate starts an interview, and the
Django backend picks questions under a 900-second budget, aiming at ten. The React
page then asks the questions one by one, with a 60-second question countdown
and a 120-second interview countdown. At the end the candidate reviews the
answers and submits them, and the backend scores the session. An admin can
unblock a candidate, remove a candidate's records, import questions from a
CSV file and export CSV files. A summary page shows the candidate's latest
session.

This project models that logic in Dafny and proves what it promises:

- `interview_page.dfy`: the interview page as the class
  `InterviewPage.InterviewController`. Its fields are the component's state
  variables, and one method stands for each handler and each interval tick.
- `interview_models.dfy`: the backend records.
- `interview_selection.dfy`: question selection.
- `interview_submit.dfy`: answer application and scoring.
- `interview_analytics.dfy`: the analytics counters and top-5 ranking.
- `interview_views.dfy`: the backend endpoints as methods of the class
  `InterviewViews.Database`, whose fields are the tables. Each table is a
  sequence of records, and the class keeps an invariant on them: unique keys,
  keys in creation order, and foreign keys that resolve.
- `question_import.dfy`: the write permission on questions and the bulk CSV
  import validator.
- `admin_dashboard.dfy`: the dashboard's CSV builders, the score badge, the
  save payload and the import file check.
- `summary_page.dfy`: the summary page's pick of the latest session, its
  mapping with defaults, and the correct-answer count.
- `scores.dfy`: the score thresholds shared by both pages.
- `common.dfy`: shared text helpers, each modelled on the language the
  source is written in:
  - `trim`/`strip`, `toLowerCase`/`lower` and `endsWith`;
  - join and split;
  - `String(n)`, and Python's `int(...)` for decimal text.

How inputs the model cannot compute are supplied:

- **Randomness:** `random.sample` and `random.shuffle` are driven by
  caller-supplied choice codes (`rnd`). Every ordering can be reached, and the
  proofs hold for all codes.
- **Network results:** the outcome of a request is a parameter. The page
  handlers that await a request are split in two: `BeginStart`/`FinishStart`
  and `BeginSubmit`/`FinishSubmit`.
- **Requesting user:** the backend's requesting user is a position `me` in
  the user table.
- **Number and date formatting:** `toFixed(2)` is the function parameter
  `fixed2`, and dates arrive already formatted.

Three behaviours of the code are modelled as written:

- An automatic answer records the elapsed time `60 - timer`. The timer fires
  at 1, so that is 59 s.
- A successful submit only leaves review mode. There is no "submitted" state.
- The fill pass of question selection runs inside the distribution loop, so
  the start endpoint can list a question twice (see Findings).
  `Database.Start` creates the session from this selection.
  `Database.StartIntended` is the same endpoint with the fill pass moved after
  the loop, and its selection repeats no question.

## Model

| member | source | states |
|---|---|---|
| InterviewPage.FreshSlots | frontend/src/pages/InterviewPage.js:52 | one slot per question, each with empty text and 60 seconds |
| InterviewPage.TranscriptAdvances | frontend/src/pages/InterviewPage.js:73-80 | appending an answer and the next question keeps the transcript's shape, with the questions asked in order and one further on |
| InterviewPage.TranscriptAnswersLast | frontend/src/pages/InterviewPage.js:82-85 | answering the last question only appends an answer message, and the transcript keeps its shape |
| InterviewPage.IsBlocked | frontend/src/pages/InterviewPage.js:35 | only a candidate is blocked, and a candidate is blocked exactly when the completion or the block flag is set |
| InterviewPage.InterviewController.constructor | frontend/src/pages/InterviewPage.js:11-29 | the initial state: no questions, both countdowns full, not started |
| InterviewPage.InterviewController.BeginStart | frontend/src/pages/InterviewPage.js:42-44 | only an unblocked user, before the start, can begin; the page starts loading and clears the error; nothing else changes |
| InterviewPage.InterviewController.FinishStart | frontend/src/pages/InterviewPage.js:45-64 | a non-empty list sets the questions, the session, a transcript of just the first question, fresh slots, both timers full and the started flag; an empty or missing list sets the error `No questions available for interview.` and does not start; a failed request sets the server's error or the fixed text; loading ends in every case |
| InterviewPage.InterviewController.Begin | frontend/src/pages/InterviewPage.js:47-63 | the started state: the questions, the session, a transcript of the first question, fresh slots, full countdowns, started and not loading; the invariant is kept |
| InterviewPage.InterviewController.Fail | frontend/src/pages/InterviewPage.js:56-63 | only the error text and the end of loading change |
| InterviewPage.InterviewController.SetPendingAnswer | frontend/src/pages/InterviewPage.js:143 | only the pending text changes |
| InterviewPage.InterviewController.HandleAnswer | frontend/src/pages/InterviewPage.js:67-86 | a manual answer with blank trimmed text changes nothing; otherwise only `answers[current]` is overwritten with the text and `60 - timer`; one answer message is appended; the pending text is cleared; then the next question is asked and `current` goes up by exactly 1, or on the last question review begins |
| InterviewPage.InterviewController.RecordAnswer | frontend/src/pages/InterviewPage.js:70-85 | an accepted answer is stored with its elapsed time and appended to the transcript; before the last question the next one is asked, after it review begins; the page invariant is kept |
| InterviewPage.InterviewController.Advance | frontend/src/pages/InterviewPage.js:70-80 | an answer before the last question: its slot, the transcript with the answer and the next question, the cleared box, the next index and a full question countdown, and nothing else |
| InterviewPage.InterviewController.AnswerLast | frontend/src/pages/InterviewPage.js:70-84 | the answer to the last question: its slot, the transcript with the answer, the cleared box and review mode, and nothing else |
| InterviewPage.RecordedKeeps | frontend/src/pages/InterviewPage.js:70-85 | recording an answer outside review keeps the page invariant (transcript shape, one slot per question, index in range) |
| InterviewPage.StartedKeeps | frontend/src/pages/InterviewPage.js:47-55 | starting with a non-empty list keeps the page invariant, with the first question current |
| InterviewPage.InterviewController.TotalTick | frontend/src/pages/InterviewPage.js:90-103 | no change unless the countdowns run; above 1 the countdown goes down by one; at 1 or below it becomes 0, time is up and review begins, whatever the current question, and no countdown runs afterwards |
| InterviewPage.InterviewController.QuestionTick | frontend/src/pages/InterviewPage.js:114-125 | no change unless the countdowns run; above 1 the countdown goes down by one; at 1 or below the pending text is answered automatically and the countdown is reset to 60 |
| InterviewPage.InterviewController.ReviewChange | frontend/src/pages/InterviewPage.js:171-175 | only `answers[idx].answer` changes; its time and every other slot are kept |
| InterviewPage.InterviewController.BeginSubmit | frontend/src/pages/InterviewPage.js:177-187 | the payload has the session id and one entry per slot, in index order, with the question's id, the text and the time, each time between 0 and 60 |
| InterviewPage.InterviewController.FinishSubmit | frontend/src/pages/InterviewPage.js:188-195 | success leaves review mode and nothing else; failure keeps review mode and the answers; `submitting` is false afterwards in both cases |
| InterviewModels.UniqueIdsAreDistinct | backend/interview/views.py:84 | a bank with unique keys has no repeated question, so comparing questions by key and comparing them as records agree |
| InterviewModels.DistinctAppend | backend/interview/views.py:79-91 | appending questions that are not yet selected keeps a selection free of repeats |
| InterviewSelection.InGroupMembers | backend/interview/views.py:49-54 | a question is in the group of a key exactly when it is in the bank and has that key |
| InterviewSelection.AddToGroupKeeps | backend/interview/views.py:50-54 | appending a question to the list of its key keeps the grouping exact for the bank extended by that question |
| InterviewSelection.GroupByTopicDifficulty | backend/interview/views.py:49-54 | every question's `(topic, difficulty)` has a group, and each group holds exactly the bank's questions with that key, in bank order, and is never empty |
| InterviewSelection.GroupLookup | backend/interview/views.py:73 | looking a key up with an empty default gives its group |
| InterviewSelection.Permute | backend/interview/views.py:85 | a shuffle keeps every element exactly as often |
| InterviewSelection.Sample | backend/interview/views.py:76 | a sample takes `k` elements of the list, each position at most once |
| InterviewSelection.Remaining | backend/interview/views.py:84 | no question left over is already selected |
| InterviewSelection.AddFittingLoop | backend/interview/views.py:77-80 | the loop computes the additions of the specification function, with the running total equal to the selection's total time |
| InterviewSelection.FillLoop | backend/interview/views.py:87-92 | the fill loop computes the specification function, including the stop at 10, with the running total equal to the selection's total time |
| InterviewSelection.PickStep | backend/interview/views.py:73-80 | one key of the distribution: sample from its group and keep what fits |
| InterviewSelection.FillStep | backend/interview/views.py:83-92 | one fill pass, as the specification function states it |
| InterviewSelection.DistributeAsWritten | backend/interview/views.py:72-92 | the distribution loop as written, with the fill pass after every key |
| InterviewSelection.SelectQuestionsAsWritten | backend/interview/views.py:49-96 | the selection as written |
| InterviewSelection.FallbackStep | backend/interview/views.py:95-96 | an empty selection is replaced by a plain sample |
| InterviewSelection.SelectQuestions | backend/interview/views.py:49-96 | the corrected selection, with the fill pass once after the distribution loop |
| InterviewSelection.AddFittingGrows | backend/interview/views.py:77-80 | the distribution step only appends some of the sampled questions and, from within 900 s, stays within 900 s |
| InterviewSelection.FillFromExtends | backend/interview/views.py:87-92 | the fill loop keeps the selection as a prefix and appends only pool questions, at most one per pool entry |
| InterviewSelection.FillFromBounded | backend/interview/views.py:87-92 | the fill loop stays within 900 s, adds nothing once 10 are selected and never goes beyond 10 |
| InterviewSelection.FillFromGrows | backend/interview/views.py:87-92 | the fill loop only appends pool questions, stays within 900 s, adds nothing once 10 are selected and never goes beyond 10 |
| InterviewSelection.FillPassAddsOnlyUnselected | backend/interview/views.py:83-92 | the fill pass adds only bank questions that were not selected, stays within 900 s and stops at 10 |
| InterviewSelection.PickForGrows | backend/interview/views.py:73-80 | one key adds at most its count of questions, all from its group, within the budget |
| InterviewSelection.RoundKeepsBudget | backend/interview/views.py:73-92 | one round of the loop as written, a group and then the fill pass, keeps the selection within 900 s and within the bank |
| InterviewSelection.AsWrittenBudget | backend/interview/views.py:69-92 | the selection as written keeps the running total within 900 s and draws only bank questions |
| InterviewSelection.FallbackSample | backend/interview/views.py:95-96 | the fallback takes `min(10, n)` questions of the bank |
| InterviewSelection.SelectionAsWrittenBounds | backend/interview/views.py:49-96 | the selection as written is never empty and only holds bank questions; a non-empty distribution result is kept and stays within 900 s; otherwise the fallback takes `min(10, n)` questions |
| InterviewSelection.TargetKeysDiffer | backend/interview/views.py:57-65 | no key occurs twice in the target distribution |
| InterviewSelection.FillPassKeepsDistinct | backend/interview/views.py:83-92 | the fill pass on a bank without repeats keeps the selection without repeats and within 10 |
| InterviewSelection.QuotaTotal | backend/interview/views.py:57-65 | the counts of the target distribution add up to 10 |
| InterviewSelection.FillPassBounds | backend/interview/views.py:83-92 | after a distribution draft that keeps its invariant, the fill pass gives a selection without repeats, of at most 10 bank questions, within 900 s |
| InterviewSelection.FilledBounds | backend/interview/views.py:69-92 | the distribution loop followed by the fill pass, on a bank without repeats, gives at most 10 distinct bank questions within 900 s |
| InterviewSelection.SelectionBounds | backend/interview/views.py:49-96 | the corrected selection from a bank without repeats is never empty, only holds bank questions, repeats none and has at most 10; within 900 s unless the fallback ran, which takes `min(10, n)` questions |
| InterviewSelection.AsWrittenSelectsTwice | backend/interview/views.py:72-92 | with a Personal/easy and a Technical/easy question, the selection as written is `[Personal, Technical, Technical]` |
| InterviewSelection.AsWrittenMaySelectTwice | backend/interview/views.py:72-92 | a bank without repeats for which the selection as written repeats a question |
| InterviewSubmit.Applied | backend/interview/views.py:123-128 | an answered row keeps its keys and gets the response, the time (0 for a missing key, no value for a JSON null), and `is_correct` set to the response being non-empty |
| InterviewSubmit.AppliedTwice | backend/interview/views.py:119-128 | a later answer to the same row replaces everything an earlier one wrote |
| InterviewSubmit.FirstMatch | backend/interview/views.py:122 | the first row of the session with that question, or none; a missing `question_id` matches nothing |
| InterviewSubmit.ApplyAllSameKeys | backend/interview/views.py:119-128 | submitting changes no key of any row |
| InterviewSubmit.ApplyAllRows | backend/interview/views.py:119-128 | each row ends up with what the last answer addressed to it wrote, and a row that no answer addresses is unchanged (so ids that match nothing are ignored) |
| InterviewSubmit.OtherSessionsUntouched | backend/interview/views.py:122 | rows of other sessions are never changed |
| InterviewSubmit.ApplyAnswers | backend/interview/views.py:119-128 | the loop over the answers computes the specification function |
| InterviewSubmit.ScoreBounds | backend/interview/views.py:131 | the score lies in [0, 100]; it is 0 exactly when no response is non-empty and 100 exactly when all are |
| InterviewAnalytics.TopicStatsCount | backend/interview/views.py:267-272 | a topic has an entry exactly when one of its questions was asked; `total` counts its rows and `missed` those not correct |
| InterviewAnalytics.MissedAtMostTotal | backend/interview/views.py:269-272 | missed ≤ total for every topic |
| InterviewAnalytics.IndexOf | backend/interview/views.py:276 | the position of a question's miss counter, or none |
| InterviewAnalytics.BumpMissCounts | backend/interview/views.py:276 | one more miss adds one to that question's count and changes no other |
| InterviewAnalytics.MissTallyCounts | backend/interview/views.py:274-276 | each question has at most one counter, every counter is positive, and a question's count is how often it was missed |
| InterviewAnalytics.MissTallyEntries | backend/interview/views.py:274-276 | exactly the questions missed at least once have a counter |
| InterviewAnalytics.CountRows | backend/interview/views.py:267-276 | the loop over the session questions computes both specification functions |
| InterviewAnalytics.SortByCountProperties | backend/interview/views.py:278 | ranking orders by count, largest first, and is a permutation |
| InterviewAnalytics.MostMissedTop5 | backend/interview/views.py:278 | at most five entries (all of them when there are at most five), largest first, all from the tally, and none left out was missed more often than one kept |
| InterviewViews.MayNotStart | backend/interview/views.py:40 | only a candidate is refused, and a candidate is refused exactly when the completion or the block flag is set |
| InterviewViews.Completed | backend/interview/views.py:135-136 | after submitting, a candidate may not start again |
| InterviewViews.Unblocked | backend/interview/views.py:299-300 | unblocking clears both flags, so the candidate may start again |
| InterviewViews.Removed | backend/interview/views.py:320-321 | after removal the candidate is blocked, with the completion flag cleared, and unblocking restores the same state as before |
| InterviewViews.PageGateAgrees | backend/interview/views.py:40 | the page's `isBlocked` holds exactly when the server refuses to start |
| InterviewViews.FindSession | backend/interview/views.py:145 | the session with that key, or none |
| InterviewViews.FindOwnedSession | backend/interview/views.py:115 | the session with that key owned by that user, or none; a missing key matches nothing |
| InterviewViews.FindCandidate | backend/interview/views.py:295 | the candidate with that key, or none (admins are not found) |
| InterviewViews.QuestionById | backend/interview/views.py:268 | the question a session question points at |
| InterviewViews.StartRows | backend/interview/views.py:99-106 | a new session has exactly one row per selected question, in the order the response lists them, none answered |
| InterviewViews.CreateRows | backend/interview/views.py:100-101 | the loop creates the rows of the specification function |
| InterviewViews.AnalyticsRows | backend/interview/views.py:267-268 | one row per session question, with its question's topic |
| InterviewViews.RemoveExactly | backend/interview/views.py:316-318 | removal keeps exactly the other users' sessions and the rows of kept sessions |
| InterviewViews.StartKeepsTables | backend/interview/views.py:99-101 | a new session and its rows keep the table invariant |
| InterviewViews.StartSelectionKeepsTables | backend/interview/views.py:49-101 | starting with the selection as written keeps the table invariant |
| InterviewViews.SubmitKeepsTables | backend/interview/views.py:119-137 | submitting keeps the table invariant |
| InterviewViews.KeepSessionsOrdered | backend/interview/views.py:318 | deleting sessions keeps the rest in key order |
| InterviewViews.KeepRowsOrdered | backend/interview/views.py:317 | deleting rows keeps the rest in key order |
| InterviewViews.KeepSessionsOwned | backend/interview/views.py:318 | the remaining sessions still belong to existing users |
| InterviewViews.KeepRowsLinked | backend/interview/views.py:317-318 | the remaining rows still point at remaining sessions |
| InterviewViews.RemoveKeepsTables | backend/interview/views.py:316-322 | removing a candidate's records keeps the table invariant |
| InterviewViews.Database.constructor | backend/interview/models.py:7-21 | a database with the given users and bank, and no sessions |
| InterviewViews.Database.CreateSession | backend/interview/views.py:99-106 | one new session for the user and one unanswered row per given question, in order, with fresh keys; the table invariant is kept and the response lists the questions |
| InterviewViews.Database.Start | backend/interview/views.py:38-106 | a gated candidate gets 403 before any selection; non-candidates are never gated; an empty bank gives 400; an error changes nothing; otherwise one new session and one row per question of the selection as written, in its order (repeats included), and the response lists that selection |
| InterviewViews.Database.StartIntended | backend/interview/views.py:38-106 | the same gate and errors as `Start`; otherwise one new session and one row per question of the corrected selection, which repeats no question |
| InterviewViews.Database.Submit | backend/interview/views.py:111-138 | an unknown or foreign session gives 404 and changes nothing; otherwise the rows get the answers, the session is ended with the score, a candidate is marked completed and the reply carries the score |
| InterviewViews.Database.Summary | backend/interview/views.py:143-154 | an unknown session gives 404; a user who neither owns it nor is an admin gets 403; otherwise the session and its rows |
| InterviewViews.Database.Analytics | backend/interview/views.py:256-285 | a non-admin gets 403; otherwise the session count, the per-topic counters and the top-5 most missed questions |
| InterviewViews.Database.Unblock | backend/interview/views.py:290-303 | a non-admin gets 403; an unknown candidate gives 404; otherwise only that candidate's two flags are cleared |
| InterviewViews.Database.Remove | backend/interview/views.py:308-323 | a non-admin gets 403; an unknown candidate gives 404, and neither changes anything; otherwise exactly the candidate's sessions and their rows are deleted, and the candidate is blocked with the completion flag cleared |
| QuestionImport.PermissionCases | backend/questions/views.py:16-19 | safe methods are always allowed; any other method only to a signed-in admin |
| QuestionImport.NoneMissing | backend/questions/views.py:55-58 | no field is missing exactly when all four are present and non-empty |
| QuestionImport.CheckRow | backend/questions/views.py:53-84 | a row creates a question exactly when it passes every check; the question has stripped text and topic, the difficulty as given and a positive time; a rejected row's message starts with `Row N: ` |
| QuestionImport.LowerDifficulty | backend/questions/views.py:63-81 | an accepted difficulty is already lowercase |
| QuestionImport.MissingFieldsFirst | backend/questions/views.py:56-60 | a row lacking any field gets exactly one error, which lists the missing fields, and no later check runs |
| QuestionImport.Results | backend/questions/views.py:52 | one result per data row, numbered from 2 |
| QuestionImport.ResultCounts | backend/questions/views.py:49-87 | every row gives one question or one error |
| QuestionImport.CreatedCountsValidRows | backend/questions/views.py:78-84 | `created` is the number of rows that pass all checks |
| QuestionImport.ReportErrors | backend/questions/views.py:95-98 | no `errors` key without errors; otherwise the first 10 in row order, plus one `... and N more errors` line when there are more |
| QuestionImport.ImportOutcome | backend/questions/views.py:27-103 | the checks run in order (an anonymous request 401 from the view's `IsAuthenticated`, a signed-in non-admin 403, then no file 400, then a name not ending in `.csv` 400); a file with no data rows gives 400; otherwise `created` counts the rows that pass, `total_rows_processed` is the number of data rows, and `errors` is present exactly when some row failed |
| QuestionImport.ResultsStep | backend/questions/views.py:49-87 | each further row adds its question or its error to the collected lists, and nothing else |
| QuestionImport.CheckRows | backend/questions/views.py:49-87 | the loop collects the created questions and the errors of the specification |
| QuestionImport.Report | backend/questions/views.py:95-98 | the truncation and the extra line, as the specification states them |
| QuestionImport.ImportReplyFor | backend/questions/views.py:27-103 | status 200 exactly for an import reply; an import needs an admin, a file named `.csv` and at least one data row, and reports every data row as processed |
| QuestionImport.BulkImport | backend/questions/views.py:27-103 | the reply and the created questions are the specified ones |
| AdminDashboard.Quote | frontend/src/pages/AdminDashboard.js:133 | the text between a pair of double quotes, with nothing escaped |
| AdminDashboard.Lines | frontend/src/pages/AdminDashboard.js:135 | one line per row, its cells joined by commas |
| AdminDashboard.CsvRoundTrip | frontend/src/pages/AdminDashboard.js:135 | splitting the text at newlines and then at commas gives the table back, when no cell holds a separator |
| AdminDashboard.ExportRows | frontend/src/pages/AdminDashboard.js:131-134 | the header `ID,Text,Topic,Difficulty`, then one row per question in list order |
| AdminDashboard.ExportRoundTrip | frontend/src/pages/AdminDashboard.js:131-135 | the export reads back as the header and, per question, the id, the quoted text, the topic and the difficulty |
| AdminDashboard.Round | frontend/src/pages/AdminDashboard.js:195 | `Math.round`: the nearest integer |
| AdminDashboard.QuestionRow | frontend/src/pages/AdminDashboard.js:204-211 | a missing response becomes `""`; `Yes` exactly when the answer is correct and `No` otherwise; a missing time becomes 0 |
| AdminDashboard.CandidateRow | frontend/src/pages/AdminDashboard.js:185 | the name, the e-mail, the session count and the average score, 0 when missing |
| AdminDashboard.SessionRow | frontend/src/pages/AdminDashboard.js:188-196 | the key, the score (0 when missing), the start, the end or `N/A`, the two counts, and the average time rounded to the nearest integer (0 when missing) followed by `s` |
| AdminDashboard.SessionRows | frontend/src/pages/AdminDashboard.js:192-196 | one row per session, in session order |
| AdminDashboard.HeadRows | frontend/src/pages/AdminDashboard.js:183-199 | the candidate header and row, an empty row, the session header, one row per session, an empty row and the question header |
| AdminDashboard.QuestionRowsAt | frontend/src/pages/AdminDashboard.js:202-213 | question `j` of session `i` is question row `TotalQuestions(ss[..i]) + j` |
| AdminDashboard.QuestionBlocks | frontend/src/pages/AdminDashboard.js:202-213 | one block per session, holding that session's question rows |
| AdminDashboard.SummaryHeadLayout | frontend/src/pages/AdminDashboard.js:183-199 | the summary's size, its fixed rows and each session's row at the position after the session header |
| AdminDashboard.SummaryQuestionAt | frontend/src/pages/AdminDashboard.js:202-213 | question `j` of session `i` sits right after the questions of the earlier sessions, below the question header |
| AdminDashboard.PushQuestions | frontend/src/pages/AdminDashboard.js:203-212 | the inner loop appends one row per question of a session |
| AdminDashboard.PushSessions | frontend/src/pages/AdminDashboard.js:202-213 | the outer loop appends every session's question rows, in session order |
| AdminDashboard.DownloadCandidateSummary | frontend/src/pages/AdminDashboard.js:180-215 | no text without a loaded detail; otherwise the CSV text of the summary table |
| AdminDashboard.ScoreColor | frontend/src/pages/AdminDashboard.js:227-232 | `success` for ≥ 80, `warning` for ≥ 60, `danger` otherwise, and for a missing score |
| AdminDashboard.ScoreEmoji | frontend/src/pages/AdminDashboard.js:234-239 | the same thresholds and the same default, with the three emoji |
| AdminDashboard.SavePayload | frontend/src/pages/AdminDashboard.js:91-94 | every field is kept except `difficulty`, which is `""` when missing and otherwise the given text with each character lowered, so no capital is left |
| AdminDashboard.SaveIdempotent | frontend/src/pages/AdminDashboard.js:91-94 | saving a saved payload again changes nothing |
| AdminDashboard.NewQuestionDifficulty | frontend/src/pages/AdminDashboard.js:82-93 | the add form's default difficulty is saved as `easy`, which the import accepts |
| AdminDashboard.ImportStepFor | frontend/src/pages/AdminDashboard.js:151-159 | nothing happens without a file; the upload happens exactly for a name ending in `.csv` |
| AdminDashboard.ImportCheckMatchesServer | frontend/src/pages/AdminDashboard.js:155 | for an admin, the page uploads exactly the files the server's name check accepts |
| SummaryPage.RowOf | frontend/src/pages/SummaryPage.js:50-55 | the question text; an answer that is `""` exactly when the response is missing or empty; correct exactly when `is_correct` is true; a missing time becomes 0 |
| SummaryPage.Rows | frontend/src/pages/SummaryPage.js:50 | one row per session question, in order |
| SummaryPage.SummaryOf | frontend/src/pages/SummaryPage.js:46-56 | a missing score becomes 0; the times are kept; row `i` is the row of session question `i` |
| SummaryPage.ViewOfSummary | frontend/src/pages/SummaryPage.js:45-59 | a failed request shows its error; a body with `sessionquestion_set` is shown; no body, or one without it, gives `Invalid summary data received.` |
| SummaryPage.ErrorText | frontend/src/pages/SummaryPage.js:62 | the message shown is never empty, and it is the error's own message when there is one |
| SummaryPage.Load | frontend/src/pages/SummaryPage.js:11-69 | an admin gets the notice regardless of any request; a missing or empty session list gives `No interview sessions found.`; a failed session request shows its error; a summary is shown only when fetched for the last session; a missing or invalid summary gives `Invalid summary data received.` and a failed summary request its error; the error shown is never empty |
| SummaryPage.LatestSessionOnly | frontend/src/pages/SummaryPage.js:38 | two session lists that end in the same session give the same page |
| SummaryPage.ShownWhenWellFormed | frontend/src/pages/SummaryPage.js:38-56 | a well-formed summary of the last session is shown |
| SummaryPage.CorrectCount | frontend/src/pages/SummaryPage.js:179 | the correct count is at most the number of rows |
| SummaryPage.RowsCorrect | frontend/src/pages/SummaryPage.js:53 | the rows counted as correct are exactly the session questions the server marked correct |
| SummaryPage.CorrectCountOfSummary | frontend/src/pages/SummaryPage.js:179 | the correct count of a shown summary is the number of questions marked correct, at most all of them |
| SummaryPage.Badge | frontend/src/pages/SummaryPage.js:71-81 | `success` with 🎉 for ≥ 80, `warning` for ≥ 60, `danger` otherwise |
| SummaryPage.MissingScoreBadge | frontend/src/pages/SummaryPage.js:47-81 | a summary without a score gets `danger` and 💪 |
| Scores.Color | frontend/src/pages/SummaryPage.js:71-75 | `success` exactly for ≥ 80, `warning` exactly for 60 up to 80, `danger` exactly below 60 |
| Scores.Emoji | frontend/src/pages/SummaryPage.js:77-81 | 🎉 exactly for the `success` colour, 👍 for `warning` and 💪 for `danger` |
| Scores.BandMonotone | frontend/src/pages/AdminDashboard.js:227-239 | a higher score never gets a lower band |
| Scores.ColorDeterminesEmoji | frontend/src/pages/AdminDashboard.js:227-239 | equal colours give equal emoji |
| Common.Strip | frontend/src/pages/InterviewPage.js:68 | JavaScript `trim()` and Python `strip()`: no longer than the text, and no ASCII whitespace left at either end |
| Common.StripSlice | frontend/src/pages/InterviewPage.js:68 | the stripped text is the slice of the text between its leading and its trailing whitespace, and only whitespace lies outside that slice |
| Common.StripEmptyIffBlank | frontend/src/pages/InterviewPage.js:68 | the trimmed text is empty exactly when the text is all whitespace |
| Common.ToLower | frontend/src/pages/AdminDashboard.js:93 | `toLowerCase()` on ASCII letters: the same length, each upper-case letter lowered and every other character kept |
| Common.IntToString | frontend/src/pages/AdminDashboard.js:133 | the decimal text of an integer, which holds no comma and no newline |
| Common.ParsePyInt | backend/questions/views.py:69 | Python's `int(text)` (surrounding whitespace, one optional sign, then digits with single underscores between them): no value for text that is empty after stripping |
| Common.ParseIntToString | backend/questions/views.py:69 | every rendered integer parses back to itself |
| Common.SplitJoin | frontend/src/pages/AdminDashboard.js:135 | splitting a joined row gives the cells back when no cell holds the separator |
| Common.Count | frontend/src/pages/SummaryPage.js:179 | a count is at most the length |

## Left out

- Rendering: JSX, CSS, toasts, spinners, modals, progress-bar percentages and `mm:ss` formatting are display only.
- Scheduling: the 500 ms `setTimeout` before the next question, real interval timing and React's effect re-runs are framework scheduling. Each tick and each advance is one atomic method call, and the question countdown's reset when a new question is shown is part of the advance.
- Voice input and output wrap browser speech APIs; a voice transcript enters the model as `SetPendingAnswer`.
- Network and routing: the request wrappers, the token interceptor and URL routing. A request's outcome is a parameter.
- The 401 that `IsAuthenticated` gives an anonymous request is not modelled on the interview endpoints, because the requesting user is always a row of the user table.
- QuestionImport.ImportReplyFor: an anonymous import request gets `NotAuthenticated` with status 401, as Django REST framework answers with a token authenticator. The settings that choose the authenticator are not part of this model; with session authentication alone the status would be 403.
- Database `Avg` aggregates: the analytics average score and the candidate averages are floating point.
- `toFixed`, `Math.round` of the average time on the summary page, and `Date` formatting: `toFixed(2)` is the `fixed2` parameter, and dates arrive formatted.
- Key order: the order of `topic_stats` keys in the JSON reply is not modelled, because a map is unordered.
- InterviewAnalytics.MostMissedTop5: states the counts' descending order and membership, not which of several equally-counted questions Python's stable sort keeps first.
- Import parsing: `csv.DictReader` tokenising and UTF-8 decoding. Import rows arrive as maps from column to text, so a decoding error is not modelled.
- Import database errors: the per-row `except Exception` branch (a database error while creating a question) cannot occur in a model whose creation cannot fail.
- Missing cells: JavaScript `join` renders `null` or `undefined` cells as empty text; the model's cells are always text.
- The candidate list and detail views are query-and-format code apart from their admin check.
- Remaining UI files: the login and register pages, the app routes, the navigation bar and the question card.
- Text handling: whitespace, case folding and digits are ASCII only. There is no Unicode whitespace and no Unicode case mapping.
- Common.Strip: the six ASCII whitespace characters only. Python's `strip()` also removes the separators \x1c-\x1f, which JavaScript's `trim()` keeps, so the import model keeps such a character at the end of a cell where the server strips it.
- Blob/URL download: the file download around the CSV text is browser I/O.

## Findings

| source | as written | input that shows it | evidently intended | confidence | as-written member | corrected member |
|---|---|---|---|---|---|---|
| backend/interview/views.py:72-92 | the fill-to-10 pass is indented inside the distribution loop, so it runs after every key; it can take a question that a later key then samples again, and since a later key's sample is not capped at 10, the selection can also hold more than 10 questions | a bank with one Personal/easy question P and one Technical/easy question T, 60 s each: P is taken by the first key, the fill pass adds T, and the second key samples T again, giving `[P, T, T]`; with eleven Personal/easy questions and one Technical/easy question, 60 s each, the fill pass reaches 10 at 600 s and the Technical key adds an eleventh | the fill pass runs once after the distribution loop, so the selection lists a question at most once and holds at most 10 | not executed | InterviewSelection.AsWrittenMaySelectTwice | InterviewSelection.SelectionBounds |
