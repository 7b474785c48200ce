# HireMate interview core in Dafny

A model of the parts of HireMate that hold its logic, with proofs about them.
HireMate is an AI mock-interview and résumé-coaching application. The model
has four parts:

- **The interview page** (`src/pages/Interview.jsx`). The page has a
  sessionStorage snapshot, an intro prompt, a six-question chat and
  asynchronous continuations. It is modelled twice:
  - as a state machine over values (`InterviewModel`, interview_model.dfy);
  - as a class whose fields the handlers update step by step
    (`InterviewPageObject.InterviewPage`, interview_page.dfy). Every method
    is proved to produce exactly the transition of the same name in the
    value model.

  On the value model the following are proved for every reachable page,
  across any number of reloads. They hold under two conditions on the
  speech path: it reads the live page, and its 500 ms wait and the
  submission after it are one atomic step. The source's speech path reads
  the render of the microphone click, and an Enter press can fall inside
  its wait. Either way the first three fail (see Findings and "Left out").
  - at most six turns;
  - no answer awaited at six turns;
  - the history only grows, apart from scores and the two resets;
  - nothing is saved while the restoring guard is set;
  - save followed by restore gives back the snapshot.
- **The résumé text heuristics** (`backend/utils/parser.js`),
  in `ResumeParser` (resume_parser.dfy):
  - section splitting, written as the source's loop and proved equal to a
    recursive definition;
  - the capped sum of year ranges.
- **The mock AI responses** (`backend/utils/prompts.js`), in `MockPrompts`
  (mock_prompts.dfy):
  - the rule-based answer scorer, in integer half-points;
  - the question and career-advice templates.
- **The post-processing of language-model replies**
  (`backend-python/interview.py`), in `InterviewService`
  (interview_service.dfy):
  - sentence truncation;
  - location of the JSON object;
  - the evaluation fallback;
  - the question line filters;
  - the rule that puts the introduction into the prompt.

Two shared modules support them. text.dfy holds JavaScript `trim`, Python
`strip`, split, join and substring search. wrappers.dfy holds `Option` and
`Result`.

Inputs from the outside world are parameters:
- model replies, HTTP responses and `json.loads` results;
- the current year;
- `Math.random()`;
- the clock-derived message ids;
- the completion timestamp.

Timers and responses are events that can fire only while they are pending.

## Model

| member | source | states |
|---|---|---|
| ResumeParser.Lines | backend/utils/parser.js:18 | Every line kept is non-empty and has no line break. |
| ResumeParser.NonBlankTrimmedLines | backend/utils/parser.js:18 | Trimming pieces that have no line break and dropping the blank ones leaves only non-empty pieces without a line break. |
| ResumeParser.MapNonEmptyKeeps | backend/utils/parser.js:18 | `.map(f).filter(Boolean)` keeps, in order, the image of every piece that is not empty and nothing else: an increasing list of positions picks out exactly those pieces. |
| ResumeParser.MapNonEmptySnoc | backend/utils/parser.js:18 | Read from the end, the filter adds the last piece's image exactly when it is not empty. |
| ResumeParser.KeptAtSnoc | backend/utils/parser.js:18 | A piece added at the end is kept, at the next position, exactly when its image is not empty. |
| ResumeParser.NonBlankTrimmedIsMap | backend/utils/parser.js:18 | Trimming and dropping blank pieces is that filter with `trim`. |
| ResumeParser.LinesKeep | backend/utils/parser.js:18 | Each line kept is the trim of a line of the text, in the text's order, and every line of the text that is not blank once trimmed is kept. |
| Text.Utf16Length | backend/utils/parser.js:38 | JavaScript's `length` counts UTF-16 code units: one for each character below U+10000 and two for each one above, so between the number of characters and twice it. |
| Text.Utf16LengthBmp | backend/utils/parser.js:38 | For text with no character above U+FFFF, `length` is the number of characters. |
| ResumeParser.HeaderIndexFrom | backend/utils/parser.js:38-43 | The index found is the first section, from the given index on in declaration order, whose keywords match the line. Every section before it does not match, and the end index means no section matches. |
| ResumeParser.HeaderOfFirstMatch | backend/utils/parser.js:23-43 | A line is a header exactly when some section's keywords match it: a keyword is contained in the lower-case line and the line's JavaScript `length`, in UTF-16 code units, is below 50. It then heads the first matching section in declaration order, and never 'general'. |
| ResumeParser.FindSection | backend/utils/parser.js:34-43 | The `for … of` loop with its `break` finds the first matching section, or none. |
| ResumeParser.WorkSamplesIsExperience | backend/utils/parser.js:24-28 | A line containing "work samples" whose `length` is below 50 heads Summary or Experience, never Projects: "work" is an Experience keyword and Experience is declared first. |
| ResumeParser.ExtractTextSections | backend/utils/parser.js:16-65 | The loop over the lines (current section, gathered content, section map) returns exactly the recursive definition `Sections`. |
| ResumeParser.FlushKeepsContent | backend/utils/parser.js:47-49 | A section is written only with non-empty content, joined by '\n', whose lines are content lines. |
| ResumeParser.ScanKeepsContent | backend/utils/parser.js:33-62 | Across the whole scan every stored section stays a non-empty block of content lines. |
| ResumeParser.Sections | backend/utils/parser.js:16-65 | Every stored section is non-empty, and each of its '\n'-separated lines is a trimmed non-blank line of the text that is not a header. |
| ResumeParser.ScanWithoutHeaders | backend/utils/parser.js:33-62 | Without header lines all the lines gather into the current section and are written once at the end. |
| ResumeParser.NoHeadersAllGeneral | backend/utils/parser.js:20-62 | Text without headers yields only 'general', holding all its lines joined by '\n'; empty text yields no section. |
| ResumeParser.ScanThroughContent | backend/utils/parser.js:54-56 | Non-header lines only join the current block. |
| ResumeParser.ScanKeepsSection | backend/utils/parser.js:45-53 | A stored section keeps its text while no later header names it. |
| ResumeParser.HeaderBlockGoesToSection | backend/utils/parser.js:33-62 | A header followed by non-header lines to the end stores exactly those lines, joined by '\n', under the header's section, on top of the block before it. |
| ResumeParser.ScanAtHeader | backend/utils/parser.js:45-53 | A header line stores the block before it and starts its own section with no content. |
| ResumeParser.BlockEnds | backend/utils/parser.js:45-62 | A block ending at the next header, or at the end, is stored whole under its section unless a later header names that section. |
| ResumeParser.BlockThenRest | backend/utils/parser.js:33-62 | A header block followed by lines whose headers never name its section is stored as its lines joined by '\n'. |
| ResumeParser.ScanStoresBlock | backend/utils/parser.js:33-62 | The same after any earlier lines. |
| ResumeParser.HeaderBlockInSections | backend/utils/parser.js:16-65 | In `extractTextSections`, a header block's section holds exactly the block's lines joined by '\n', unless a later header names that section. An earlier block for the same section is overwritten. |
| ResumeParser.EndAt | backend/utils/parser.js:100 | The end group matches four digits, 'present' or 'current' (any case), and is the text at that position. |
| ResumeParser.MatchAt | backend/utils/parser.js:100 | A match of the year-range pattern captures a four-digit start and a well-formed end, and consumes more than four characters. |
| ResumeParser.MatchesFrom | backend/utils/parser.js:100-101 | `matchAll` yields only well-formed ranges, and never more than there are characters left. |
| ResumeParser.CalculateExperienceYears | backend/utils/parser.js:99-121 | The result lies in 0..30. It is 0 when nothing matches, and otherwise the sum of the ranges' contributions (end − start when end ≥ start, else 0) capped at 30. |
| ResumeParser.NoDigitsNoRanges | backend/utils/parser.js:100-103 | A text without ASCII digits has no year range, so the result is 0. |
| ResumeParser.OngoingRangeCountsToNow | backend/utils/parser.js:108-117 | A range ending in 'present' or 'current' counts up to the current year, and nothing if it starts later. |
| MockPrompts.SplitLength | backend/utils/prompts.js:24 | Splitting on a character yields one more piece than the character's occurrences. |
| MockPrompts.WordCount | backend/utils/prompts.js:24 | The word count is one more than the number of spaces in the trimmed answer, so a blank answer counts as one word. |
| MockPrompts.UnclampedHalves | backend/utils/prompts.js:28-35 | The five rules add up to between 6 and 10 points (12 to 20 half-points); the length rule reads `answer.length` in UTF-16 code units. |
| MockPrompts.ScoreHalves | backend/utils/prompts.js:20-35 | The rule-by-rule additions of the source give exactly the five-rule sum. |
| MockPrompts.ClampNeverBinds | backend/utils/prompts.js:28-37 | The unclamped score always lies in [6, 10], so the clamp to [4, 10] never changes it. |
| MockPrompts.BaseScoreIff | backend/utils/prompts.js:28-37 | The score is the base 6 exactly when no rule fires. |
| MockPrompts.TopScoreIff | backend/utils/prompts.js:28-37 | The score is 10 exactly when every rule fires. |
| MockPrompts.HalfPointsSurviveRounding | backend/utils/prompts.js:50 | Rounding to one decimal leaves any multiple of 0.5 unchanged. |
| MockPrompts.PickIndex | backend/utils/prompts.js:47 | `Math.floor(Math.random() * n)` is a valid index of an n-element array. |
| MockPrompts.EvaluateInterviewAnswer | backend/utils/prompts.js:20-68 | The score is the clamped half-point sum of the five rules, so it lies in [6, 10]. The feedback is one of the five options, the one at `Math.floor(random * 5)`. Strengths, improvements and follow-up questions are the fixed three-element lists. |
| MockPrompts.SkillPhrase | backend/utils/prompts.js:8 | The phrase is the first two skills joined by ' and ', the single skill, or 'modern technologies' when skills are missing, empty or a single empty string. |
| MockPrompts.LeadSkill | backend/utils/prompts.js:9 | The phrase is the first skill, or 'technology' when it is missing or empty. |
| MockPrompts.GenerateInterviewQuestions | backend/utils/prompts.js:4-18 | There are always five questions. The first, fourth and fifth are fixed. The second is the skills sentence around the skill phrase and the third the trends question on the lead skill. |
| MockPrompts.DecimalString | backend/utils/prompts.js:174 | An integer prints as its decimal digits: at least one, only digits, no leading zero, and their value is the integer. |
| MockPrompts.RoleFit | backend/utils/prompts.js:74 | For a random value in [0, 1) the fit lies in [75, 94]. The comment on the line says 75-95%, but `Math.floor(Math.random() * 20) + 75` never reaches 95. |
| MockPrompts.FitAnalysis | backend/utils/prompts.js:174 | The fit analysis opens with the given sentence, then the fixed middle, the experience level and the closing words. |
| MockPrompts.Recommendations | backend/utils/prompts.js:85-92 | There are six recommendations. The first is the focus sentence on the top skill gap, in lower case, for the target role; the other five are the fixed advice. |
| MockPrompts.GenerateCareerAdvice | backend/utils/prompts.js:70-181 | The role fit is `Math.floor(random * 20) + 75`, so in [75, 94]. The skill gaps are the first four of the six. The fit analysis is the full text: "You have a N% match for ROLE roles." followed by the fixed middle, the experience level and the closing words. The recommendations are exactly the six of `Recommendations`. |
| InterviewService.SpaceRunEnd | backend-python/interview.py:46 | The greedy ` +` ends at the first non-space, and every character before it is a space. |
| InterviewService.SentencesFrom | backend-python/interview.py:46 | The split yields at least one piece. Every piece but the last ends in '.', '!' or '?'. No piece holds a place where the pattern matches. |
| InterviewService.SentencesFromJoin | backend-python/interview.py:46-47 | Joining the pieces from a point on with single spaces gives that part of the text with its break runs collapsed. |
| InterviewService.SentencesJoin | backend-python/interview.py:46-47 | Splitting and rejoining with single spaces equals `Collapse`, an independent definition that shortens every run of spaces after '.', '!' or '?' to one space. |
| InterviewService.ShortFeedbackKept | backend-python/interview.py:43-47 | Feedback with at most `max_sentences` pieces comes back whole, with break runs collapsed and ends stripped. |
| InterviewService.TruncationIsPrefix | backend-python/interview.py:46-47 | Before the final strip, truncation keeps a prefix of the collapsed text. |
| InterviewService.SentencesCount | backend-python/interview.py:46 | The split yields one piece more than there are places where the pattern matches. |
| InterviewService.JoinBreaks | backend-python/interview.py:47 | Joining n pieces that hold no place to split with single spaces creates at most n − 1 such places. |
| InterviewService.TruncationKeepsAtMost | backend-python/interview.py:43-47 | With a limit of at least one, the truncated feedback splits again into at most that many sentences. |
| InterviewService.CloseFrom | backend-python/interview.py:29 | The lazy `[\s\S]*?` stops at the first '}' followed by optional white space and a fence. |
| InterviewService.FencedFrom | backend-python/interview.py:29 | The search finds the leftmost start, then the shortest object, or reports that nothing matches from that point. |
| InterviewService.FencedSpan | backend-python/interview.py:29-31 | The fenced match is leftmost and then shortest, and is absent exactly when the pattern matches nowhere. |
| InterviewService.BraceSpan | backend-python/interview.py:34-35 | The greedy span runs from the first '{' to the last '}'. It exists exactly when some '{' comes before some '}'. |
| InterviewService.FencedObject | backend-python/interview.py:29-31 | The captured group starts with '{' and ends with '}'. |
| InterviewService.BracedText | backend-python/interview.py:34-35 | The brace span starts with '{' and ends with '}'. |
| InterviewService.JsonCandidate | backend-python/interview.py:27-36 | Whatever text is handed to `json.loads` starts with '{' and ends with '}'. |
| InterviewService.CandidateIffBracePair | backend-python/interview.py:29-36 | There is a candidate exactly when some '{' precedes some '}'. |
| InterviewService.FencePreferred | backend-python/interview.py:29-32 | Whenever the fenced pattern matches, its object is the candidate, even if a larger brace span exists. |
| InterviewService.ExtractJson | backend-python/interview.py:27-41 | The result is None without a brace pair. With one, it is exactly what `json.loads` gives for the candidate text. |
| InterviewService.FeedbackObject | backend-python/interview.py:74-81 | The fallback object has exactly the six keys: score is None, feedback is the given text and raw is the stripped reply. |
| InterviewService.EvaluationOf | backend-python/interview.py:66-81 | Without an object that has 'feedback', the result is the fallback. With one, only 'feedback' changes, to its truncation; a non-string feedback is the TypeError path. |
| InterviewService.EvaluationFromResponse | backend-python/interview.py:66-81 | A reply in which no '{' precedes a '}' is always read as feedback, whatever `json.loads` does. Any result carries a 'feedback' string that splits into at most three sentences. The only failure is a found object whose 'feedback' is not a string. |
| InterviewService.Clean | backend-python/interview.py:23 | `strip('- ').strip()` leaves no white space at either end. |
| InterviewService.StripTidy | backend-python/interview.py:23 | `.strip()` leaves no white space at either end. |
| InterviewService.CleanAddsNothing | backend-python/interview.py:23 | Cleaning adds no character. |
| InterviewService.CleanKeepsQuestionMark | backend-python/interview.py:23 | Cleaning keeps every '?'. |
| InterviewService.CleanKeeps | backend-python/interview.py:23-24 | A cleaned line contains '?' exactly when the raw line does, and nothing the raw line lacks. |
| InterviewService.BlankIffStripsToEmpty | backend-python/interview.py:23 | `if q.strip()` drops exactly the empty and all-white-space lines. |
| InterviewService.NonBlankLines | backend-python/interview.py:23 | The non-blank filter keeps only non-blank lines of the input. It is empty exactly when every line is blank. |
| InterviewService.QuestionLines | backend-python/interview.py:24 | The '?' filter keeps only lines of the input that contain '?', never more than there are. |
| InterviewService.NonBlankLinesComplete | backend-python/interview.py:23 | Every line that is not blank is kept. |
| InterviewService.QuestionLinesComplete | backend-python/interview.py:24 | Every line that contains '?' is kept. |
| InterviewService.Each | backend-python/interview.py:23 | The comprehension maps each element, keeping length and order. |
| InterviewService.CleanAll | backend-python/interview.py:23 | Every cleaned line is the cleaning of the line at the same position, and has no white space at either end. |
| InterviewService.QuestionsFromResponse | backend-python/interview.py:15-25 | Every question returned by `generate_questions` contains '?' and has no white space at either end. |
| InterviewService.FilterOrder | backend-python/interview.py:23-24 | Dropping blanks, cleaning, then keeping '?' lines equals keeping the '?' lines and cleaning them. |
| InterviewService.QuestionsAreQuestionLines | backend-python/interview.py:23-24 | `generate_questions` returns exactly the cleaned '?' lines of the stripped reply. |
| InterviewService.InterviewQuestionsFromResponse | backend-python/interview.py:156-164 | At most six questions. A parsed list is returned only when it has exactly six elements. Otherwise the result is the first six lines of the reply that contain '?' (all of them when fewer), each cleaned, in order. |
| InterviewService.IntroPart | backend-python/interview.py:210-213 | The intro is included exactly when one is given, non-empty, with no history. It is then the lead text, the intro and a newline. |
| InterviewService.NextQuestionFromResponse | backend-python/interview.py:231-232 | When every line is blank the default question comes back. Otherwise the cleaned non-blank lines come back, joined by '\n'. |
| InterviewService.NextQuestionLines | backend-python/interview.py:231-232 | With a non-blank line, splitting the reply on '\n' gives back the cleaned non-blank lines one by one. |
| InterviewModel.BlankTextIsTrimmedEmpty | src/pages/Interview.jsx:238 | `!x.trim()` holds exactly when every character is white space. |
| InterviewModel.Restored | src/pages/Interview.jsx:82-92 | Progress (started, or a non-empty history) means started with no intro prompt; otherwise the saved prompt flag is used, true when missing. Fields that are present are copied, and the stored results are kept. Missing fields default to false, '' and []. |
| InterviewModel.Persist | src/pages/Interview.jsx:155-160 | Every field is written, and saving and then restoring a consistent snapshot gives it back. |
| InterviewModel.Commit | src/pages/Interview.jsx:155-160 | The save effect changes only the stored entry. It writes nothing while restoring. When a dependency changed it writes exactly the nine fields; when none changed it writes nothing. |
| InterviewModel.Restore | src/pages/Interview.jsx:61-117 | With a résumé text, a stored snapshot is restored and the guard set. Otherwise, or when the entry does not parse, the entry is removed and only stored results are copied. Work, alerts, spinner and user name are untouched. |
| InterviewModel.NameUser | src/pages/Interview.jsx:54-59 | Only the user name changes, and nothing changes without a résumé text. |
| InterviewModel.MountNamesUser | src/pages/Interview.jsx:54-59 | After mounting, the user name is the first non-blank trimmed line of the résumé text, and is empty exactly when there is none. |
| InterviewModel.Mount | src/pages/Interview.jsx:54-117 | The corrected mount sets the restoring guard exactly when a snapshot and a résumé text are stored. Nothing is in flight, no alert is raised, and storage other than the entry is kept. |
| InterviewModel.MountAsWritten | src/pages/Interview.jsx:54-160 | As written, the mount differs from the corrected one only in the entry, which it always writes: the default snapshot while restoring, and otherwise the page's snapshot. |
| InterviewModel.MountRestores | src/pages/Interview.jsx:71-105 | With a snapshot and a résumé text the snapshot is restored, the guard set and storage kept. |
| InterviewModel.MountDiscards | src/pages/Interview.jsx:106-113 | The corrected mount: without both a stored snapshot and a résumé text nothing is restored and the entry is removed. It is written again only when stored results changed the snapshot. |
| InterviewModel.MountAsWrittenDiscards | src/pages/Interview.jsx:155-160 | As written, the same mount restores the same nothing but always leaves an entry: the default snapshot, with any stored results. |
| InterviewModel.MountAsWrittenOverwrites | src/pages/Interview.jsx:155-160 | As written, mounting overwrites a restorable entry with the default snapshot; the corrected mount keeps it. |
| InterviewModel.RoundHalfUp | src/pages/Interview.jsx:438 | `Math.round` gives the integer within half of x, halves going up. |
| InterviewModel.SumScores | src/pages/Interview.jsx:438 | The sum is a number exactly when every turn has a score. |
| InterviewModel.AverageAsWritten | src/pages/Interview.jsx:453-455 | The average is 0 for no turns, and NaN exactly when some turn lacks a score. |
| InterviewModel.UnscoredTurnMakesNaN | src/pages/Interview.jsx:453-455 | One unscored turn makes the average NaN. |
| InterviewModel.Scores | src/pages/Interview.jsx:438 | The scores that arrived are at most one per turn, and one per turn when all arrived. |
| InterviewModel.SumScoresIsSum | src/pages/Interview.jsx:438 | With every turn scored, the reduce equals the sum of the scores. |
| InterviewModel.AverageAgrees | src/pages/Interview.jsx:453-455 | Where every turn is scored, the corrected average equals the source's. |
| InterviewModel.AverageWithin | src/pages/Interview.jsx:453-455 | With every score in [lo, hi] (lo ≤ 0 ≤ hi, covering the 0 for no score) the corrected average is an integer in [lo, hi]. |
| InterviewModel.FeedbacksSelect | src/pages/Interview.jsx:411-412 | The filter keeps exactly the contents of the bot messages that are not typing and differ from the current question, each once and in order. |
| InterviewModel.InterviewData | src/pages/Interview.jsx:411-417 | Entry i pairs the i-th kept bot message with turn i, and with undefined past the history's end. |
| InterviewModel.CurrentQuestionNotReported | src/pages/Interview.jsx:411-417 | A final bot message equal to the current question is not reported. |
| InterviewModel.ReplaceById | src/pages/Interview.jsx:285-287 | Only messages with the id change, and only their content and typing flag; the length is kept. |
| InterviewModel.SetLastScore | src/pages/Interview.jsx:279-281 | Only the last turn changes, and only its score. |
| InterviewModel.ScreenOf | src/pages/Interview.jsx:631-691 | The intro screen shows exactly while the prompt flag is set, and the chat exactly in a started, uncompleted interview with no spinner. The completed screen shows only for a completed interview. |
| InterviewModel.StartCore | src/pages/Interview.jsx:213-222 | Without a résumé text only an alert is raised. Otherwise the interview starts with empty history and messages, and the first question is requested. |
| InterviewModel.SubmitIntro | src/pages/Interview.jsx:478-482 | A blank introduction changes nothing. Otherwise the prompt closes and `startInterview` runs: with a résumé text the interview starts with an empty history and the first question is requested; without one only the alert is raised. |
| InterviewModel.FailureAlert | src/pages/Interview.jsx:200-207 | 429 gives the quota alert. Otherwise the body's error text, or else the backend alert. |
| InterviewModel.ShowQuestion | src/pages/Interview.jsx:184-196 | The first question is set, appended as a bot message, and an answer is awaited. |
| InterviewModel.QuestionAlert | src/pages/Interview.jsx:197-210 | A missing question or a failure changes no saved field and only adds the alert. |
| InterviewModel.QuestionArrives | src/pages/Interview.jsx:184-210 | Either the question is shown and awaited, or exactly one alert is raised and nothing saved changes. The spinner stops either way. |
| InterviewModel.BeginRound | src/pages/Interview.jsx:239-266 | Waiting stops. The messages gain exactly the user message and then a typing placeholder. The history gains exactly the turn {currentQuestion, answer} at its end. |
| InterviewModel.SubmitAnswer | src/pages/Interview.jsx:237-266 | A blank answer changes nothing. Otherwise one turn is appended, waiting stops and a typed round is in flight. |
| InterviewModel.AutoSubmit | src/pages/Interview.jsx:311-354 | The corrected speech path reads the live page. A blank transcript, no awaited answer or an evaluation in progress changes nothing. Otherwise the transcript becomes the answer, one turn is appended to the page's history and a speech round is in flight. |
| InterviewModel.AutoHistoryAsWritten | src/pages/Interview.jsx:311-354 | As written, the guard and the new history read the render of the microphone click. The guard returns exactly on a blank transcript, no awaited answer or an evaluation in progress. Otherwise the history set is the captured one plus the transcript's turn. |
| InterviewModel.StaleGuardOnlyRejectsBlank | src/pages/Interview.jsx:311-312 | With the microphone enabled at the click, the captured guard turns away only a blank transcript, whatever happened since. |
| InterviewModel.StaleTranscriptDropsScore | src/pages/Interview.jsx:273-283 | A score that lands while the answer is recorded is missing from the history as written, and kept by the corrected path. |
| InterviewModel.StaleTranscriptStartsSecondRound | src/pages/Interview.jsx:147-152 | After a typed answer sent during recording, the transcript as written passes the guard and replaces the typed turn; the corrected path ignores it. |
| InterviewModel.ShownQuestion | src/pages/Interview.jsx:272 | The shown question is never empty, and is the reply when it has one. |
| InterviewModel.NextQuestionArrives | src/pages/Interview.jsx:268-308 | The evaluation goes out and the reveal timer starts. The saved fields and storage are unchanged. The `finally` clears the answer and the evaluating flag. |
| InterviewModel.NextQuestionFails | src/pages/Interview.jsx:300-308 | Only the placeholder with the round's id becomes 'Error getting next question.'. No answer is awaited. |
| InterviewModel.NextQuestionFailsAsWritten | src/pages/Interview.jsx:394-398 | As written, the speech path's failure crashes the page; the typed path is the corrected transition. |
| InterviewModel.SpeechFailureCrashes | src/pages/Interview.jsx:394-398 | The speech path crashes where the corrected transition shows the error in the placeholder. |
| InterviewModel.Reveal | src/pages/Interview.jsx:284-287 | Only the placeholder with the round's id shows the next question. |
| InterviewModel.AskNext | src/pages/Interview.jsx:288-293 | The next question becomes current, an answer is awaited and the answer is cleared. |
| InterviewModel.Finish | src/pages/Interview.jsx:294-297 | The interview is completed and the report request is built from the round's history. |
| InterviewModel.Advance | src/pages/Interview.jsx:288-298 | Below six turns the next question is asked. At six the interview completes. |
| InterviewModel.ScoreArrives | src/pages/Interview.jsx:273-283 | A numeric score goes onto the last turn only. A missing one changes nothing but the count of pending evaluations. |
| InterviewModel.ReportArrives | src/pages/Interview.jsx:408-430 | Success stores the report and leaves for /report. Failure adds the alert. The spinner stops either way. |
| InterviewModel.RestoreTimer | src/pages/Interview.jsx:103-105 | Clearing the guard saves the current snapshot. |
| InterviewModel.Clear | src/pages/Interview.jsx:224-235 | Every saved field returns to its initial value. The entry is removed, and re-written with the defaults unless restoring. |
| InterviewModel.GoToReport | src/pages/Interview.jsx:436-451 | The stored results hold the history, its length and the corrected average. |
| InterviewModel.SavedStateRestores | src/pages/Interview.jsx:457-475 | Any valid page's saved fields restore unchanged. |
| InterviewModel.MountEstablishes | src/pages/Interview.jsx:61-117 | Mounting from storage the page wrote gives a page satisfying the invariant. |
| InterviewModel.IntroKeepsInv | src/pages/Interview.jsx:478-482 | Editing or submitting the introduction keeps the invariant. |
| InterviewModel.StartKeepsInv | src/pages/Interview.jsx:213-222 | Starting keeps the invariant. |
| InterviewModel.QuestionKeepsInv | src/pages/Interview.jsx:184-210 | The first question's reply keeps the invariant. |
| InterviewModel.SubmitKeepsInv | src/pages/Interview.jsx:237-266 | A typed submission keeps the invariant. |
| InterviewModel.AutoKeepsInv | src/pages/Interview.jsx:311-354 | A speech submission on the corrected path keeps the invariant. |
| InterviewModel.NextKeepsInv | src/pages/Interview.jsx:267-308 | The next-question reply, or its failure, keeps the invariant. |
| InterviewModel.TimersKeepInv | src/pages/Interview.jsx:284-298 | The reveal, advance and restore timers keep the invariant. |
| InterviewModel.ResponsesKeepInv | src/pages/Interview.jsx:273-283 | Evaluation and report replies keep the invariant. |
| InterviewModel.CompletedKeepsInv | src/pages/Interview.jsx:224-235 | Clearing and going to the report keep the invariant. |
| InterviewModel.StepKeepsInv | src/pages/Interview.jsx:289-297 | Every event keeps the invariant: at most six turns, an answer awaited only below six, at most one submission in flight (transcripts on the corrected path). |
| InterviewModel.RunKeepsInv | src/pages/Interview.jsx:289-297 | Every sequence of events keeps the invariant. |
| InterviewModel.QuotaHolds | src/pages/Interview.jsx:289-297 | From storage the page wrote, no sequence of events reaches a seventh turn or awaits an answer at six, and the storage left behind is again storage the page wrote. |
| InterviewModel.StepBlob | src/pages/Interview.jsx:155-160 | Every event leaves the storage entry as it was, removes it, or writes the page's own saved fields. |
| InterviewModel.StepKeepsStoreValid | src/pages/Interview.jsx:155-160 | From a valid page and storage it wrote, every event leaves storage whose snapshot restores to valid saved fields. |
| InterviewModel.RunKeepsStoreValid | src/pages/Interview.jsx:155-160 | The same for every sequence of events. |
| InterviewModel.MountKeepsStoreValid | src/pages/Interview.jsx:61-117 | Mounting from such storage leaves such storage. |
| InterviewModel.ReloadsKeepQuota | src/pages/Interview.jsx:61-117 | After any number of visits, each mounting from the storage the previous one left, no page reaches a seventh turn or awaits an answer at six. |
| InterviewModel.SubmitAppends | src/pages/Interview.jsx:262-266 | A typed submission only appends to the history. |
| InterviewModel.AutoAppends | src/pages/Interview.jsx:350-354 | A speech submission on the corrected path only appends to the history. |
| InterviewModel.ScoreOnlyOnLast | src/pages/Interview.jsx:278-281 | A score only sets the last turn's score. |
| InterviewModel.HistoryKeptBeforeRounds | src/pages/Interview.jsx:213-222 | Intro, start, first-question and editing events keep the history, or empty it at the start. |
| InterviewModel.HistoryKeptByRounds | src/pages/Interview.jsx:284-303 | The continuations of a round do not change the history. |
| InterviewModel.HistoryKeptAtEnd | src/pages/Interview.jsx:224-235 | Report, restore timer, clear and view-report events keep the history or empty it. |
| InterviewModel.HistoryAppendOnly | src/pages/Interview.jsx:262-281 | Every event keeps, empties or appends exactly one turn to the history, or only sets its last score (transcripts on the corrected path). |
| InterviewModel.IntroKeepsGuard | src/pages/Interview.jsx:155-160 | While restoring, intro and start events write nothing. |
| InterviewModel.ChatKeepsGuard | src/pages/Interview.jsx:155-160 | While restoring, chat events write nothing. |
| InterviewModel.NextKeepsGuard | src/pages/Interview.jsx:155-160 | While restoring, the next-question reply writes nothing. |
| InterviewModel.ScoreKeepsGuard | src/pages/Interview.jsx:155-160 | While restoring, a score writes nothing. |
| InterviewModel.TimersKeepGuard | src/pages/Interview.jsx:155-160 | While restoring, the round's timers write nothing. |
| InterviewModel.EndKeepsGuard | src/pages/Interview.jsx:155-160 | While restoring, report and clear events write nothing, except that clearing removes the entry. |
| InterviewModel.NothingSavedWhileRestoring | src/pages/Interview.jsx:155-160 | No event but the restore timer clears the guard, and none writes the entry while it is set (clearing still removes it). |
| InterviewPageObject.InterviewPage.constructor | src/pages/Interview.jsx:23-117 | The first render, then the user-name, restore and save effects, give the corrected mount. |
| InterviewPageObject.InterviewPage.NameEffect | src/pages/Interview.jsx:54-59 | The fields become `NameUser` of the old state. |
| InterviewPageObject.InterviewPage.RestoreEffect | src/pages/Interview.jsx:61-117 | The fields become `Restore` of the old state. |
| InterviewPageObject.InterviewPage.SaveEffect | src/pages/Interview.jsx:155-160 | The fields become `Commit` of the old state. |
| InterviewPageObject.InterviewPage.EditIntro | src/pages/Interview.jsx:646 | The fields become `EditIntro` of the old state. |
| InterviewPageObject.InterviewPage.StartUpdates | src/pages/Interview.jsx:213-222 | The fields become `StartCore` of the old state. |
| InterviewPageObject.InterviewPage.StartInterview | src/pages/Interview.jsx:213-222 | The fields become `Start` of the old state. |
| InterviewPageObject.InterviewPage.HandleIntroSubmit | src/pages/Interview.jsx:478-482 | The fields become `SubmitIntro` of the old state. |
| InterviewPageObject.InterviewPage.ShowFirstQuestion | src/pages/Interview.jsx:184-196 | The fields become `ShowQuestion` of the old state. |
| InterviewPageObject.InterviewPage.RaiseQuestionAlert | src/pages/Interview.jsx:197-210 | The fields become `QuestionAlert` of the old state. |
| InterviewPageObject.InterviewPage.ReceiveQuestion | src/pages/Interview.jsx:184-210 | The fields become `QuestionArrives` of the old state. |
| InterviewPageObject.InterviewPage.EditAnswer | src/pages/Interview.jsx:800 | Only the answer changes. |
| InterviewPageObject.InterviewPage.BeginRoundUpdates | src/pages/Interview.jsx:239-266 | The fields become `BeginRound` of the old state. |
| InterviewPageObject.InterviewPage.SubmitAnswer | src/pages/Interview.jsx:237-266 | The fields become `SubmitAnswer` of the old state. |
| InterviewPageObject.InterviewPage.PressEnter | src/pages/Interview.jsx:801-806 | The fields become `PressEnter` of the old state (the Enter guard). |
| InterviewPageObject.InterviewPage.ClickSend | src/pages/Interview.jsx:836-838 | The fields become `ClickSend` of the old state (the Send button's guard). |
| InterviewPageObject.InterviewPage.AutoSubmitAnswer | src/pages/Interview.jsx:311-354 | The fields become `AutoSubmit` of the old state (the corrected speech path). |
| InterviewPageObject.InterviewPage.SettleUpdates | src/pages/Interview.jsx:304-308 | The fields become `Settle` of the old state. |
| InterviewPageObject.InterviewPage.ReceiveNextQuestion | src/pages/Interview.jsx:268-284 | The fields become `NextQuestionArrives` of the old state. |
| InterviewPageObject.InterviewPage.NextQuestionFailed | src/pages/Interview.jsx:300-308 | The fields become `NextQuestionFails` of the old state. |
| InterviewPageObject.InterviewPage.RevealNextQuestion | src/pages/Interview.jsx:284-287 | The fields become `Reveal` of the old state. |
| InterviewPageObject.InterviewPage.AskNextQuestion | src/pages/Interview.jsx:288-293 | The fields become `AskNext` of the old state. |
| InterviewPageObject.InterviewPage.FinishInterview | src/pages/Interview.jsx:294-297 | The fields become `Finish` of the old state. |
| InterviewPageObject.InterviewPage.AdvanceAfterReveal | src/pages/Interview.jsx:288-298 | The fields become `Advance` of the old state. |
| InterviewPageObject.InterviewPage.ReceiveScore | src/pages/Interview.jsx:273-283 | The fields become `ScoreArrives` of the old state. |
| InterviewPageObject.InterviewPage.ReceiveReport | src/pages/Interview.jsx:418-429 | The fields become `ReportArrives` of the old state. |
| InterviewPageObject.InterviewPage.EndRestoring | src/pages/Interview.jsx:103-105 | The fields become `RestoreTimer` of the old state. |
| InterviewPageObject.InterviewPage.ClearInterviewState | src/pages/Interview.jsx:224-235 | The fields become `Clear` of the old state. |
| InterviewPageObject.InterviewPage.GoToReport | src/pages/Interview.jsx:436-451 | The fields become `GoToReport` of the old state. |

## Left out

- LLM and HTTP calls are parameters: model replies, axios responses, Gemini, and `json.loads` (`parseObject`, `parse`). What `json.loads` accepts is not modelled; only where its input comes from is.
- Timers and asynchronous ordering:
  - The 1000, 1200 and 1500 ms timers are events enabled while pending.
  - The 500 ms wait of `autoSubmitAnswer` is taken as immediate, so a render in that window is not modelled. In the source that window breaks the six-turn limit. During it `waitingForAnswer` is still true and `isEvaluating` still false (src/pages/Interview.jsx:317-323), and the Enter guard (804) does not test `isAutoSubmitting`. So Enter at four turns starts a typed round of five turns, and the timer then starts a second round without checking again. This is the same break as the second src/pages/Interview.jsx:311-354 Findings row.
  - The race between the evaluation reply and the reveal and advance timers is covered, because the events may come in any order; real time is not.
- Message timestamps and `Date.now() + Math.random()` ids: ids are parameters and timestamps are left out. So is `new Date().toISOString()` for `completedAt`.
- Browser media are device I/O: recording, speech recognition, speech synthesis, scrolling and focus (src/pages/Interview.jsx:50-52, 119-152, 485-629). Their only effect on the state is the transcript event.
- JSX rendering: only the screen choice (src/pages/Interview.jsx:631-691) and the two input guards (804, 838) are modelled.
- The effect that hides the intro prompt once started (src/pages/Interview.jsx:162-168) is not a separate transition. The invariant proves it never fires on reachable pages.
- `atsScore` and the `setAtsScore`/`setResumeText` re-reads at mount are not used by the modelled logic.
- The restored `interviewResults` state variable is not read by any modelled handler.
- The no-résumé branch of `fetchNextQuestion` (src/pages/Interview.jsx:171-175) is unreachable after `startInterview`'s own check, which is modelled.
- Snapshots that parse to something other than an object: `Persisted` holds only well-typed fields or missing ones.
- The `interviewResults` object restored by `JSON.parse` is taken as well-typed.
- `parsePDF`, `extractContactInfo` and `extractDates` (backend/utils/parser.js:3-14, 67-97): PDF parsing and regex-engine semantics.
- Unicode: JavaScript `length` is counted in UTF-16 code units. `toLowerCase` is ASCII case folding. White space is the ASCII and common Unicode spaces the model lists. The regex `i` flag is ASCII only.
- InterviewModel.AutoSubmit: models the corrected speech path, which reads the live page and takes the 500 ms wait and the submission as one atomic step. The source reads the render of the microphone click (see Findings), and other events can come inside the wait. `isRecording` and `isProcessing` are not modelled, so the transcript event may come at any time.
- InterviewModel.AutoAppends: holds of the corrected speech path only. As written, a transcript can drop a score or replace a typed turn (see Findings).
- InterviewModel.AutoKeepsInv: holds of the corrected speech path only. As written, a transcript can start a second round while one is in flight.
- InterviewModel.StepKeepsInv: its transcript case is the corrected speech path.
- InterviewModel.RunKeepsInv: its transcript events are the corrected speech path.
- InterviewModel.HistoryAppendOnly: its transcript case is the corrected speech path.
- InterviewModel.QuotaHolds: its transcript events are the corrected speech path. As written the quota is not established: a stale transcript's second round can set `waitingForAnswer` at six turns (see Findings).
- InterviewModel.StepKeepsStoreValid: its transcript case is the corrected speech path. As written, a stale transcript's second round can await an answer at six turns, and the save effect stores that snapshot, which is not valid (see Findings).
- InterviewModel.RunKeepsStoreValid: its transcript events are the corrected speech path. As written, the stored snapshot can stop being valid, as for StepKeepsStoreValid.
- InterviewModel.ReloadsKeepQuota: its transcript events are the corrected speech path. As written the quota fails, and the invalid snapshot is stored and restored on reload (see Findings).
- InterviewPageObject.InterviewPage.AutoSubmitAnswer: updates the fields as the corrected speech path does, from the live fields.
- MockPrompts.GenerateCareerAdvice: `learningResources`, `careerPath` and `salaryInsights` are constant literals and are not modelled.
- `createResumeAnalysisPrompt`, `createInterviewQuestionPrompt` and `createAnswerEvaluationPrompt` (backend/utils/prompts.js:184-234) are prompt templates that nothing in the core calls.
- The prompt texts of backend-python/interview.py, `init_cv_question_stream`, `stream_next_cv_question`, `reformulate_question` and `generate_final_report` are LLM wrappers. Of them only `intro_part` is modelled.
- The `print` calls in backend-python/interview.py.
- backend-python/report.py, utils.py, career.py and test.py; backend/index.js and pdfWriter.js; src/config.js and src/App.tsx are not part of this model.

## Findings

| source | as written | input that shows it | evidently intended | confidence | as-written member | corrected member |
|---|---|---|---|---|---|---|
| src/pages/Interview.jsx:155-160 | The save effect runs in the same commit as the restore effect and still sees the first render's values. On every mount it writes the default snapshot, here over the entry just read. The correction drops this first-run write. | A stored snapshot with `interviewStarted: true` and a stored résumé text: during the one-second restore window the entry holds `interviewStarted: false`. | Mounting keeps the stored entry until the restored values are saved. | not executed | InterviewModel.MountAsWrittenOverwrites | InterviewModel.MountRestores |
| src/pages/Interview.jsx:155-160 | With nothing to restore, the save effect's first run still writes the default snapshot, so an entry is left where the restore effect removed it. | No stored résumé text and no stored results. | Mounting with nothing to restore leaves no entry. | not executed | InterviewModel.MountAsWrittenDiscards | InterviewModel.MountDiscards |
| src/pages/Interview.jsx:311-354 | The recorder's callbacks are built in the render of the microphone click. `autoSubmitAnswer` checks that render's `waitingForAnswer` and `isEvaluating`, and sets that render's history plus the new turn. | A score arrives for the previous turn while the next answer is recorded: the history set has that turn unscored. | The new turn is appended to the page's current history. | not executed | InterviewModel.StaleTranscriptDropsScore | InterviewModel.AutoSubmit |
| src/pages/Interview.jsx:311-354 | The captured guard still passes after the page has moved on. | The user types an answer and presses Enter while recording; stopping the recorder yields a transcript, which starts a second round and replaces the typed turn. The quota then fails too. Say the recording starts at four turns and the typed answer makes five. The transcript's round also has five turns, counted from the captured four. The typed round reveals its question and the user answers: six turns. The transcript round's advance timer then tests its own five-turn history (src/pages/Interview.jsx:382-390) and awaits an answer at six turns. | A transcript is ignored once an answer was submitted. | not executed | InterviewModel.StaleTranscriptStartsSecondRound | InterviewModel.AutoKeepsInv |
| src/pages/Interview.jsx:394-398 | The `catch` block of the speech path reads `typingId`, which is declared with `const` inside the `try` block. The updater throws a ReferenceError when React applies it. | A speech answer whose next-question request fails. | As on the typed path, the placeholder reads 'Error getting next question.'. | not executed | InterviewModel.SpeechFailureCrashes | InterviewModel.NextQuestionFails |
| src/pages/Interview.jsx:437-439 | `averageScore` adds `answer.score` over all turns, but a turn whose evaluation failed or has not arrived has no score, so the sum is NaN. | Two turns, only the first scored. | The average over the scored turns, 0 when none is scored. | not executed | InterviewModel.UnscoredTurnMakesNaN | InterviewModel.AverageWithin |
