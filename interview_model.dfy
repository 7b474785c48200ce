/**
 * The interview page of src/pages/Interview.jsx as a state machine over
 * values. A `Session` holds the page's state variables, the sessionStorage
 * entries the page reads and writes, and the work it has left pending
 * (requests in flight, timers). Every handler, every response and every timer
 * is a transition; the effect that saves the snapshot runs at the end of each
 * transition (`Commit`). The class in interview_page.dfy performs the same
 * transitions step by step.
 */
module InterviewModel {
  import opened Wrappers
  import opened Text
  import ResumeParser

  // ---------------------------------------------------------------------------
  // Entities
  // ---------------------------------------------------------------------------

  datatype Role = Bot | User

  /** A chat bubble; `id` is the number the page derives from the clock. */
  datatype Message = Message(id: int, role: Role, content: string, isTyping: bool)

  /** One answered question; `score` is set when the evaluation returns a number. */
  datatype Turn = Turn(question: string, answer: string, score: Option<real>)

  datatype Results = Results(answers: seq<Turn>, averageScore: int, totalQuestions: nat,
                             completedAt: string, duration: string)

  /** The nine fields the page saves under 'interviewState'. */
  datatype Snapshot = Snapshot(
    showIntroPrompt: bool,
    interviewStarted: bool,
    interviewCompleted: bool,
    userIntro: string,
    currentQuestion: string,
    chatHistory: seq<Turn>,
    chatMessages: seq<Message>,
    waitingForAnswer: bool,
    interviewResults: Option<Results>)

  /** A parsed 'interviewState' entry: any field may be missing (`None`). */
  datatype Persisted = Persisted(
    showIntroPrompt: Option<bool>,
    interviewStarted: Option<bool>,
    interviewCompleted: Option<bool>,
    userIntro: Option<string>,
    currentQuestion: Option<string>,
    chatHistory: Option<seq<Turn>>,
    chatMessages: Option<seq<Message>>,
    waitingForAnswer: Option<bool>,
    interviewResults: Option<Results>)

  /** The 'interviewState' entry of sessionStorage. */
  datatype Blob = NoBlob | Unparsable | Stored(state: Persisted)

  /** A failed request: no response at all, or an HTTP error whose body's
    * `error` field is `error` ("" when it is missing). */
  datatype Failure = NoResponse | HttpError(status: int, error: string)

  /** The reply to the first next-question request; "" stands for a missing question. */
  datatype QuestionReply = QuestionOk(question: string) | QuestionFailed(failure: Failure)

  /** The reply to a next-question request made after an answer. */
  datatype NextReply = NextOk(nextQuestion: string) | NextFailed

  datatype ReportReply = ReportOk(report: string) | ReportFailed

  /** One element of the report request's `interviewData`; `None` stands for
    * `undefined`. */
  datatype ReportEntry = ReportEntry(question: Option<string>, answer: Option<string>, feedback: string)

  datatype ReportRequest = ReportRequest(interviewData: seq<ReportEntry>, userName: string, resumeText: string)

  /** What one submission's continuations see: the placeholder's id, the new
    * history, whether it came from speech, and the messages and question of
    * the render in which it was submitted. */
  datatype Round = Round(typingId: int, newHistory: seq<Turn>, auto: bool,
                         staleMessages: seq<Message>, staleQuestion: string)

  /** The stage of the submission in flight: the next-question request, the
    * 1200 ms timer that reveals the question, the 1500 ms timer that moves on. */
  datatype Pending =
    | Idle
    | AwaitingNext(round: Round)
    | AwaitingReveal(round: Round, nextQ: string)
    | AwaitingAdvance(round: Round, nextQ: string)

  /** The sessionStorage entries the page reads and writes; an empty
    * `resumeText` stands for a missing entry. */
  datatype Store = Store(resumeText: string, blob: Blob, results: Option<Results>, report: Option<string>)

  /** Work in flight: the first question's request, the submission's
    * continuations, the evaluation requests not yet answered, and the report
    * request. */
  datatype Work = Work(questionPending: bool, pending: Pending, evaluations: nat,
                       reportPending: Option<ReportRequest>)

  /** The page: storage, the nine saved state variables, the other state
    * variables, the work in flight, what the user saw (alert dialogs, and
    * whether the page went to /report), and the user name taken from the
    * résumé text. */
  datatype Session = Session(
    store: Store,
    saved: Snapshot,
    userAnswer: string,
    isEvaluating: bool,
    isAutoSubmitting: bool,
    isRestoring: bool,
    loading: bool,
    work: Work,
    alerts: seq<string>,
    navigated: bool,
    userName: string)

  const MaxTurns := 6

  /** Text that JavaScript's `trim()` empties: all of it is white space. */
  predicate BlankText(x: string) {
    All(x, IsJsSpace)
  }

  lemma BlankTextIsTrimmedEmpty(x: string)
    ensures BlankText(x) <==> JsTrim(x) == ""
  {
  }

  const NoResumeAlert := "Please upload and analyze your resume before starting the interview."
  const NoQuestionAlert := "Failed to generate next question."
  const QuotaAlert := "Gemini API quota exceeded. Please try again later or upgrade your plan."
  const BackendAlert := "Error connecting to the backend. Please try again later."
  const ReportAlert := "Error generating report."
  const NoNextQuestion := "No next question."
  const NextQuestionError := "Error getting next question."
  const Duration := "15-20 minutes"

  // ---------------------------------------------------------------------------
  // Snapshot, save and restore
  // ---------------------------------------------------------------------------

  /** `JSON.stringify` of a snapshot: every field present, so that restoring
    * a consistent snapshot gives it back. */
  function Persist(sn: Snapshot): (p: Persisted)
    ensures p.chatHistory.Some? && p.chatMessages.Some? && p.interviewResults == sn.interviewResults
    ensures Consistent(sn) ==> Restored(p) == sn
  {
    Persisted(Some(sn.showIntroPrompt), Some(sn.interviewStarted), Some(sn.interviewCompleted),
              Some(sn.userIntro), Some(sn.currentQuestion), Some(sn.chatHistory),
              Some(sn.chatMessages), Some(sn.waitingForAnswer), sn.interviewResults)
  }

  /** The values the restore effect sets from a parsed snapshot. Progress (a
    * started flag or a non-empty history) means started and no intro prompt;
    * without it the saved prompt flag is used, `true` when missing. A field
    * that is present is copied; every other missing field takes its empty
    * default. */
  function Restored(p: Persisted): (sn: Snapshot)
    ensures var progress := p.interviewStarted == Some(true) || (p.chatHistory.Some? && |p.chatHistory.value| > 0);
      sn.interviewStarted == progress
      && sn.showIntroPrompt == (if progress then false else p.showIntroPrompt != Some(false))
    ensures sn.interviewCompleted == (p.interviewCompleted == Some(true))
    ensures sn.waitingForAnswer == (p.waitingForAnswer == Some(true))
    ensures p.chatHistory.None? ==> sn.chatHistory == []
    ensures p.chatMessages.None? ==> sn.chatMessages == []
    ensures p.userIntro.None? ==> sn.userIntro == ""
    ensures p.currentQuestion.None? ==> sn.currentQuestion == ""
    ensures p.chatHistory.Some? ==> sn.chatHistory == p.chatHistory.value
    ensures p.chatMessages.Some? ==> sn.chatMessages == p.chatMessages.value
    ensures p.userIntro.Some? ==> sn.userIntro == p.userIntro.value
    ensures p.currentQuestion.Some? ==> sn.currentQuestion == p.currentQuestion.value
    ensures sn.interviewResults == p.interviewResults
  {
    var history := p.chatHistory.GetOr([]);
    var progress := p.interviewStarted.GetOr(false) || |history| > 0;
    Snapshot(
      if progress then false else p.showIntroPrompt.GetOr(true),
      progress,
      p.interviewCompleted.GetOr(false),
      p.userIntro.GetOr(""),
      p.currentQuestion.GetOr(""),
      history,
      p.chatMessages.GetOr([]),
      p.waitingForAnswer.GetOr(false),
      p.interviewResults)
  }

  /** A snapshot the page can have saved: restoring it changes nothing. */
  predicate Consistent(sn: Snapshot) {
    (sn.showIntroPrompt ==> !sn.interviewStarted)
    && (|sn.chatHistory| > 0 ==> sn.interviewStarted)
  }

  /** The save effect after a transition from `before` to `after`. It runs when
    * one of its dependencies changed: a saved field by value, `isRestoring`,
    * or (`replaced`) a history or message list replaced by a new array. It
    * writes nothing while `isRestoring` is set, and otherwise writes exactly
    * the nine saved fields. Nothing else changes. */
  function Commit(before: Session, after: Session, replaced: bool): (t: Session)
    ensures t == after.(store := t.store) && t.store == after.store.(blob := t.store.blob)
    ensures after.isRestoring ==> t.store.blob == after.store.blob
    ensures !after.isRestoring && (replaced || after.saved != before.saved || before.isRestoring) ==>
      t.store.blob == Stored(Persist(after.saved))
    ensures !replaced && after.saved == before.saved && before.isRestoring == after.isRestoring ==>
      t.store.blob == after.store.blob
  {
    if !after.isRestoring && (replaced || after.saved != before.saved || before.isRestoring != after.isRestoring) then
      after.(store := after.store.(blob := Stored(Persist(after.saved))))
    else after
  }

  /** The saved fields at their `useState` values. */
  const Cleared := Snapshot(true, false, false, "", "", [], [], false, None)

  /** The first render: every state variable at its `useState` value. */
  function Initial(st: Store): Session {
    Session(st, Cleared, "", false, false, false, false, Work(false, Idle, 0, None), [], false, "")
  }

  /** The restore effect. It copies 'interviewResults' from storage. A stored
    * snapshot is restored only when a résumé text is stored, and then the
    * restoring guard is set until its timer fires; without a résumé text, or
    * when the entry does not parse, the entry is removed and nothing is
    * restored. */
  function Restore(s: Session): (t: Session)
    ensures s.store.blob.Stored? && s.store.resumeText != "" ==>
      t.saved == Restored(s.store.blob.state) && t.isRestoring && t.store == s.store
    ensures !(s.store.blob.Stored? && s.store.resumeText != "") ==>
      t.store == s.store.(blob := NoBlob) && t.isRestoring == s.isRestoring
      && t.saved == s.saved.(interviewResults := if s.store.results.Some? then s.store.results else s.saved.interviewResults)
    ensures t.work == s.work && t.alerts == s.alerts && t.loading == s.loading && t.userName == s.userName
  {
    var s1 := if s.store.results.Some? then s.(saved := s.saved.(interviewResults := s.store.results)) else s;
    match s1.store.blob
    case NoBlob => s1
    case Unparsable => s1.(store := s1.store.(blob := NoBlob))
    case Stored(p) =>
      if s1.store.resumeText == "" then s1.(store := s1.store.(blob := NoBlob))
      else s1.(saved := Restored(p), isRestoring := true)
  }

  /** The `userName` effect, which runs before the restore effect: the first
    * non-blank trimmed line of a stored résumé text becomes the user name. */
  function NameUser(s: Session): (t: Session)
    ensures t == s.(userName := t.userName)
    ensures s.store.resumeText == "" ==> t.userName == s.userName
  {
    if s.store.resumeText != "" then
      var lines := ResumeParser.Lines(s.store.resumeText);
      if |lines| > 0 then s.(userName := lines[0]) else s
    else s
  }

  /** The page as mounted, without the save effect's first run (see
    * `MountAsWritten`). */
  function Mount(st: Store): (s: Session)
    ensures s.isRestoring <==> st.blob.Stored? && st.resumeText != ""
    ensures s.work == Initial(st).work && s.alerts == [] && !s.loading && !s.navigated
    ensures s.store.resumeText == st.resumeText && s.store.results == st.results && s.store.report == st.report
  {
    Commit(Initial(st), Restore(NameUser(Initial(st))), false)
  }

  /** The page as mounted by the source: the save effect's first run happens
    * in the same commit as the restore effect, after it, and still sees the
    * first render's values, so it writes the default snapshot over the entry
    * the restore effect has just read. */
  function MountAsWritten(st: Store): (s: Session)
    ensures s == Mount(st).(store := s.store)
    ensures s.store == st.(blob := s.store.blob)
    ensures s.store.blob == Stored(Persist(if s.isRestoring then Cleared else s.saved))
  {
    var s0 := Initial(st);
    var r := Restore(NameUser(s0));
    Commit(s0, r.(store := r.store.(blob := Stored(Persist(s0.saved)))), false)
  }

  /** With a stored snapshot and a résumé text the snapshot is restored and the
    * stored entry is kept. */
  lemma MountRestores(st: Store)
    requires st.blob.Stored? && st.resumeText != ""
    ensures Mount(st).saved == Restored(st.blob.state)
    ensures Mount(st).isRestoring && Mount(st).store == st
  {
  }

  /** Without a stored snapshot and a résumé text nothing is restored and the
    * entry is removed; it is written again only when the stored
    * 'interviewResults' changed the snapshot. */
  lemma MountDiscards(st: Store)
    requires !(st.blob.Stored? && st.resumeText != "")
    ensures Mount(st).saved == Cleared.(interviewResults := st.results)
    ensures !Mount(st).isRestoring
    ensures Mount(st).store.blob == if st.results.Some? then Stored(Persist(Mount(st).saved)) else NoBlob
  {
  }

  /** The source's mount restores the same nothing, but always writes the
    * entry: the default snapshot, with the stored 'interviewResults' when
    * there are any. */
  lemma MountAsWrittenDiscards(st: Store)
    requires !(st.blob.Stored? && st.resumeText != "")
    ensures MountAsWritten(st).saved == Mount(st).saved == Cleared.(interviewResults := st.results)
    ensures MountAsWritten(st).store.blob == Stored(Persist(Mount(st).saved))
    ensures st.results.None? ==> Mount(st).store.blob == NoBlob
  {
  }

  /** The source's mount overwrites a restorable entry with the default
    * snapshot: until the restore timer fires, the stored entry no longer
    * holds the interview (a reload in that second starts over). */
  lemma MountAsWrittenOverwrites(st: Store)
    requires st.blob.Stored? && st.resumeText != ""
    requires st.blob.state.interviewStarted == Some(true)
    ensures MountAsWritten(st).isRestoring
    ensures MountAsWritten(st).store.blob == Stored(Persist(Cleared))
    ensures Restored(MountAsWritten(st).store.blob.state) != MountAsWritten(st).saved
    ensures Mount(st).store.blob == st.blob
  {
    assert !Restored(MountAsWritten(st).store.blob.state).interviewStarted;
  }

  // ---------------------------------------------------------------------------
  // Derived values
  // ---------------------------------------------------------------------------

  /** After mounting, the user name is the first non-blank trimmed line of the
    * résumé text, and it is empty exactly when there is none. */
  lemma MountNamesUser(st: Store)
    ensures Mount(st).userName == "" <==> ResumeParser.Lines(st.resumeText) == []
    ensures Mount(st).userName != "" ==>
      Mount(st).userName == ResumeParser.Lines(st.resumeText)[0] && '\n' !in Mount(st).userName
  {
    var n := NameUser(Initial(st));
    assert Mount(st).userName == n.userName;
    var lines := ResumeParser.Lines(st.resumeText);
    if st.resumeText == "" {
      assert Split(st.resumeText, '\n') == [""];
      assert JsTrim("") == "";
    } else {
      assert n.userName == if |lines| > 0 then lines[0] else "";
    }
  }

  /** `Math.round`: halves go up. */
  function RoundHalfUp(x: real): (n: int)
    ensures n as real - 0.5 <= x < n as real + 0.5
  {
    (x + 0.5).Floor
  }

  /** `chatHistory.reduce((sum, a) => sum + a.score, 0)`; `None` is NaN, which
    * one missing score makes of the whole sum. */
  function SumScores(h: seq<Turn>): (r: Option<real>)
    ensures r.Some? <==> forall i :: 0 <= i < |h| ==> h[i].score.Some?
  {
    if h == [] then Some(0.0)
    else
      var rest := SumScores(h[..|h| - 1]);
      assert forall i :: 0 <= i < |h| - 1 ==> h[..|h| - 1][i] == h[i];
      if rest.Some? && h[|h| - 1].score.Some? then Some(rest.value + h[|h| - 1].score.value) else None
  }

  /** `averageScore` as written: 0 for no turns, NaN (`None`) as soon as one
    * turn has no score. */
  function AverageAsWritten(h: seq<Turn>): (r: Option<int>)
    ensures |h| == 0 ==> r == Some(0)
    ensures |h| > 0 ==> (r.None? <==> exists i :: 0 <= i < |h| && h[i].score.None?)
  {
    if |h| == 0 then Some(0)
    else match SumScores(h)
      case Some(sum) => Some(RoundHalfUp(sum / |h| as real))
      case None => None
  }

  /** A turn whose evaluation failed or has not arrived makes the average NaN. */
  lemma UnscoredTurnMakesNaN(h: seq<Turn>, i: nat)
    requires i < |h| && h[i].score.None?
    ensures AverageAsWritten(h) == None
  {
  }

  /** The scores that arrived, in order. */
  function Scores(h: seq<Turn>): (r: seq<real>)
    ensures |r| <= |h|
    ensures (forall i :: 0 <= i < |h| ==> h[i].score.Some?) ==> |r| == |h|
  {
    if h == [] then []
    else
      var rest := Scores(h[..|h| - 1]);
      assert forall i :: 0 <= i < |h| - 1 ==> h[..|h| - 1][i] == h[i];
      if h[|h| - 1].score.Some? then rest + [h[|h| - 1].score.value] else rest
  }

  function Sum(xs: seq<real>): real {
    if xs == [] then 0.0 else Sum(xs[..|xs| - 1]) + xs[|xs| - 1]
  }

  /** The average over the turns that have a score, 0 when none has. */
  function AverageOfScored(h: seq<Turn>): int {
    var xs := Scores(h);
    if |xs| == 0 then 0 else RoundHalfUp(Sum(xs) / |xs| as real)
  }

  lemma {:induction false} SumScoresIsSum(h: seq<Turn>)
    requires forall i :: 0 <= i < |h| ==> h[i].score.Some?
    ensures SumScores(h) == Some(Sum(Scores(h)))
  {
    if h != [] {
      SumScoresIsSum(h[..|h| - 1]);
      assert forall i :: 0 <= i < |h| - 1 ==> h[..|h| - 1][i] == h[i];
      assert Scores(h) == Scores(h[..|h| - 1]) + [h[|h| - 1].score.value];
      assert Scores(h)[..|Scores(h)| - 1] == Scores(h[..|h| - 1]);
    }
  }

  /** Where every turn is scored the corrected average is the source's. */
  lemma AverageAgrees(h: seq<Turn>)
    requires forall i :: 0 <= i < |h| ==> h[i].score.Some?
    ensures AverageAsWritten(h) == Some(AverageOfScored(h))
  {
    if |h| > 0 {
      SumScoresIsSum(h);
    }
  }

  lemma {:induction false} SumBounds(xs: seq<real>, lo: real, hi: real)
    requires forall i :: 0 <= i < |xs| ==> lo <= xs[i] <= hi
    ensures |xs| as real * lo <= Sum(xs) <= |xs| as real * hi
  {
    if xs != [] {
      SumBounds(xs[..|xs| - 1], lo, hi);
    }
  }

  lemma {:induction false} ScoresWithin(h: seq<Turn>, lo: real, hi: real)
    requires forall i :: 0 <= i < |h| && h[i].score.Some? ==> lo <= h[i].score.value <= hi
    ensures forall i :: 0 <= i < |Scores(h)| ==> lo <= Scores(h)[i] <= hi
  {
    if h != [] {
      assert forall i :: 0 <= i < |h| - 1 ==> h[..|h| - 1][i] == h[i];
      ScoresWithin(h[..|h| - 1], lo, hi);
    }
  }

  lemma MeanWithin(sum: real, n: real, lo: real, hi: real)
    requires n > 0.0 && n * lo <= sum <= n * hi
    ensures lo <= sum / n <= hi
  {
    var m := sum / n;
    assert sum == m * n;
  }

  /** The corrected average is a number, and stays within the range of the
    * scores (0 to 10 for the evaluator's scale). */
  lemma AverageWithin(h: seq<Turn>, lo: int, hi: int)
    requires lo <= 0 <= hi
    requires forall i :: 0 <= i < |h| && h[i].score.Some? ==> lo as real <= h[i].score.value <= hi as real
    ensures lo <= AverageOfScored(h) <= hi
  {
    var xs := Scores(h);
    if |xs| > 0 {
      ScoresWithin(h, lo as real, hi as real);
      SumBounds(xs, lo as real, hi as real);
      MeanWithin(Sum(xs), |xs| as real, lo as real, hi as real);
    }
  }

  /** The request body `generateReport` builds: the bot messages that are not
    * typing and differ from the question, each paired with the turn at the
    * same position (`undefined` past the end of the history). */
  function Feedbacks(ms: seq<Message>, question: string): (r: seq<string>)
    ensures |r| <= |ms|
  {
    if ms == [] then []
    else
      var rest := Feedbacks(ms[..|ms| - 1], question);
      var m := ms[|ms| - 1];
      if m.role == Bot && !m.isTyping && m.content != question then rest + [m.content] else rest
  }

  /** A message that goes into the report: a bot message that is not typing
    * and is not the current question. */
  predicate Reported(m: Message, question: string) {
    m.role == Bot && !m.isTyping && m.content != question
  }

  /** `idx` lists, in increasing order, exactly the positions of the reported
    * messages, and `r` holds their contents. */
  predicate Selects(ms: seq<Message>, question: string, idx: seq<nat>, r: seq<string>) {
    |idx| == |r|
    && (forall i :: 0 <= i < |idx| ==> idx[i] < |ms| && Reported(ms[idx[i]], question) && r[i] == ms[idx[i]].content)
    && (forall i, k :: 0 <= i < k < |idx| ==> idx[i] < idx[k])
    && (forall j :: 0 <= j < |ms| && Reported(ms[j], question) ==> j in idx)
  }

  /** The filter keeps exactly the reported messages' contents, in order. */
  lemma {:induction false} FeedbacksSelect(ms: seq<Message>, question: string)
    ensures exists idx :: Selects(ms, question, idx, Feedbacks(ms, question))
  {
    if ms == [] {
      var none: seq<nat> := [];
      assert Feedbacks(ms, question) == [];
      assert Selects(ms, question, none, Feedbacks(ms, question));
    } else {
      var n := |ms| - 1;
      var init := ms[..n];
      FeedbacksSelect(init, question);
      var idx0 :| Selects(init, question, idx0, Feedbacks(init, question));
      SelectsSnoc(ms, question, idx0, Feedbacks(init, question));
      if Reported(ms[n], question) {
        assert Feedbacks(ms, question) == Feedbacks(init, question) + [ms[n].content];
        assert Selects(ms, question, idx0 + [n], Feedbacks(ms, question));
      } else {
        assert Feedbacks(ms, question) == Feedbacks(init, question);
        assert Selects(ms, question, idx0, Feedbacks(ms, question));
      }
    }
  }

  lemma SelectsSnoc(ms: seq<Message>, question: string, idx0: seq<nat>, r0: seq<string>)
    requires ms != [] && Selects(ms[..|ms| - 1], question, idx0, r0)
    ensures var n := |ms| - 1;
      if Reported(ms[n], question) then Selects(ms, question, idx0 + [n], r0 + [ms[n].content])
      else Selects(ms, question, idx0, r0)
  {
    var n := |ms| - 1;
    var init := ms[..n];
    assert forall j :: 0 <= j < n ==> ms[j] == init[j];
    if Reported(ms[n], question) {
      var idx := idx0 + [n];
      var r := r0 + [ms[n].content];
      forall i | 0 <= i < |idx|
        ensures idx[i] < |ms| && Reported(ms[idx[i]], question) && r[i] == ms[idx[i]].content
      {
        if i < |idx0| {
          assert idx[i] == idx0[i] && r[i] == r0[i];
        }
      }
      forall j | 0 <= j < |ms| && Reported(ms[j], question)
        ensures j in idx
      {
        if j < n {
          assert j in idx0;
        } else {
          assert idx[|idx0|] == j;
        }
      }
    }
  }

  function InterviewData(ms: seq<Message>, question: string, history: seq<Turn>): (r: seq<ReportEntry>)
    ensures |r| == |Feedbacks(ms, question)|
    ensures forall i :: 0 <= i < |r| ==>
              r[i].feedback == Feedbacks(ms, question)[i]
              && r[i].question == (if i < |history| then Some(history[i].question) else None)
              && r[i].answer == (if i < |history| then Some(history[i].answer) else None)
  {
    var fb := Feedbacks(ms, question);
    seq(|fb|, i requires 0 <= i < |fb| =>
      ReportEntry(if i < |history| then Some(history[i].question) else None,
                  if i < |history| then Some(history[i].answer) else None,
                  fb[i]))
  }

  /** Messages that are still typing, or that repeat the current question, are
    * not reported: a transcript whose last revealed question is the current
    * one yields one entry fewer than it has revealed questions. */
  lemma CurrentQuestionNotReported(ms: seq<Message>, question: string, history: seq<Turn>)
    requires ms != [] && ms[|ms| - 1] == Message(ms[|ms| - 1].id, Bot, question, false)
    ensures |InterviewData(ms, question, history)| == |Feedbacks(ms[..|ms| - 1], question)|
  {
  }

  // ---------------------------------------------------------------------------
  // List updates
  // ---------------------------------------------------------------------------

  /** `prev.map(msg => msg.id === id ? {...msg, content, isTyping: false} : msg)`:
    * only the messages with that id change. */
  function ReplaceById(ms: seq<Message>, id: int, content: string): (r: seq<Message>)
    ensures |r| == |ms|
    ensures forall i :: 0 <= i < |ms| && ms[i].id != id ==> r[i] == ms[i]
    ensures forall i :: 0 <= i < |ms| && ms[i].id == id ==>
      r[i].id == id && r[i].role == ms[i].role && r[i].content == content && !r[i].isTyping
  {
    seq(|ms|, i requires 0 <= i < |ms| =>
      if ms[i].id == id then ms[i].(content := content, isTyping := false) else ms[i])
  }

  /** The score update: only the last turn changes, and only its score. */
  function SetLastScore(h: seq<Turn>, score: real): (r: seq<Turn>)
    ensures |r| == |h|
    ensures forall i :: 0 <= i < |h| - 1 ==> r[i] == h[i]
    ensures h != [] ==> r[|h| - 1] == h[|h| - 1].(score := Some(score))
  {
    seq(|h|, i requires 0 <= i < |h| => if i == |h| - 1 then h[i].(score := Some(score)) else h[i])
  }

  // ---------------------------------------------------------------------------
  // Screens
  // ---------------------------------------------------------------------------

  datatype Screen = IntroScreen | StartScreen | LoadingScreen | CompletedScreen | ChatScreen

  /** The branch the component renders, in the order it tests them. */
  function ScreenOf(s: Session): (r: Screen)
    ensures r == IntroScreen <==> s.saved.showIntroPrompt
    ensures r == ChatScreen <==> !s.saved.showIntroPrompt && s.saved.interviewStarted && !s.loading && !s.saved.interviewCompleted
    ensures r == CompletedScreen ==> s.saved.interviewCompleted && !s.loading
  {
    if s.saved.showIntroPrompt then IntroScreen
    else if !s.saved.interviewStarted then StartScreen
    else if s.loading then LoadingScreen
    else if s.saved.interviewCompleted then CompletedScreen
    else ChatScreen
  }

  // ---------------------------------------------------------------------------
  // Transitions
  // ---------------------------------------------------------------------------

  /** `startInterview` and the synchronous part of `fetchNextQuestion`. */
  function StartCore(s: Session): (t: Session)
    ensures s.store.resumeText == "" ==> t == s.(alerts := s.alerts + [NoResumeAlert])
    ensures s.store.resumeText != "" ==>
      t.saved == s.saved.(interviewStarted := true, chatHistory := [], chatMessages := [])
      && t.loading && t.work == s.work.(questionPending := true) && t.alerts == s.alerts
  {
    if s.store.resumeText == "" then s.(alerts := s.alerts + [NoResumeAlert])
    else s.(saved := s.saved.(interviewStarted := true, chatHistory := [], chatMessages := []),
            loading := true, work := s.work.(questionPending := true))
  }

  /** The Start button. */
  function Start(s: Session): Session {
    Commit(s, StartCore(s), s.store.resumeText != "")
  }

  /** `handleIntroSubmit`: a blank introduction does nothing; otherwise the
    * prompt closes and the interview starts. */
  function SubmitIntro(s: Session): (t: Session)
    ensures BlankText(s.saved.userIntro) ==> t == s
    ensures !BlankText(s.saved.userIntro) ==> !t.saved.showIntroPrompt
    ensures !BlankText(s.saved.userIntro) && s.store.resumeText != "" ==>
      t.saved.interviewStarted && t.saved.chatHistory == [] && t.work.questionPending
    ensures !BlankText(s.saved.userIntro) && s.store.resumeText == "" ==>
      t.alerts == s.alerts + [NoResumeAlert] && t.saved == s.saved.(showIntroPrompt := false)
  {
    if BlankText(s.saved.userIntro) then s
    else Commit(s, StartCore(s.(saved := s.saved.(showIntroPrompt := false))), s.store.resumeText != "")
  }

  function EditIntro(s: Session, text: string): Session {
    Commit(s, s.(saved := s.saved.(userIntro := text)), false)
  }

  /** The alert for a failed request, by status, then by error text. */
  function FailureAlert(f: Failure): (a: string)
    ensures f.HttpError? && f.status == 429 ==> a == QuotaAlert
    ensures f.HttpError? && f.status != 429 && f.error != "" ==> a == "Error: " + f.error
    ensures (f.NoResponse? || f.error == "") && !(f.HttpError? && f.status == 429) ==> a == BackendAlert
  {
    match f
    case HttpError(status, error) =>
      if status == 429 then QuotaAlert
      else if error != "" then "Error: " + error
      else BackendAlert
    case NoResponse => BackendAlert
  }

  /** The first question arrived: it is shown and an answer is awaited. */
  function ShowQuestion(s: Session, q: string, id: int): (t: Session)
    ensures !t.loading && !t.work.questionPending && t.alerts == s.alerts
    ensures t.saved == s.saved.(currentQuestion := q, waitingForAnswer := true,
                                chatMessages := s.saved.chatMessages + [Message(id, Bot, q, false)])
  {
    Commit(s, s.(loading := false, work := s.work.(questionPending := false),
                 saved := s.saved.(currentQuestion := q, waitingForAnswer := true,
                                   chatMessages := s.saved.chatMessages + [Message(id, Bot, q, false)])), true)
  }

  /** No question came: only an alert is raised. */
  function QuestionAlert(s: Session, alert: string): (t: Session)
    ensures !t.loading && !t.work.questionPending
    ensures t.saved == s.saved && t.alerts == s.alerts + [alert]
  {
    Commit(s, s.(loading := false, work := s.work.(questionPending := false), alerts := s.alerts + [alert]), false)
  }

  /** The rest of `fetchNextQuestion`: a question is shown and answers are
    * awaited; a missing question or a failure only raises an alert. */
  function QuestionArrives(s: Session, reply: QuestionReply, id: int): (t: Session)
    ensures !t.loading && !t.work.questionPending
    ensures reply.QuestionOk? && reply.question != "" ==>
      t.saved == s.saved.(currentQuestion := reply.question, waitingForAnswer := true,
                          chatMessages := s.saved.chatMessages + [Message(id, Bot, reply.question, false)])
      && t.alerts == s.alerts
    ensures !(reply.QuestionOk? && reply.question != "") ==>
      t.saved == s.saved && |t.alerts| == |s.alerts| + 1
  {
    match reply
    case QuestionOk(q) => if q != "" then ShowQuestion(s, q, id) else QuestionAlert(s, NoQuestionAlert)
    case QuestionFailed(f) => QuestionAlert(s, FailureAlert(f))
  }

  /** What a submission does before its request: the answer is no longer
    * awaited, the chat gains the user's message and a typing placeholder, and
    * the history gains the turn. */
  function BeginRound(s: Session, answer: string, userMessageId: int, typingId: int, auto: bool): (t: Session)
    ensures t.isEvaluating && !t.saved.waitingForAnswer
    ensures t.saved.chatMessages == s.saved.chatMessages + [Message(userMessageId, User, answer, false), Message(typingId, Bot, "", true)]
    ensures t.saved.chatHistory == s.saved.chatHistory + [Turn(s.saved.currentQuestion, answer, None)]
    ensures t.work.pending == AwaitingNext(Round(typingId, t.saved.chatHistory, auto, s.saved.chatMessages, s.saved.currentQuestion))
  {
    var newHistory := s.saved.chatHistory + [Turn(s.saved.currentQuestion, answer, None)];
    s.(isEvaluating := true,
       saved := s.saved.(waitingForAnswer := false, chatHistory := newHistory,
                         chatMessages := s.saved.chatMessages + [Message(userMessageId, User, answer, false), Message(typingId, Bot, "", true)]),
       work := s.work.(pending := AwaitingNext(Round(typingId, newHistory, auto, s.saved.chatMessages, s.saved.currentQuestion))))
  }

  /** `submitAnswer`: a blank answer changes nothing. */
  function SubmitAnswer(s: Session, userMessageId: int, typingId: int): (t: Session)
    ensures BlankText(s.userAnswer) ==> t == s
    ensures !BlankText(s.userAnswer) ==>
      t.saved.chatHistory == s.saved.chatHistory + [Turn(s.saved.currentQuestion, s.userAnswer, None)]
      && !t.saved.waitingForAnswer && t.work.pending.AwaitingNext? && !t.work.pending.round.auto
  {
    if BlankText(s.userAnswer) then s
    else Commit(s, BeginRound(s, s.userAnswer, userMessageId, typingId, false), true)
  }

  /** The guard at the Enter key. */
  predicate EnterAllowed(s: Session) {
    !s.isEvaluating && s.saved.waitingForAnswer && !BlankText(s.userAnswer)
  }

  /** The guard of the Send button (it is disabled otherwise). */
  predicate SendAllowed(s: Session) {
    !BlankText(s.userAnswer) && !s.isEvaluating && s.saved.waitingForAnswer && !s.isAutoSubmitting
  }

  function PressEnter(s: Session, userMessageId: int, typingId: int): Session {
    if EnterAllowed(s) then SubmitAnswer(s, userMessageId, typingId) else s
  }

  function ClickSend(s: Session, userMessageId: int, typingId: int): Session {
    if SendAllowed(s) then SubmitAnswer(s, userMessageId, typingId) else s
  }

  /** The guard of `autoSubmitAnswer`. */
  predicate AutoAllowed(s: Session, transcript: string) {
    !BlankText(transcript) && s.saved.waitingForAnswer && !s.isEvaluating
  }

  /** `autoSubmitAnswer`, with its 500 ms wait taken as immediate. */
  function AutoSubmit(s: Session, transcript: string, userMessageId: int, typingId: int): (t: Session)
    ensures !AutoAllowed(s, transcript) ==> t == s
    ensures AutoAllowed(s, transcript) ==>
              t.isAutoSubmitting && t.userAnswer == transcript
              && t.saved.chatHistory == s.saved.chatHistory + [Turn(s.saved.currentQuestion, transcript, None)]
              && t.work.pending.AwaitingNext? && t.work.pending.round.auto
  {
    if !AutoAllowed(s, transcript) then s
    else Commit(s, BeginRound(s.(isAutoSubmitting := true, userAnswer := transcript), transcript, userMessageId, typingId, true), true)
  }

  /** What the speech callbacks read of the render in which the microphone
    * was clicked: `startRecording` builds them there, and they outlive it. */
  datatype MicCapture = MicCapture(waitingForAnswer: bool, isEvaluating: bool,
                                   chatHistory: seq<Turn>, currentQuestion: string)

  function CaptureAt(s: Session): MicCapture {
    MicCapture(s.saved.waitingForAnswer, s.isEvaluating, s.saved.chatHistory, s.saved.currentQuestion)
  }

  /** The microphone button is enabled only while an answer is awaited and
    * nothing is being evaluated. */
  predicate MicEnabled(s: Session) {
    s.saved.waitingForAnswer && !s.isEvaluating
  }

  /** `autoSubmitAnswer` as written: its guard and its new history read the
    * captured render `c`, and the history it sets replaces the page's. The
    * result is that history, `None` when the guard returns. */
  function AutoHistoryAsWritten(c: MicCapture, transcript: string): (r: Option<seq<Turn>>)
    ensures r.None? <==> BlankText(transcript) || !c.waitingForAnswer || c.isEvaluating
    ensures r.Some? ==> |r.value| == |c.chatHistory| + 1 && r.value[..|c.chatHistory|] == c.chatHistory
                        && r.value[|c.chatHistory|] == Turn(c.currentQuestion, transcript, None)
  {
    if BlankText(transcript) || !c.waitingForAnswer || c.isEvaluating then None
    else
      var h := c.chatHistory + [Turn(c.currentQuestion, transcript, None)];
      assert h[..|c.chatHistory|] == c.chatHistory;
      Some(h)
  }

  /** Since the button is enabled only where the captured guard passes, the
    * guard as written turns away nothing but a blank transcript, whatever
    * the page has done since. */
  lemma StaleGuardOnlyRejectsBlank(s: Session, transcript: string)
    requires MicEnabled(s)
    ensures AutoHistoryAsWritten(CaptureAt(s), transcript).None? <==> BlankText(transcript)
  {
  }

  /** A score that lands while the answer is being recorded is lost: the
    * history set from the capture has the last turn unscored, while the
    * page's own history has the score. */
  lemma StaleTranscriptDropsScore(s: Session, score: real, transcript: string, u: int, t: int)
    requires Inv(s) && MicEnabled(s) && s.work.evaluations > 0
    requires s.saved.chatHistory != [] && s.saved.chatHistory[|s.saved.chatHistory| - 1].score.None?
    requires !BlankText(transcript)
    ensures var n := |s.saved.chatHistory|;
      var stale := AutoHistoryAsWritten(CaptureAt(s), transcript);
      stale.Some? && stale.value[n - 1].score.None?
      && AutoSubmit(ScoreArrives(s, Some(score)), transcript, u, t).saved.chatHistory[n - 1].score == Some(score)
  {
    var n := |s.saved.chatHistory|;
    var s2 := ScoreArrives(s, Some(score));
    assert s2.saved.chatHistory[n - 1].score == Some(score);
    assert AutoAllowed(s2, transcript);
    var t2 := AutoSubmit(s2, transcript, u, t);
    assert t2.saved.chatHistory[n - 1] == s2.saved.chatHistory[n - 1];
  }

  /** Typing an answer and pressing Enter while recording starts a round, and
    * the transcript that follows still passes the captured guard and sets a
    * history whose new turn is the transcript, not the typed answer: a
    * second round starts. The live guard turns the transcript away. */
  lemma StaleTranscriptStartsSecondRound(s: Session, transcript: string, u1: int, t1: int, u2: int, t2: int)
    requires Inv(s) && EnterAllowed(s) && !BlankText(transcript) && transcript != s.userAnswer
    ensures var typed := PressEnter(s, u1, t1);
      var n := |s.saved.chatHistory|;
      var stale := AutoHistoryAsWritten(CaptureAt(s), transcript);
      typed.work.pending.AwaitingNext? && |typed.saved.chatHistory| == n + 1
      && stale.Some? && |stale.value| == n + 1 && stale.value[n] != typed.saved.chatHistory[n]
      && AutoSubmit(typed, transcript, u2, t2) == typed
  {
    var typed := PressEnter(s, u1, t1);
    var n := |s.saved.chatHistory|;
    assert typed.saved.chatHistory[n].answer == s.userAnswer;
  }

  /** The `finally` of both submission paths. */
  function Settle(s: Session, auto: bool): Session {
    if auto then s.(isEvaluating := false, isAutoSubmitting := false, userAnswer := "")
    else s.(isEvaluating := false, userAnswer := "")
  }

  /** The question the placeholder will show: 'No next question.' when the
    * reply has none. */
  function ShownQuestion(q: string): (shown: string)
    ensures shown != ""
    ensures q != "" ==> shown == q
  {
    if q == "" then NoNextQuestion else q
  }

  /** The next question arrived: the evaluation request goes out and the
    * reveal timer starts; a missing question reads 'No next question.'. */
  function NextQuestionArrives(s: Session, q: string): (t: Session)
    requires s.work.pending.AwaitingNext?
    ensures t.work == s.work.(evaluations := s.work.evaluations + 1,
                              pending := AwaitingReveal(s.work.pending.round, ShownQuestion(q)))
    ensures !t.isEvaluating && t.userAnswer == ""
    ensures t.saved == s.saved && t.store == s.store
  {
    var r := s.work.pending.round;
    var nextQ := ShownQuestion(q);
    Commit(s, Settle(s.(work := s.work.(evaluations := s.work.evaluations + 1, pending := AwaitingReveal(r, nextQ))), r.auto), false)
  }

  /** The request failed: the placeholder with the round's id reads 'Error
    * getting next question.' and no answer is awaited any more. */
  function NextQuestionFails(s: Session): (t: Session)
    requires s.work.pending.AwaitingNext?
    ensures t.saved == s.saved.(chatMessages := ReplaceById(s.saved.chatMessages, s.work.pending.round.typingId, NextQuestionError))
    ensures t.work == s.work.(pending := Idle)
    ensures !t.isEvaluating && t.userAnswer == ""
  {
    var r := s.work.pending.round;
    Commit(s, Settle(s.(saved := s.saved.(chatMessages := ReplaceById(s.saved.chatMessages, r.typingId, NextQuestionError)),
                        work := s.work.(pending := Idle)), r.auto), true)
  }

  /** The page after an event, or the page torn down by an error thrown while
    * rendering. */
  datatype Outcome = Crashed | Continues(page: Session)

  /** The failure path as written: on the speech path the `catch` block names
    * `typingId`, which was declared inside the `try` block, so the update it
    * queues throws a ReferenceError when React applies it. */
  function NextQuestionFailsAsWritten(s: Session): (o: Outcome)
    requires s.work.pending.AwaitingNext?
    ensures s.work.pending.round.auto ==> o == Crashed
    ensures !s.work.pending.round.auto ==> o == Continues(NextQuestionFails(s))
  {
    if s.work.pending.round.auto then Crashed else Continues(NextQuestionFails(s))
  }

  /** On the speech path the source loses the page where the typed path shows
    * an error in place of the placeholder. */
  lemma SpeechFailureCrashes(s: Session)
    requires s.work.pending.AwaitingNext? && s.work.pending.round.auto
    requires exists i :: 0 <= i < |s.saved.chatMessages| && s.saved.chatMessages[i].id == s.work.pending.round.typingId
    ensures NextQuestionFailsAsWritten(s) == Crashed
    ensures exists i ::
              0 <= i < |NextQuestionFails(s).saved.chatMessages|
              && NextQuestionFails(s).saved.chatMessages[i].content == NextQuestionError
              && !NextQuestionFails(s).saved.chatMessages[i].isTyping
  {
    var i :| 0 <= i < |s.saved.chatMessages| && s.saved.chatMessages[i].id == s.work.pending.round.typingId;
    assert NextQuestionFails(s).saved.chatMessages[i].content == NextQuestionError;
  }

  /** The 1200 ms timer: the placeholder shows the next question. */
  function Reveal(s: Session): (t: Session)
    requires s.work.pending.AwaitingReveal?
    ensures t.saved == s.saved.(chatMessages := ReplaceById(s.saved.chatMessages, s.work.pending.round.typingId, s.work.pending.nextQ))
    ensures t.work == s.work.(pending := AwaitingAdvance(s.work.pending.round, s.work.pending.nextQ))
  {
    var p := s.work.pending;
    Commit(s, s.(saved := s.saved.(chatMessages := ReplaceById(s.saved.chatMessages, p.round.typingId, p.nextQ)),
                 work := s.work.(pending := AwaitingAdvance(p.round, p.nextQ))), true)
  }

  /** The report request `generateReport` sends for a round: the round's
    * history, with the messages and question of the render that submitted. */
  function ReportFor(r: Round, userName: string, resumeText: string): ReportRequest {
    ReportRequest(InterviewData(r.staleMessages, r.staleQuestion, r.newHistory), userName, resumeText)
  }

  /** Below six turns: the next question is asked and an answer awaited. */
  function AskNext(s: Session): (t: Session)
    requires s.work.pending.AwaitingAdvance?
    ensures t.saved == s.saved.(currentQuestion := s.work.pending.nextQ, waitingForAnswer := true)
    ensures t.userAnswer == "" && t.work == s.work.(pending := Idle) && t.loading == s.loading
  {
    Commit(s, s.(saved := s.saved.(currentQuestion := s.work.pending.nextQ, waitingForAnswer := true),
                 userAnswer := "", work := s.work.(pending := Idle)), false)
  }

  /** At six turns: the interview is completed and the report is requested. */
  function Finish(s: Session): (t: Session)
    requires s.work.pending.AwaitingAdvance?
    ensures t.saved == s.saved.(interviewCompleted := true) && t.loading
    ensures t.work == s.work.(pending := Idle, reportPending := Some(ReportFor(s.work.pending.round, s.userName, s.store.resumeText)))
  {
    Commit(s, s.(saved := s.saved.(interviewCompleted := true), loading := true,
                 work := s.work.(pending := Idle, reportPending := Some(ReportFor(s.work.pending.round, s.userName, s.store.resumeText)))), false)
  }

  /** The 1500 ms timer: the round's history decides between asking again
    * and completing. */
  function Advance(s: Session): (t: Session)
    requires s.work.pending.AwaitingAdvance?
    ensures |s.work.pending.round.newHistory| < MaxTurns ==> t == AskNext(s)
    ensures |s.work.pending.round.newHistory| >= MaxTurns ==> t == Finish(s) && t.saved.interviewCompleted
  {
    if |s.work.pending.round.newHistory| < MaxTurns then AskNext(s) else Finish(s)
  }

  /** An evaluation came back: a numeric score goes onto the last turn. */
  function ScoreArrives(s: Session, score: Option<real>): (t: Session)
    requires s.work.evaluations > 0
    ensures t.work == s.work.(evaluations := s.work.evaluations - 1)
    ensures score.Some? ==> t.saved == s.saved.(chatHistory := SetLastScore(s.saved.chatHistory, score.value))
    ensures score.None? ==> t == s.(work := t.work)
  {
    var s1 := s.(work := s.work.(evaluations := s.work.evaluations - 1));
    if score.Some? then Commit(s, s1.(saved := s.saved.(chatHistory := SetLastScore(s.saved.chatHistory, score.value))), true)
    else s1
  }

  /** The report came back: it is stored and the page goes to /report; a
    * failure raises an alert. */
  function ReportArrives(s: Session, reply: ReportReply): (t: Session)
    ensures !t.loading && t.work == s.work.(reportPending := None) && t.saved == s.saved
    ensures reply.ReportOk? ==> t.store.report == Some(reply.report) && t.navigated
    ensures reply.ReportFailed? ==> t.alerts == s.alerts + [ReportAlert] && t.navigated == s.navigated
  {
    var s1 := s.(loading := false, work := s.work.(reportPending := None));
    match reply
    case ReportOk(report) => s1.(store := s.store.(report := Some(report)), navigated := true)
    case ReportFailed => s1.(alerts := s.alerts + [ReportAlert])
  }

  /** The restore timer clears the guard, which lets the save effect run. */
  function RestoreTimer(s: Session): (t: Session)
    requires s.isRestoring
    ensures !t.isRestoring && t.store.blob == Stored(Persist(s.saved)) && t.saved == s.saved
  {
    Commit(s, s.(isRestoring := false), false)
  }

  /** `clearInterviewState`: the entry is removed and every saved field returns
    * to its initial value; work still in flight is not cancelled. */
  function Clear(s: Session): (t: Session)
    ensures t.saved == Cleared
    ensures t.store.blob == (if s.isRestoring then NoBlob else Stored(Persist(Cleared)))
    ensures t.work == s.work && t.loading == s.loading
  {
    Commit(s, s.(store := s.store.(blob := NoBlob), saved := Cleared), true)
  }

  /** `goToReport`: the results are stored and the page goes to /report. */
  function GoToReport(s: Session, completedAt: string): (t: Session)
    ensures t.navigated && t.store.results.Some?
    ensures t.store.results.value.answers == s.saved.chatHistory
    ensures t.store.results.value.totalQuestions == |s.saved.chatHistory|
    ensures t.store.results.value.averageScore == AverageOfScored(s.saved.chatHistory)
    ensures t.saved == s.saved && t.work == s.work
  {
    var h := s.saved.chatHistory;
    s.(store := s.store.(results := Some(Results(h, AverageOfScored(h), |h|, completedAt, Duration))),
       navigated := true)
  }

  // ---------------------------------------------------------------------------
  // Events
  // ---------------------------------------------------------------------------

  datatype Event =
    | EditIntroText(text: string)
    | ClickIntroSubmit
    | ClickStart
    | QuestionResponse(reply: QuestionReply, messageId: int)
    | EditAnswerText(text: string)
    | KeyEnter(userMessageId: int, typingId: int)
    | ClickSendButton(userMessageId: int, typingId: int)
    | Transcript(text: string, userMessageId: int, typingId: int)
    | NextQuestionResponse(next: NextReply)
    | RevealTimerFires
    | AdvanceTimerFires
    | EvaluationResponse(score: Option<real>)
    | ReportResponse(report: ReportReply)
    | RestoreTimerFires
    | ClickClear
    | ClickViewReport(completedAt: string)

  /** When an event can happen: a control on the screen shown, or a response
    * or timer that is pending. Nothing happens after the page has left. */
  predicate Enabled(s: Session, e: Event) {
    !s.navigated &&
    match e
    case EditIntroText(_) => ScreenOf(s) == IntroScreen
    case ClickIntroSubmit => ScreenOf(s) == IntroScreen
    case ClickStart => ScreenOf(s) == StartScreen
    case QuestionResponse(_, _) => s.work.questionPending
    case EditAnswerText(_) => ScreenOf(s) == ChatScreen && s.saved.waitingForAnswer && !s.isEvaluating
    case KeyEnter(_, _) => ScreenOf(s) == ChatScreen
    case ClickSendButton(_, _) => ScreenOf(s) == ChatScreen
    case Transcript(_, _, _) => true
    case NextQuestionResponse(_) => s.work.pending.AwaitingNext?
    case RevealTimerFires => s.work.pending.AwaitingReveal?
    case AdvanceTimerFires => s.work.pending.AwaitingAdvance?
    case EvaluationResponse(_) => s.work.evaluations > 0
    case ReportResponse(_) => s.work.reportPending.Some?
    case RestoreTimerFires => s.isRestoring
    case ClickClear => ScreenOf(s) == CompletedScreen
    case ClickViewReport(_) => ScreenOf(s) == CompletedScreen
  }

  function Step(s: Session, e: Event): Session {
    if !Enabled(s, e) then s
    else match e
      case EditIntroText(text) => EditIntro(s, text)
      case ClickIntroSubmit => SubmitIntro(s)
      case ClickStart => Start(s)
      case QuestionResponse(reply, id) => QuestionArrives(s, reply, id)
      case EditAnswerText(text) => s.(userAnswer := text)
      case KeyEnter(u, t) => PressEnter(s, u, t)
      case ClickSendButton(u, t) => ClickSend(s, u, t)
      case Transcript(text, u, t) => AutoSubmit(s, text, u, t)
      case NextQuestionResponse(next) =>
        (match next
         case NextOk(q) => NextQuestionArrives(s, q)
         case NextFailed => NextQuestionFails(s))
      case RevealTimerFires => Reveal(s)
      case AdvanceTimerFires => Advance(s)
      case EvaluationResponse(score) => ScoreArrives(s, score)
      case ReportResponse(reply) => ReportArrives(s, reply)
      case RestoreTimerFires => RestoreTimer(s)
      case ClickClear => Clear(s)
      case ClickViewReport(at) => GoToReport(s, at)
  }

  function Run(s: Session, events: seq<Event>): Session
    decreases |events|
  {
    if events == [] then s else Run(Step(s, events[0]), events[1..])
  }

  // ---------------------------------------------------------------------------
  // Invariant
  // ---------------------------------------------------------------------------

  /** The saved fields alone: at most six turns, an answer awaited only below
    * six turns in an interview started and not completed, a history or a
    * completed interview only once started, and the intro prompt never shown
    * once started. */
  predicate SavedValid(sn: Snapshot) {
    |sn.chatHistory| <= MaxTurns
    && (sn.waitingForAnswer ==> |sn.chatHistory| < MaxTurns && sn.interviewStarted && !sn.interviewCompleted)
    && (sn.interviewCompleted ==> sn.interviewStarted)
    && (|sn.chatHistory| > 0 ==> sn.interviewStarted)
    && (sn.showIntroPrompt ==> !sn.interviewStarted)
  }

  /** What holds of every reachable page besides `SavedValid`: an answer is
    * awaited only with nothing in flight; at most one submission is in flight
    * and its history is the page's; the first question is requested only for
    * an empty history; the spinner shows exactly while a request it waits for
    * is pending. */
  predicate Inv(s: Session) {
    var sn := s.saved;
    var w := s.work;
    SavedValid(sn)
    && (sn.waitingForAnswer ==> w.pending.Idle? && !w.questionPending)
    && (!w.pending.Idle? ==>
          |w.pending.round.newHistory| == |sn.chatHistory| && |sn.chatHistory| >= 1
          && sn.interviewStarted && !sn.interviewCompleted && !sn.waitingForAnswer && !w.questionPending)
    && (w.questionPending ==> sn.chatHistory == [] && sn.interviewStarted && !sn.interviewCompleted && w.pending.Idle?)
    && (w.reportPending.Some? ==> sn.interviewCompleted)
    && s.loading == (w.questionPending || w.reportPending.Some?)
  }

  /** The saved fields of a valid page restore unchanged. */
  lemma SavedStateRestores(sn: Snapshot)
    requires SavedValid(sn)
    ensures Restored(Persist(sn)) == sn
  {
  }

  /** Storage the page itself wrote: any stored snapshot restores to valid
    * saved fields. */
  predicate StoreValid(st: Store) {
    st.blob.Stored? ==> SavedValid(Restored(st.blob.state))
  }

  lemma MountEstablishes(st: Store)
    requires StoreValid(st)
    ensures Inv(Mount(st))
  {
  }

  lemma IntroKeepsInv(s: Session, e: Event)
    requires Inv(s) && ScreenOf(s) == IntroScreen
    requires e.EditIntroText? || e.ClickIntroSubmit?
    ensures Inv(Step(s, e))
  {
  }

  lemma StartKeepsInv(s: Session)
    requires Inv(s) && ScreenOf(s) == StartScreen
    ensures Inv(Start(s))
  {
  }

  lemma QuestionKeepsInv(s: Session, reply: QuestionReply, id: int)
    requires Inv(s) && s.work.questionPending
    ensures Inv(QuestionArrives(s, reply, id))
  {
  }

  lemma SubmitKeepsInv(s: Session, u: int, t: int)
    requires Inv(s) && s.saved.waitingForAnswer
    ensures Inv(SubmitAnswer(s, u, t))
  {
  }

  lemma AutoKeepsInv(s: Session, text: string, u: int, t: int)
    requires Inv(s)
    ensures Inv(AutoSubmit(s, text, u, t))
  {
  }

  lemma NextKeepsInv(s: Session, next: NextReply)
    requires Inv(s) && s.work.pending.AwaitingNext?
    ensures next.NextOk? ==> Inv(NextQuestionArrives(s, next.nextQuestion))
    ensures next.NextFailed? ==> Inv(NextQuestionFails(s))
  {
  }

  lemma TimersKeepInv(s: Session)
    requires Inv(s)
    ensures s.work.pending.AwaitingReveal? ==> Inv(Reveal(s))
    ensures s.work.pending.AwaitingAdvance? ==> Inv(Advance(s))
    ensures s.isRestoring ==> Inv(RestoreTimer(s))
  {
  }

  lemma ResponsesKeepInv(s: Session, score: Option<real>, reply: ReportReply)
    requires Inv(s)
    ensures s.work.evaluations > 0 ==> Inv(ScoreArrives(s, score))
    ensures s.work.reportPending.Some? ==> Inv(ReportArrives(s, reply))
  {
  }

  lemma CompletedKeepsInv(s: Session, at: string)
    requires Inv(s) && ScreenOf(s) == CompletedScreen
    ensures Inv(Clear(s)) && Inv(GoToReport(s, at))
  {
  }

  /** Every event keeps the invariant. */
  lemma StepKeepsInv(s: Session, e: Event)
    requires Inv(s)
    ensures Inv(Step(s, e))
  {
    if Enabled(s, e) {
      match e
      case EditIntroText(_) => IntroKeepsInv(s, e);
      case ClickIntroSubmit => IntroKeepsInv(s, e);
      case ClickStart => StartKeepsInv(s);
      case QuestionResponse(reply, id) => QuestionKeepsInv(s, reply, id);
      case EditAnswerText(_) =>
      case KeyEnter(u, t) => if EnterAllowed(s) { SubmitKeepsInv(s, u, t); }
      case ClickSendButton(u, t) => if SendAllowed(s) { SubmitKeepsInv(s, u, t); }
      case Transcript(text, u, t) => AutoKeepsInv(s, text, u, t);
      case NextQuestionResponse(next) => NextKeepsInv(s, next);
      case RevealTimerFires => TimersKeepInv(s);
      case AdvanceTimerFires => TimersKeepInv(s);
      case EvaluationResponse(score) => ResponsesKeepInv(s, score, ReportFailed);
      case ReportResponse(reply) => ResponsesKeepInv(s, None, reply);
      case RestoreTimerFires => TimersKeepInv(s);
      case ClickClear => CompletedKeepsInv(s, "");
      case ClickViewReport(at) => CompletedKeepsInv(s, at);
    }
  }

  lemma {:induction false} RunKeepsInv(s: Session, events: seq<Event>)
    requires Inv(s)
    ensures Inv(Run(s, events))
    decreases |events|
  {
    if events != [] {
      StepKeepsInv(s, events[0]);
      RunKeepsInv(Step(s, events[0]), events[1..]);
    }
  }

  /** What one event may leave in the storage entry: the entry as it was,
    * none (clear during the restoring guard), or the page's saved fields. */
  predicate BlobStep(before: Blob, t: Session) {
    t.store.blob == before || t.store.blob == NoBlob || t.store.blob == Stored(Persist(t.saved))
  }

  /** Every event writes the entry only from the saved fields it leaves. */
  lemma StepBlob(s: Session, e: Event)
    ensures BlobStep(s.store.blob, Step(s, e))
  {
    if Enabled(s, e) {
      match e
      case EditIntroText(_) =>
      case ClickIntroSubmit =>
      case ClickStart =>
      case QuestionResponse(_, _) =>
      case EditAnswerText(_) =>
      case KeyEnter(_, _) =>
      case ClickSendButton(_, _) =>
      case Transcript(_, _, _) =>
      case NextQuestionResponse(_) =>
      case RevealTimerFires =>
      case AdvanceTimerFires =>
      case EvaluationResponse(_) =>
      case ReportResponse(_) =>
      case RestoreTimerFires =>
      case ClickClear =>
      case ClickViewReport(_) =>
    }
  }

  /** Every event leaves storage the page can mount from again. */
  lemma StepKeepsStoreValid(s: Session, e: Event)
    requires Inv(s) && StoreValid(s.store)
    ensures StoreValid(Step(s, e).store)
  {
    var t := Step(s, e);
    StepBlob(s, e);
    StepKeepsInv(s, e);
    SavedStateRestores(t.saved);
  }

  lemma {:induction false} RunKeepsStoreValid(s: Session, events: seq<Event>)
    requires Inv(s) && StoreValid(s.store)
    ensures StoreValid(Run(s, events).store)
    decreases |events|
  {
    if events != [] {
      StepKeepsStoreValid(s, events[0]);
      StepKeepsInv(s, events[0]);
      RunKeepsStoreValid(Step(s, events[0]), events[1..]);
    }
  }

  /** Mounting from storage the page wrote leaves such storage behind. */
  lemma MountKeepsStoreValid(st: Store)
    requires StoreValid(st)
    ensures StoreValid(Mount(st).store)
  {
    MountEstablishes(st);
    SavedStateRestores(Mount(st).saved);
  }

  /** How the history may change in one event: not at all, emptied (start,
    * clear), one turn appended with the earlier ones unchanged, or only the
    * score of its last turn set. */
  predicate HistoryStep(h: seq<Turn>, h2: seq<Turn>) {
    h2 == h
    || h2 == []
    || (|h2| == |h| + 1 && h2[..|h|] == h)
    || (|h2| == |h| && |h| > 0 && h2[..|h| - 1] == h[..|h| - 1]
        && h2[|h| - 1] == h[|h| - 1].(score := h2[|h| - 1].score) && h2[|h| - 1].score.Some?)
  }

  /** The history is append-only apart from the last turn's score and the
    * two resets. */
  lemma SubmitAppends(s: Session, u: int, t: int)
    ensures HistoryStep(s.saved.chatHistory, SubmitAnswer(s, u, t).saved.chatHistory)
  {
    var h := s.saved.chatHistory;
    assert SubmitAnswer(s, u, t).saved.chatHistory[..|h|] == h;
  }

  lemma AutoAppends(s: Session, text: string, u: int, t: int)
    ensures HistoryStep(s.saved.chatHistory, AutoSubmit(s, text, u, t).saved.chatHistory)
  {
    var h := s.saved.chatHistory;
    assert AutoSubmit(s, text, u, t).saved.chatHistory[..|h|] == h;
  }

  lemma ScoreOnlyOnLast(s: Session, score: Option<real>)
    requires s.work.evaluations > 0
    ensures HistoryStep(s.saved.chatHistory, ScoreArrives(s, score).saved.chatHistory)
  {
    var h := s.saved.chatHistory;
    if score.Some? && h != [] {
      assert ScoreArrives(s, score).saved.chatHistory[..|h| - 1] == h[..|h| - 1];
    }
  }

  lemma HistoryKeptBeforeRounds(s: Session, e: Event)
    requires e.EditIntroText? || e.ClickIntroSubmit? || e.ClickStart? || e.QuestionResponse? || e.EditAnswerText?
    ensures HistoryStep(s.saved.chatHistory, Step(s, e).saved.chatHistory)
  {
  }

  lemma HistoryKeptByRounds(s: Session, e: Event)
    requires e.NextQuestionResponse? || e.RevealTimerFires? || e.AdvanceTimerFires?
    ensures HistoryStep(s.saved.chatHistory, Step(s, e).saved.chatHistory)
  {
  }

  lemma HistoryKeptAtEnd(s: Session, e: Event)
    requires e.ReportResponse? || e.RestoreTimerFires? || e.ClickClear? || e.ClickViewReport?
    ensures HistoryStep(s.saved.chatHistory, Step(s, e).saved.chatHistory)
  {
  }

  lemma HistoryAppendOnly(s: Session, e: Event)
    ensures HistoryStep(s.saved.chatHistory, Step(s, e).saved.chatHistory)
  {
    if !Enabled(s, e) {
    } else if e.KeyEnter? || e.ClickSendButton? {
      SubmitAppends(s, e.userMessageId, e.typingId);
    } else if e.Transcript? {
      AutoAppends(s, e.text, e.userMessageId, e.typingId);
    } else if e.EvaluationResponse? {
      ScoreOnlyOnLast(s, e.score);
    } else if e.EditIntroText? || e.ClickIntroSubmit? || e.ClickStart? || e.QuestionResponse? || e.EditAnswerText? {
      HistoryKeptBeforeRounds(s, e);
    } else if e.NextQuestionResponse? || e.RevealTimerFires? || e.AdvanceTimerFires? {
      HistoryKeptByRounds(s, e);
    } else {
      HistoryKeptAtEnd(s, e);
    }
  }

  lemma IntroKeepsGuard(s: Session, e: Event)
    requires s.isRestoring && (e.EditIntroText? || e.ClickIntroSubmit? || e.ClickStart?)
    ensures Step(s, e).isRestoring && Step(s, e).store.blob == s.store.blob
  {
  }

  lemma ChatKeepsGuard(s: Session, e: Event)
    requires s.isRestoring
    requires e.QuestionResponse? || e.EditAnswerText? || e.KeyEnter? || e.ClickSendButton? || e.Transcript?
    ensures Step(s, e).isRestoring && Step(s, e).store.blob == s.store.blob
  {
  }

  lemma NextKeepsGuard(s: Session, e: Event)
    requires s.isRestoring && e.NextQuestionResponse?
    ensures Step(s, e).isRestoring && Step(s, e).store.blob == s.store.blob
  {
  }

  lemma ScoreKeepsGuard(s: Session, e: Event)
    requires s.isRestoring && e.EvaluationResponse?
    ensures Step(s, e).isRestoring && Step(s, e).store.blob == s.store.blob
  {
  }

  lemma TimersKeepGuard(s: Session, e: Event)
    requires s.isRestoring && (e.RevealTimerFires? || e.AdvanceTimerFires?)
    ensures Step(s, e).isRestoring && Step(s, e).store.blob == s.store.blob
  {
  }

  lemma EndKeepsGuard(s: Session, e: Event)
    requires s.isRestoring && (e.ReportResponse? || e.ClickClear? || e.ClickViewReport?)
    ensures Step(s, e).isRestoring
    ensures Step(s, e).store.blob == s.store.blob || (e.ClickClear? && Step(s, e).store.blob == NoBlob)
  {
  }

  /** While the restoring guard is set nothing is written to the stored entry
    * (clearing still removes it); only the restore timer clears the guard. */
  lemma NothingSavedWhileRestoring(s: Session, e: Event)
    requires s.isRestoring && !e.RestoreTimerFires?
    ensures Step(s, e).isRestoring
    ensures Step(s, e).store.blob == s.store.blob || (e.ClickClear? && Step(s, e).store.blob == NoBlob)
  {
    if e.EditIntroText? || e.ClickIntroSubmit? || e.ClickStart? {
      IntroKeepsGuard(s, e);
    } else if e.QuestionResponse? || e.EditAnswerText? || e.KeyEnter? || e.ClickSendButton? || e.Transcript? {
      ChatKeepsGuard(s, e);
    } else if e.NextQuestionResponse? {
      NextKeepsGuard(s, e);
    } else if e.EvaluationResponse? {
      ScoreKeepsGuard(s, e);
    } else if e.RevealTimerFires? || e.AdvanceTimerFires? {
      TimersKeepGuard(s, e);
    } else {
      EndKeepsGuard(s, e);
    }
  }

  /** From storage the page wrote, no sequence of events leads to a seventh
    * turn, nor to an answer awaited at six. */
  lemma QuotaHolds(st: Store, events: seq<Event>)
    requires StoreValid(st)
    ensures |Run(Mount(st), events).saved.chatHistory| <= MaxTurns
    ensures Run(Mount(st), events).saved.waitingForAnswer ==> |Run(Mount(st), events).saved.chatHistory| < MaxTurns
    ensures StoreValid(Run(Mount(st), events).store)
  {
    MountEstablishes(st);
    MountKeepsStoreValid(st);
    RunKeepsInv(Mount(st), events);
    RunKeepsStoreValid(Mount(st), events);
  }

  /** The storage left by a visit to the page per event sequence in `visits`,
    * each visit mounting from the storage the previous one left. */
  function Visits(st: Store, visits: seq<seq<Event>>): Store
    decreases |visits|
  {
    if visits == [] then st else Visits(Run(Mount(st), visits[0]).store, visits[1..])
  }

  /** Across any number of reloads the quota holds on every page reached. */
  lemma {:induction false} ReloadsKeepQuota(st: Store, visits: seq<seq<Event>>, events: seq<Event>)
    requires StoreValid(st)
    ensures |Run(Mount(Visits(st, visits)), events).saved.chatHistory| <= MaxTurns
    ensures Run(Mount(Visits(st, visits)), events).saved.waitingForAnswer ==>
      |Run(Mount(Visits(st, visits)), events).saved.chatHistory| < MaxTurns
    decreases |visits|
  {
    if visits == [] {
      QuotaHolds(st, events);
    } else {
      QuotaHolds(st, visits[0]);
      ReloadsKeepQuota(Run(Mount(st), visits[0]).store, visits[1..], events);
    }
  }
}
