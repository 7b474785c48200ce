/**
 * The interview page of src/pages/Interview.jsx as an object: its
 * sessionStorage entries, the nine state variables it saves together, the
 * other state variables and the work in flight are fields; each handler,
 * response or timer is a method. Each method performs the handler's updates in the
 * source's order and then runs the save effect; its contract ties the new
 * state to the transition of the same name in InterviewModel, whose
 * properties (the invariant, the quota, the round trip of save and restore)
 * are proved there.
 */
module InterviewPageObject {
  import opened Wrappers
  import opened Text
  import opened InterviewModel
  import ResumeParser

  class InterviewPage {
    /** The sessionStorage entries the page uses. */
    var storage: Store
    /** The nine state variables the page saves and restores together. */
    var saved: Snapshot
    var userAnswer: string
    var isEvaluating: bool
    var isAutoSubmitting: bool
    var isRestoring: bool
    var loading: bool
    /** Requests and timers in flight. */
    var work: Work
    var alerts: seq<string>
    var navigated: bool
    var userName: string

    /** The page as a value of the model. */
    function State(): Session
      reads this
    {
      Session(storage, saved, userAnswer, isEvaluating, isAutoSubmitting, isRestoring, loading, work, alerts, navigated, userName)
    }

    /** The first render followed by the restore effect and the save effect. */
    constructor (st: Store)
      ensures State() == Mount(st)
    {
      storage := st;
      saved := Cleared;
      userAnswer := "";
      isEvaluating, isAutoSubmitting, isRestoring, loading := false, false, false, false;
      work := Work(false, Idle, 0, None);
      alerts, navigated, userName := [], false, "";
      new;
      var before := State();
      NameEffect();
      RestoreEffect();
      SaveEffect(before, false);
    }

    /** The `userName` effect. */
    method NameEffect()
      modifies this
      ensures State() == NameUser(old(State()))
    {
      if storage.resumeText != "" {
        var lines := ResumeParser.Lines(storage.resumeText);
        if |lines| > 0 {
          userName := lines[0];
        }
      }
    }

    /** The restore effect. */
    method RestoreEffect()
      modifies this
      ensures State() == Restore(old(State()))
    {
      if storage.results.Some? {
        saved := saved.(interviewResults := storage.results);
      }
      match storage.blob {
        case NoBlob =>
        case Unparsable =>
          storage := storage.(blob := NoBlob);
        case Stored(p) =>
          if storage.resumeText == "" {
            storage := storage.(blob := NoBlob);
          } else {
            saved := Restored(p);
            isRestoring := true;
          }
      }
    }

    /** The save effect, after an update from `before`. */
    method SaveEffect(before: Session, replaced: bool)
      modifies this
      ensures State() == Commit(before, old(State()), replaced)
    {
      if !isRestoring && (replaced || saved != before.saved || before.isRestoring != isRestoring) {
        storage := storage.(blob := Stored(Persist(saved)));
      }
    }

    method EditIntro(text: string)
      modifies this
      ensures State() == InterviewModel.EditIntro(old(State()), text)
    {
      var before := State();
      saved := saved.(userIntro := text);
      SaveEffect(before, false);
    }

    /** `startInterview` with the synchronous part of `fetchNextQuestion`,
      * without the save effect. */
    method StartUpdates()
      modifies this
      ensures State() == StartCore(old(State()))
    {
      if storage.resumeText == "" {
        alerts := alerts + [NoResumeAlert];
        return;
      }
      saved := saved.(interviewStarted := true, chatHistory := [], chatMessages := []);
      loading := true;
      work := work.(questionPending := true);
    }

    method StartInterview()
      modifies this
      ensures State() == Start(old(State()))
    {
      var before := State();
      StartUpdates();
      SaveEffect(before, storage.resumeText != "");
    }

    method HandleIntroSubmit()
      modifies this
      ensures State() == SubmitIntro(old(State()))
    {
      if BlankText(saved.userIntro) {
        return;
      }
      var before := State();
      saved := saved.(showIntroPrompt := false);
      StartUpdates();
      SaveEffect(before, storage.resumeText != "");
    }

    method ShowFirstQuestion(q: string, id: int)
      modifies this
      ensures State() == ShowQuestion(old(State()), q, id)
    {
      var before := State();
      saved := saved.(currentQuestion := q, chatMessages := saved.chatMessages + [Message(id, Bot, q, false)],
                      waitingForAnswer := true);
      loading := false;
      work := work.(questionPending := false);
      SaveEffect(before, true);
    }

    method RaiseQuestionAlert(alert: string)
      modifies this
      ensures State() == QuestionAlert(old(State()), alert)
    {
      var before := State();
      alerts := alerts + [alert];
      loading := false;
      work := work.(questionPending := false);
      SaveEffect(before, false);
    }

    method ReceiveQuestion(reply: QuestionReply, id: int)
      modifies this
      ensures State() == QuestionArrives(old(State()), reply, id)
    {
      match reply {
        case QuestionOk(q) =>
          if q != "" {
            ShowFirstQuestion(q, id);
          } else {
            RaiseQuestionAlert(NoQuestionAlert);
          }
        case QuestionFailed(f) =>
          RaiseQuestionAlert(FailureAlert(f));
      }
    }

    method EditAnswer(text: string)
      modifies this
      ensures State() == old(State()).(userAnswer := text)
    {
      userAnswer := text;
    }

    /** The updates a submission makes before its request. */
    method BeginRoundUpdates(answer: string, userMessageId: int, typingId: int, auto: bool)
      modifies this
      ensures State() == BeginRound(old(State()), answer, userMessageId, typingId, auto)
    {
      var newHistory := saved.chatHistory + [Turn(saved.currentQuestion, answer, None)];
      isEvaluating := true;
      work := work.(pending := AwaitingNext(Round(typingId, newHistory, auto, saved.chatMessages, saved.currentQuestion)));
      saved := saved.(waitingForAnswer := false, chatHistory := newHistory,
                      chatMessages := saved.chatMessages + [Message(userMessageId, User, answer, false), Message(typingId, Bot, "", true)]);
    }

    method SubmitAnswer(userMessageId: int, typingId: int)
      modifies this
      ensures State() == InterviewModel.SubmitAnswer(old(State()), userMessageId, typingId)
    {
      if BlankText(userAnswer) {
        return;
      }
      var before := State();
      BeginRoundUpdates(userAnswer, userMessageId, typingId, false);
      SaveEffect(before, true);
    }

    method PressEnter(userMessageId: int, typingId: int)
      modifies this
      ensures State() == InterviewModel.PressEnter(old(State()), userMessageId, typingId)
    {
      if !isEvaluating && saved.waitingForAnswer && !BlankText(userAnswer) {
        SubmitAnswer(userMessageId, typingId);
      }
    }

    method ClickSend(userMessageId: int, typingId: int)
      modifies this
      ensures State() == InterviewModel.ClickSend(old(State()), userMessageId, typingId)
    {
      if !BlankText(userAnswer) && !isEvaluating && saved.waitingForAnswer && !isAutoSubmitting {
        SubmitAnswer(userMessageId, typingId);
      }
    }

    method AutoSubmitAnswer(transcript: string, userMessageId: int, typingId: int)
      modifies this
      ensures State() == AutoSubmit(old(State()), transcript, userMessageId, typingId)
    {
      if BlankText(transcript) || !saved.waitingForAnswer || isEvaluating {
        return;
      }
      var before := State();
      isAutoSubmitting := true;
      userAnswer := transcript;
      BeginRoundUpdates(transcript, userMessageId, typingId, true);
      SaveEffect(before, true);
    }

    /** The `finally` block. */
    method SettleUpdates(auto: bool)
      modifies this
      ensures State() == Settle(old(State()), auto)
    {
      isEvaluating := false;
      if auto {
        isAutoSubmitting := false;
      }
      userAnswer := "";
    }

    /** The next question arrived. */
    method ReceiveNextQuestion(q: string)
      requires work.pending.AwaitingNext?
      modifies this
      ensures State() == NextQuestionArrives(old(State()), q)
    {
      var before := State();
      var r := work.pending.round;
      var nextQ := ShownQuestion(q);
      work := work.(evaluations := work.evaluations + 1, pending := AwaitingReveal(r, nextQ));
      SettleUpdates(r.auto);
      SaveEffect(before, false);
    }

    /** The next-question request failed. */
    method NextQuestionFailed()
      requires work.pending.AwaitingNext?
      modifies this
      ensures State() == NextQuestionFails(old(State()))
    {
      var before := State();
      var r := work.pending.round;
      saved := saved.(chatMessages := ReplaceById(saved.chatMessages, r.typingId, NextQuestionError));
      work := work.(pending := Idle);
      SettleUpdates(r.auto);
      SaveEffect(before, true);
    }

    method RevealNextQuestion()
      requires work.pending.AwaitingReveal?
      modifies this
      ensures State() == Reveal(old(State()))
    {
      var before := State();
      var p := work.pending;
      saved := saved.(chatMessages := ReplaceById(saved.chatMessages, p.round.typingId, p.nextQ));
      work := work.(pending := AwaitingAdvance(p.round, p.nextQ));
      SaveEffect(before, true);
    }

    method AskNextQuestion()
      requires work.pending.AwaitingAdvance?
      modifies this
      ensures State() == AskNext(old(State()))
    {
      var before := State();
      var p := work.pending;
      saved := saved.(currentQuestion := p.nextQ, waitingForAnswer := true);
      userAnswer := "";
      work := work.(pending := Idle);
      SaveEffect(before, false);
    }

    method FinishInterview()
      requires work.pending.AwaitingAdvance?
      modifies this
      ensures State() == Finish(old(State()))
    {
      var before := State();
      var request := ReportFor(before.work.pending.round, userName, storage.resumeText);
      saved := saved.(interviewCompleted := true);
      loading := true;
      work := work.(pending := Idle, reportPending := Some(request));
      SaveEffect(before, false);
    }

    /** The 1500 ms timer. */
    method AdvanceAfterReveal()
      requires work.pending.AwaitingAdvance?
      modifies this
      ensures State() == Advance(old(State()))
    {
      if |work.pending.round.newHistory| < MaxTurns {
        AskNextQuestion();
      } else {
        FinishInterview();
      }
    }

    method ReceiveScore(score: Option<real>)
      requires work.evaluations > 0
      modifies this
      ensures State() == ScoreArrives(old(State()), score)
    {
      var before := State();
      work := work.(evaluations := work.evaluations - 1);
      if score.Some? {
        saved := saved.(chatHistory := SetLastScore(saved.chatHistory, score.value));
        SaveEffect(before, true);
      }
    }

    method ReceiveReport(reply: ReportReply)
      modifies this
      ensures State() == ReportArrives(old(State()), reply)
    {
      match reply {
        case ReportOk(report) =>
          storage := storage.(report := Some(report));
          navigated := true;
        case ReportFailed =>
          alerts := alerts + [ReportAlert];
      }
      loading := false;
      work := work.(reportPending := None);
    }

    method EndRestoring()
      requires isRestoring
      modifies this
      ensures State() == RestoreTimer(old(State()))
    {
      var before := State();
      isRestoring := false;
      SaveEffect(before, false);
    }

    method ClearInterviewState()
      modifies this
      ensures State() == Clear(old(State()))
    {
      var before := State();
      storage := storage.(blob := NoBlob);
      saved := Cleared;
      SaveEffect(before, true);
    }

    method GoToReport(completedAt: string)
      modifies this
      ensures State() == InterviewModel.GoToReport(old(State()), completedAt)
    {
      var h := saved.chatHistory;
      storage := storage.(results := Some(Results(h, AverageOfScored(h), |h|, completedAt, Duration)));
      navigated := true;
    }
  }
}
