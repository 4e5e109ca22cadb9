/** The six-step writing session (components/ExerciseArea.tsx): pick a topic,
    choose how to get target words (generated or typed in), review them,
    write, and read the evaluation.  The transitions are pure functions on a
    snapshot of the session; `Event` lists what each step's view offers, and
    the class `ExerciseSession` holds the same fields and updates them in
    place, one method per handler.  The older four-step twin of this module
    is `LegacySession`; its submit, suggestion and word-check parts are the
    same code as here. */
module Session {
  import opened Types
  import opened Text
  import opened ManualVocab
  import opened VocabMatch

  datatype Step = Topic | PrepMode | ManualInput | VocabReview | Writing | Feedback

  datatype FeedbackTab = SyntaxTab | LexiconTab | GrammarTab

  /** Every field a handler reads or writes.  `topic` and `level` are owned
      by the host: the topic is updated through the callback it passes in,
      the level by the level selector of the side menu. */
  datatype SessionState = SessionState(
    step: Step,
    loading: LoadingState,
    error: Option<SessionError>,
    suggestedTopics: seq<string>,
    vocabList: seq<VocabularyItem>,
    manualInputText: string,
    userSubmission: string,
    feedback: Option<WritingFeedback>,
    feedbackTab: FeedbackTab,
    topic: string,
    level: string)

  /** The feedback step always has an evaluation to show, and no call is
      left pending once a handler has finished (the same invariant as
      `LegacySession.ValidState`). */
  predicate ValidState(s: SessionState) {
    (s.step == Feedback ==> s.feedback.Some?) && s.loading == Idle
  }

  function Initial(topic: string, level: string): (s: SessionState)
    ensures ValidState(s)
  {
    SessionState(Topic, Idle, None, [], [], "", "", None, SyntaxTab, topic, level)
  }

  /** `handleReset` */
  function Reset(s: SessionState): SessionState {
    s.(step := Topic, vocabList := [], manualInputText := "", userSubmission := "",
       feedback := None, feedbackTab := SyntaxTab, error := None)
  }

  /** `handleGetTopics`, once the suggestion call has completed (the same
      code as `LegacySession.GotTopics`). */
  function GotTopics(s: SessionState, outcome: Outcome<seq<string>>): SessionState {
    match outcome
    case Ok(topics) => s.(loading := Idle, error := None, suggestedTopics := topics)
    case Fail => s.(loading := Idle, error := Some(TopicSuggestionFailed))
  }

  /** `confirmTopic` */
  function ConfirmedTopic(s: SessionState, t: string): SessionState {
    s.(topic := t, step := PrepMode)
  }

  /** `handleChooseAI`, once the generation call has completed. */
  function ChoseAI(s: SessionState, outcome: Outcome<seq<VocabularyItem>>): SessionState {
    match outcome
    case Ok(vocab) => s.(loading := Idle, error := None, vocabList := vocab, step := VocabReview)
    case Fail => s.(loading := Idle, error := Some(VocabGenerationFailed))
  }

  /** `handleChooseManual` */
  function ChoseManual(s: SessionState): SessionState {
    s.(step := ManualInput)
  }

  /** `handleManualInputSubmit` */
  function ManualSubmitted(s: SessionState): SessionState {
    if Trim(s.manualInputText) == [] then s
    else
      var words := Parse(s.manualInputText);
      if words == [] then s.(error := Some(NeedAtLeastOneWord))
      else s.(vocabList := ManualItems(words), step := VocabReview)
  }

  /** `handleStartWriting` */
  function StartedWriting(s: SessionState): SessionState {
    s.(step := Writing)
  }

  /** The evaluation request `handleSubmit` sends, if any (the same code as
      `LegacySession.SubmitRequest`). */
  function SubmitRequest(s: SessionState): Option<EvalRequest> {
    if Trim(s.userSubmission) == [] then None
    else Some(EvalRequest(s.topic, Words(s.vocabList), s.userSubmission))
  }

  /** `handleSubmit`, once the evaluation call has completed (the same code
      as `LegacySession.Submitted`). */
  function Submitted(s: SessionState, outcome: Outcome<WritingFeedback>): SessionState {
    if Trim(s.userSubmission) == [] then s
    else
      match outcome
      case Ok(f) => s.(loading := Idle, feedback := Some(f), step := Feedback)
      case Fail => s.(loading := Idle, error := Some(EvaluationFailed))
  }

  /** The back buttons: preparation back to the topic, the manual input and
      the word review back to the preparation, writing back to the review. */
  predicate BackLink(from: Step, target: Step) {
    || (from == PrepMode && target == Topic)
    || (from == ManualInput && target == PrepMode)
    || (from == VocabReview && target == PrepMode)
    || (from == Writing && target == VocabReview)
  }

  /** A back button: `setStep(target)`. */
  function WentBack(s: SessionState, target: Step): SessionState
    requires BackLink(s.step, target)
  {
    s.(step := target)
  }

  // ---------------------------------------------------------------------
  // The step machine

  /** What the learner, or the host around the component, can do. */
  datatype Event =
    | ClickReset
    | GetTopics(topics: Outcome<seq<string>>)
    | ConfirmTyped
    | ConfirmSuggested(choice: string)
    | ChooseAI(vocab: Outcome<seq<VocabularyItem>>)
    | ChooseManual
    | SubmitManual
    | StartWriting
    | Submit(evaluation: Outcome<WritingFeedback>)
    | Back(target: Step)
    | TypeTopic(newTopic: string)
    | TypeManual(newText: string)
    | TypeSubmission(newSubmission: string)
    | PickTab(tab: FeedbackTab)
    | CloseError
    | PickLevel(newLevel: string)

  /** Each step renders its own view, and an event is possible only when the
      view on screen offers its control.  The typed topic is confirmed by a
      button that stays disabled while the topic is blank; a suggestion is
      confirmed by clicking one of the suggestions shown; the error banner
      is shown only while there is an error; the level selector is always
      there. */
  predicate Enabled(s: SessionState, e: Event) {
    match e
    case ClickReset => s.step == Feedback
    case GetTopics(_) => s.step == Topic
    case ConfirmTyped => s.step == Topic && Trim(s.topic) != []
    case ConfirmSuggested(t) => s.step == Topic && t in s.suggestedTopics
    case ChooseAI(_) => s.step == PrepMode
    case ChooseManual => s.step == PrepMode
    case SubmitManual => s.step == ManualInput
    case StartWriting => s.step == VocabReview
    case Submit(_) => s.step == Writing
    case Back(target) => BackLink(s.step, target)
    case TypeTopic(_) => s.step == Topic
    case TypeManual(_) => s.step == ManualInput
    case TypeSubmission(_) => s.step == Writing
    case PickTab(_) => s.step == Feedback
    case CloseError => s.error.Some?
    case PickLevel(_) => true
  }

  /** The state after an event, through the handler its control calls. */
  function Apply(s: SessionState, e: Event): SessionState
    requires Enabled(s, e)
  {
    match e
    case ClickReset => Reset(s)
    case GetTopics(outcome) => GotTopics(s, outcome)
    case ConfirmTyped => ConfirmedTopic(s, s.topic)
    case ConfirmSuggested(t) => ConfirmedTopic(s, t)
    case ChooseAI(outcome) => ChoseAI(s, outcome)
    case ChooseManual => ChoseManual(s)
    case SubmitManual => ManualSubmitted(s)
    case StartWriting => StartedWriting(s)
    case Submit(outcome) => Submitted(s, outcome)
    case Back(target) => WentBack(s, target)
    case TypeTopic(t) => s.(topic := t)
    case TypeManual(text) => s.(manualInputText := text)
    case TypeSubmission(text) => s.(userSubmission := text)
    case PickTab(tab) => s.(feedbackTab := tab)
    case CloseError => s.(error := None)
    case PickLevel(l) => s.(level := l)
  }

  /** A sequence of events from `s`, or `None` when one of them is not
      offered at the point it comes. */
  function Run(s: SessionState, es: seq<Event>): Option<SessionState>
    decreases |es|
  {
    if es == [] then Some(s)
    else if Enabled(s, es[0]) then Run(Apply(s, es[0]), es[1..])
    else None
  }

  // ---------------------------------------------------------------------
  // Properties of the transitions

  /** Every event keeps the session valid. */
  lemma {:induction false} ApplyKeepsValid(s: SessionState, e: Event)
    requires ValidState(s) && Enabled(s, e)
    ensures ValidState(Apply(s, e))
  {
  }

  /** ... and so does every run of events. */
  lemma {:induction false} RunKeepsValid(s: SessionState, es: seq<Event>)
    requires ValidState(s) && Run(s, es).Some?
    ensures ValidState(Run(s, es).value)
    decreases |es|
  {
    if es != [] {
      ApplyKeepsValid(s, es[0]);
      RunKeepsValid(Apply(s, es[0]), es[1..]);
    }
  }

  /** The only ways into the last three steps: the evaluation is reached
      from writing by a successful submit, writing from the review, and the
      review from the preparation, the manual input or back from writing. */
  lemma {:induction false} StepEntries(s: SessionState, e: Event)
    requires Enabled(s, e)
    ensures var r := Apply(s, e);
            && (r.step == Feedback && s.step != Feedback ==>
                  s.step == Writing && e.Submit? && e.evaluation.Ok?)
            && (r.step == Writing && s.step != Writing ==>
                  s.step == VocabReview && e == StartWriting)
            && (r.step == VocabReview && s.step != VocabReview ==>
                  || (s.step == PrepMode && e.ChooseAI?)
                  || (s.step == ManualInput && e == SubmitManual)
                  || (s.step == Writing && e == Back(VocabReview)))
  {
  }

  /** On the feedback step every event but the reset keeps the step, the
      evaluation, the words and the text. */
  lemma {:induction false} FeedbackLeftOnlyByReset(s: SessionState, e: Event)
    requires Enabled(s, e) && s.step == Feedback && e != ClickReset
    ensures var r := Apply(s, e);
            && r.step == Feedback && r.feedback == s.feedback
            && r.vocabList == s.vocabList && r.userSubmission == s.userSubmission
  {
  }

  /** Once the evaluation is shown it stays, with the words and the text it
      was made for, until the learner starts a new exercise. */
  lemma {:induction false} FeedbackStaysUntilReset(s: SessionState, es: seq<Event>)
    requires s.step == Feedback && Run(s, es).Some?
    requires forall k :: 0 <= k < |es| ==> es[k] != ClickReset
    ensures var r := Run(s, es).value;
            && r.step == Feedback && r.feedback == s.feedback
            && r.vocabList == s.vocabList && r.userSubmission == s.userSubmission
    decreases |es|
  {
    if es != [] {
      FeedbackLeftOnlyByReset(s, es[0]);
      var rest := es[1..];
      assert forall k :: 0 <= k < |rest| ==> rest[k] == es[k + 1];
      FeedbackStaysUntilReset(Apply(s, es[0]), rest);
    }
  }

  /** No run reaches the evaluation without a successful submit. */
  lemma {:induction false} FeedbackNeedsSubmit(s: SessionState, es: seq<Event>)
    requires s.step != Feedback && Run(s, es).Some? && Run(s, es).value.step == Feedback
    ensures exists k :: 0 <= k < |es| && es[k].Submit? && es[k].evaluation.Ok?
    decreases |es|
  {
    if es != [] {
      var next := Apply(s, es[0]);
      StepEntries(s, es[0]);
      if next.step != Feedback {
        var rest := es[1..];
        FeedbackNeedsSubmit(next, rest);
        var k :| 0 <= k < |rest| && rest[k].Submit? && rest[k].evaluation.Ok?;
        assert es[k + 1] == rest[k];
      } else {
        assert es[0].Submit? && es[0].evaluation.Ok?;
      }
    }
  }

  /** Reset discards all the progress of a session: what is left depends
      only on the topic, the level, the suggestions and the loading state. */
  lemma {:induction false} ResetForgetsProgress(s: SessionState, u: SessionState)
    requires s.topic == u.topic && s.level == u.level
    requires s.suggestedTopics == u.suggestedTopics && s.loading == u.loading
    ensures Reset(s) == Reset(u)
    ensures Reset(Reset(s)) == Reset(s)
    ensures ValidState(s) ==> Reset(s) == Initial(s.topic, s.level).(suggestedTopics := s.suggestedTopics)
  {
  }

  /** The three outcomes of submitting the typed-in words. */
  lemma {:induction false} ManualSubmitOutcomes(s: SessionState)
    ensures var text := s.manualInputText;
            var r := ManualSubmitted(s);
            && (AllWhitespace(text) ==> r == s)
            && (!AllWhitespace(text) && Blank(text) ==>
                  r == s.(error := Some(NeedAtLeastOneWord)))
            && (!Blank(text) ==>
                  && r == s.(vocabList := r.vocabList, step := VocabReview)
                  && Words(r.vocabList) == Parse(text)
                  && |r.vocabList| == LiveCount(text) > 0
                  && forall k :: 0 <= k < |r.vocabList| ==>
                       CleanToken(r.vocabList[k].word) && r.vocabList[k].pos == "Custom"
                       && r.vocabList[k].definition == "User defined vocabulary")
  {
    var text := s.manualInputText;
    var _ := TrimFacts(text);
    ParseEmptyIff(text);
    ParseTokensClean(text);
    LiveCountMatchesParse(text);
    if !Blank(text) {
      assert !AllWhitespace(text);
    }
  }

  /** A blank submission sends nothing and changes nothing; otherwise the
      request carries the topic, the target words in list order and the
      text, and a failed evaluation keeps the text for a retry (the same
      statement as `LegacySession.SubmitOutcomes`). */
  lemma {:induction false} SubmitOutcomes(s: SessionState, outcome: Outcome<WritingFeedback>)
    ensures SubmitRequest(s).None? <==> AllWhitespace(s.userSubmission)
    ensures SubmitRequest(s).None? ==> Submitted(s, outcome) == s
    ensures SubmitRequest(s).Some? ==>
              && SubmitRequest(s).value.topic == s.topic
              && |SubmitRequest(s).value.targetVocab| == |s.vocabList|
              && (forall k :: 0 <= k < |s.vocabList| ==>
                    SubmitRequest(s).value.targetVocab[k] == s.vocabList[k].word)
              && SubmitRequest(s).value.submission == s.userSubmission
    ensures SubmitRequest(s).Some? && outcome.Ok? ==>
              Submitted(s, outcome).step == Feedback && Submitted(s, outcome).feedback == Some(outcome.value)
    ensures SubmitRequest(s).Some? && outcome.Fail? ==>
              && Submitted(s, outcome).step == s.step && Submitted(s, outcome).feedback == s.feedback
              && Submitted(s, outcome).error == Some(EvaluationFailed)
              && Submitted(s, outcome).userSubmission == s.userSubmission
  {
    var _ := TrimFacts(s.userSubmission);
  }

  /** Unlike the generation handler, the submit handler does not clear an
      earlier error: a message shown before a successful evaluation stays. */
  lemma {:induction false} SubmitKeepsError(s: SessionState, f: WritingFeedback, vs: Outcome<seq<VocabularyItem>>)
    requires !AllWhitespace(s.userSubmission)
    ensures Submitted(s, Ok(f)).error == s.error
    ensures vs.Ok? ==> ChoseAI(s, vs).error == None
  {
    var _ := TrimFacts(s.userSubmission);
  }

  /** Moving between steps never touches the words, the typed-in text or
      the submission, so going back and forth loses nothing. */
  lemma {:induction false} NavigationKeepsWork(s: SessionState, t: string, target: Step)
    requires BackLink(s.step, target)
    ensures var moved := [ConfirmedTopic(s, t), ChoseManual(s), StartedWriting(s), WentBack(s, target)];
            forall k :: 0 <= k < |moved| ==>
              && moved[k].vocabList == s.vocabList
              && moved[k].manualInputText == s.manualInputText
              && moved[k].userSubmission == s.userSubmission
              && moved[k].feedback == s.feedback
    ensures StartedWriting(WentBack(StartedWriting(s), VocabReview)) == StartedWriting(s)
  {
  }

  /** The whole typed-in path: the evaluation is requested for the
      confirmed topic, with the typed words in the order they were typed. */
  lemma {:induction false} ManualPathRequest(s: SessionState, t: string, text: string, essay: string)
    requires !Blank(text) && !AllWhitespace(essay)
    ensures var typed := ChoseManual(ConfirmedTopic(s, t)).(manualInputText := text);
            var ready := StartedWriting(ManualSubmitted(typed)).(userSubmission := essay);
            && ready.step == Writing
            && SubmitRequest(ready) == Some(EvalRequest(t, Parse(text), essay))
  {
    var typed := ChoseManual(ConfirmedTopic(s, t)).(manualInputText := text);
    ManualSubmitOutcomes(typed);
    var _ := TrimFacts(essay);
  }

  // ---------------------------------------------------------------------
  // The component

  class ExerciseSession {
    var step: Step
    var loading: LoadingState
    var error: Option<SessionError>
    var suggestedTopics: seq<string>
    var vocabList: seq<VocabularyItem>
    var manualInputText: string
    var userSubmission: string
    var feedback: Option<WritingFeedback>
    var feedbackTab: FeedbackTab
    var topic: string
    var level: string

    function Snapshot(): SessionState
      reads this
    {
      SessionState(step, loading, error, suggestedTopics, vocabList,
                   manualInputText, userSubmission, feedback, feedbackTab, topic, level)
    }

    ghost predicate Valid()
      reads this
    {
      ValidState(Snapshot())
    }

    constructor(topic0: string, level0: string)
      ensures Snapshot() == Initial(topic0, level0)
      ensures Valid()
    {
      step := Topic;
      loading := Idle;
      error := None;
      suggestedTopics := [];
      vocabList := [];
      manualInputText := "";
      userSubmission := "";
      feedback := None;
      feedbackTab := SyntaxTab;
      topic := topic0;
      level := level0;
    }

    /** The "new exercise" button of the feedback view. */
    method HandleReset()
      requires Valid() && step == Feedback
      modifies this
      ensures Snapshot() == Apply(old(Snapshot()), ClickReset) && Valid()
    {
      step := Topic;
      vocabList := [];
      manualInputText := "";
      userSubmission := "";
      feedback := None;
      feedbackTab := SyntaxTab;
      error := None;
    }

    /** Asks for suggestions around the current topic; `hint` is the
        topic sent with the request. */
    method HandleGetTopics(outcome: Outcome<seq<string>>) returns (hint: string)
      requires Valid() && step == Topic
      modifies this
      ensures hint == old(topic)
      ensures Snapshot() == Apply(old(Snapshot()), GetTopics(outcome)) && Valid()
    {
      loading := GeneratingTopics;
      error := None;
      hint := topic;
      match outcome {
        case Ok(topics) => suggestedTopics := topics;
        case Fail => error := Some(TopicSuggestionFailed);
      }
      loading := Idle;
    }

    /** The confirm button beside the topic box, enabled once the box is
        not blank: `confirmTopic(topic)`. */
    method ConfirmTypedTopic()
      requires Valid() && step == Topic && Trim(topic) != []
      modifies this
      ensures Snapshot() == Apply(old(Snapshot()), ConfirmTyped) && Valid()
    {
      step := PrepMode;
    }

    /** A click on one of the suggested topics: `confirmTopic(t)`. */
    method ConfirmSuggestedTopic(t: string)
      requires Valid() && step == Topic && t in suggestedTopics
      modifies this
      ensures Snapshot() == Apply(old(Snapshot()), ConfirmSuggested(t)) && Valid()
    {
      topic := t;
      step := PrepMode;
    }

    /** Generates words for the current topic at the level selected at the
        time of the click. */
    method HandleChooseAI(outcome: Outcome<seq<VocabularyItem>>) returns (request: VocabRequest)
      requires Valid() && step == PrepMode
      modifies this
      ensures request == VocabRequest(old(topic), old(level))
      ensures Snapshot() == Apply(old(Snapshot()), ChooseAI(outcome)) && Valid()
    {
      loading := GeneratingVocab;
      error := None;
      request := VocabRequest(topic, level);
      match outcome {
        case Ok(vocab) =>
          vocabList := vocab;
          step := VocabReview;
        case Fail =>
          error := Some(VocabGenerationFailed);
      }
      loading := Idle;
    }

    method HandleChooseManual()
      requires Valid() && step == PrepMode
      modifies this
      ensures Snapshot() == Apply(old(Snapshot()), ChooseManual) && Valid()
    {
      step := ManualInput;
    }

    method HandleManualInputSubmit()
      requires Valid() && step == ManualInput
      modifies this
      ensures Snapshot() == Apply(old(Snapshot()), SubmitManual) && Valid()
    {
      if Trim(manualInputText) == [] {
        return;
      }
      var words := Parse(manualInputText);
      if words == [] {
        error := Some(NeedAtLeastOneWord);
        return;
      }
      vocabList := ManualItems(words);
      step := VocabReview;
    }

    method HandleStartWriting()
      requires Valid() && step == VocabReview
      modifies this
      ensures Snapshot() == Apply(old(Snapshot()), StartWriting) && Valid()
    {
      step := Writing;
    }

    /** Sends the submission for evaluation unless it is blank; `request`
        is what was sent. */
    method HandleSubmit(outcome: Outcome<WritingFeedback>) returns (request: Option<EvalRequest>)
      requires Valid() && step == Writing
      modifies this
      ensures request == SubmitRequest(old(Snapshot()))
      ensures Snapshot() == Apply(old(Snapshot()), Submit(outcome)) && Valid()
    {
      if Trim(userSubmission) == [] {
        return None;
      }
      loading := Evaluating;
      request := Some(EvalRequest(topic, Words(vocabList), userSubmission));
      match outcome {
        case Ok(f) =>
          feedback := Some(f);
          step := Feedback;
        case Fail =>
          error := Some(EvaluationFailed);
      }
      loading := Idle;
    }

    /** The back button of the current view. */
    method GoBack(target: Step)
      requires Valid() && BackLink(step, target)
      modifies this
      ensures Snapshot() == Apply(old(Snapshot()), Back(target)) && Valid()
    {
      step := target;
    }

    /** The topic box, a controlled input bound to the host's topic. */
    method EditTopic(t: string)
      requires Valid() && step == Topic
      modifies this
      ensures Snapshot() == Apply(old(Snapshot()), TypeTopic(t)) && Valid()
    {
      topic := t;
    }

    method EditManualInput(text: string)
      requires Valid() && step == ManualInput
      modifies this
      ensures Snapshot() == Apply(old(Snapshot()), TypeManual(text)) && Valid()
    {
      manualInputText := text;
    }

    method EditSubmission(text: string)
      requires Valid() && step == Writing
      modifies this
      ensures Snapshot() == Apply(old(Snapshot()), TypeSubmission(text)) && Valid()
    {
      userSubmission := text;
    }

    method SelectFeedbackTab(tab: FeedbackTab)
      requires Valid() && step == Feedback
      modifies this
      ensures Snapshot() == Apply(old(Snapshot()), PickTab(tab)) && Valid()
    {
      feedbackTab := tab;
    }

    /** The close button of the error banner. */
    method DismissError()
      requires Valid() && error.Some?
      modifies this
      ensures Snapshot() == Apply(old(Snapshot()), CloseError) && Valid()
    {
      error := None;
    }

    /** The host's level selector, which the side menu offers at any time. */
    method SetLevel(l: string)
      requires Valid()
      modifies this
      ensures Snapshot() == Apply(old(Snapshot()), PickLevel(l)) && Valid()
    {
      level := l;
    }

    /** The count shown beside the manual input box. */
    function RecognisedCount(): (n: nat)
      reads this
      ensures n == |Parse(manualInputText)|
    {
      LiveCountMatchesParse(manualInputText);
      LiveCount(manualInputText)
    }

    /** `checkVocabUsed(word)`: whether the regular expression built from
        `word` finds a match in the current submission (the same code as
        `LegacySession.LegacyExerciseSession.CheckVocabUsed`).  `RegexTest`
        reads the word literally, which is what the unescaped pattern does
        for a `LiteralWord`. */
    function CheckVocabUsed(word: string): (used: bool)
      reads this
      ensures used <==> RegexTest(word, userSubmission)
    {
      UsedIsRegexTest(word, userSubmission);
      Used(word, userSubmission)
    }
  }
}
