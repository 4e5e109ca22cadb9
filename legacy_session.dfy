/** The older four-step writing session (ExerciseArea.tsx at the repository
    root): confirming a topic generates the target words at once, then the
    learner writes and reads the evaluation.  Pure transitions on a
    snapshot, the events each step's view offers, and the class
    `LegacyExerciseSession` that updates the same fields in place.  Its
    suggestion, submit and word-check parts are the same code as in the
    six-step `Session`. */
module LegacySession {
  import opened Types
  import opened Text
  import opened VocabMatch

  datatype Step = Topic | Vocab | Writing | Feedback

  datatype SessionState = SessionState(
    step: Step,
    loading: LoadingState,
    error: Option<SessionError>,
    suggestedTopics: seq<string>,
    vocabList: seq<VocabularyItem>,
    userSubmission: string,
    feedback: Option<WritingFeedback>,
    topic: string,
    level: string)

  /** The feedback step always has an evaluation to show, and no call is
      left pending once a handler has finished (the same invariant as
      `Session.ValidState`). */
  predicate ValidState(s: SessionState) {
    (s.step == Feedback ==> s.feedback.Some?) && s.loading == Idle
  }

  function Initial(topic: string, level: string): (s: SessionState)
    ensures ValidState(s)
  {
    SessionState(Topic, Idle, None, [], [], "", None, topic, level)
  }

  /** `handleReset` */
  function Reset(s: SessionState): SessionState {
    s.(step := Topic, vocabList := [], userSubmission := "", feedback := None, error := None)
  }

  /** `handleGetTopics`, once the suggestion call has completed (the same
      code as `Session.GotTopics`). */
  function GotTopics(s: SessionState, outcome: Outcome<seq<string>>): SessionState {
    match outcome
    case Ok(topics) => s.(loading := Idle, error := None, suggestedTopics := topics)
    case Fail => s.(loading := Idle, error := Some(TopicSuggestionFailed))
  }

  /** `handleGenerateVocab(selectedTopic)`, once the generation call has completed. */
  function GeneratedVocab(s: SessionState, outcome: Outcome<seq<VocabularyItem>>): SessionState {
    match outcome
    case Ok(vocab) => s.(loading := Idle, error := None, vocabList := vocab, step := Vocab)
    case Fail => s.(loading := Idle, error := Some(VocabGenerationFailed))
  }

  /** `confirmTopic(t)`: store the topic, then generate words for it. */
  function ConfirmedTopic(s: SessionState, t: string, outcome: Outcome<seq<VocabularyItem>>): SessionState {
    GeneratedVocab(s.(topic := t), outcome)
  }

  /** `handleStartWriting` */
  function StartedWriting(s: SessionState): SessionState {
    s.(step := Writing)
  }

  /** The evaluation request `handleSubmit` sends, if any (the same code as
      `Session.SubmitRequest`). */
  function SubmitRequest(s: SessionState): Option<EvalRequest> {
    if Trim(s.userSubmission) == [] then None
    else Some(EvalRequest(s.topic, Words(s.vocabList), s.userSubmission))
  }

  /** `handleSubmit`, once the evaluation call has completed (the same code
      as `Session.Submitted`). */
  function Submitted(s: SessionState, outcome: Outcome<WritingFeedback>): SessionState {
    if Trim(s.userSubmission) == [] then s
    else
      match outcome
      case Ok(f) => s.(loading := Idle, feedback := Some(f), step := Feedback)
      case Fail => s.(loading := Idle, error := Some(EvaluationFailed))
  }

  /** The back buttons: the word list back to the topic, writing back to
      the word list. */
  predicate BackLink(from: Step, target: Step) {
    || (from == Vocab && target == Topic)
    || (from == Writing && target == Vocab)
  }

  /** A back button: `setStep(target)`. */
  function WentBack(s: SessionState, target: Step): SessionState
    requires BackLink(s.step, target)
  {
    s.(step := target)
  }

  // ---------------------------------------------------------------------
  // The step machine

  /** What the learner, or the host around the component, can do.  Both
      confirmations carry the outcome of the generation call they start. */
  datatype Event =
    | ClickReset
    | GetTopics(topics: Outcome<seq<string>>)
    | ConfirmTyped(vocab: Outcome<seq<VocabularyItem>>)
    | ConfirmSuggested(choice: string, vocab: Outcome<seq<VocabularyItem>>)
    | StartWriting
    | Submit(evaluation: Outcome<WritingFeedback>)
    | Back(target: Step)
    | TypeTopic(newTopic: string)
    | TypeSubmission(newSubmission: string)
    | CloseError
    | PickLevel(newLevel: string)

  /** Each step renders its own view, and an event is possible only when the
      view on screen offers its control: the confirm button beside the topic
      box is disabled while the box is blank, a suggestion is one of those
      shown, the error banner is there only while there is an error, and the
      level selector is always there. */
  predicate Enabled(s: SessionState, e: Event) {
    match e
    case ClickReset => s.step == Feedback
    case GetTopics(_) => s.step == Topic
    case ConfirmTyped(_) => s.step == Topic && Trim(s.topic) != []
    case ConfirmSuggested(t, _) => s.step == Topic && t in s.suggestedTopics
    case StartWriting => s.step == Vocab
    case Submit(_) => s.step == Writing
    case Back(target) => BackLink(s.step, target)
    case TypeTopic(_) => s.step == Topic
    case TypeSubmission(_) => s.step == Writing
    case CloseError => s.error.Some?
    case PickLevel(_) => true
  }

  /** The state after an event, through the handler its control calls. */
  function Apply(s: SessionState, e: Event): SessionState
    requires Enabled(s, e)
  {
    match e
    case ClickReset => Reset(s)
    case GetTopics(outcome) => GotTopics(s, outcome)
    case ConfirmTyped(outcome) => ConfirmedTopic(s, s.topic, outcome)
    case ConfirmSuggested(t, outcome) => ConfirmedTopic(s, t, outcome)
    case StartWriting => StartedWriting(s)
    case Submit(outcome) => Submitted(s, outcome)
    case Back(target) => WentBack(s, target)
    case TypeTopic(t) => s.(topic := t)
    case TypeSubmission(text) => s.(userSubmission := text)
    case CloseError => s.(error := None)
    case PickLevel(l) => s.(level := l)
  }

  /** A sequence of events from `s`, or `None` when one of them is not
      offered at the point it comes. */
  function Run(s: SessionState, es: seq<Event>): Option<SessionState>
    decreases |es|
  {
    if es == [] then Some(s)
    else if Enabled(s, es[0]) then Run(Apply(s, es[0]), es[1..])
    else None
  }

  // ---------------------------------------------------------------------
  // Properties of the transitions

  /** Every event keeps the session valid. */
  lemma {:induction false} ApplyKeepsValid(s: SessionState, e: Event)
    requires ValidState(s) && Enabled(s, e)
    ensures ValidState(Apply(s, e))
  {
  }

  /** ... and so does every run of events. */
  lemma {:induction false} RunKeepsValid(s: SessionState, es: seq<Event>)
    requires ValidState(s) && Run(s, es).Some?
    ensures ValidState(Run(s, es).value)
    decreases |es|
  {
    if es != [] {
      ApplyKeepsValid(s, es[0]);
      RunKeepsValid(Apply(s, es[0]), es[1..]);
    }
  }

  /** The only ways into the last three steps: the evaluation is reached
      from writing by a successful submit, writing from the word list, and
      the word list from the topic by a successful generation or back from
      writing. */
  lemma {:induction false} StepEntries(s: SessionState, e: Event)
    requires Enabled(s, e)
    ensures var r := Apply(s, e);
            && (r.step == Feedback && s.step != Feedback ==>
                  s.step == Writing && e.Submit? && e.evaluation.Ok?)
            && (r.step == Writing && s.step != Writing ==>
                  s.step == Vocab && e == StartWriting)
            && (r.step == Vocab && s.step != Vocab ==>
                  || (s.step == Topic && (e.ConfirmTyped? || e.ConfirmSuggested?) && e.vocab.Ok?)
                  || (s.step == Writing && e == Back(Vocab)))
  {
  }

  /** On the feedback step every event but the reset keeps the step, the
      evaluation, the words and the text. */
  lemma {:induction false} FeedbackLeftOnlyByReset(s: SessionState, e: Event)
    requires Enabled(s, e) && s.step == Feedback && e != ClickReset
    ensures var r := Apply(s, e);
            && r.step == Feedback && r.feedback == s.feedback
            && r.vocabList == s.vocabList && r.userSubmission == s.userSubmission
  {
  }

  /** Once the evaluation is shown it stays, with the words and the text it
      was made for, until the learner starts a new exercise. */
  lemma {:induction false} FeedbackStaysUntilReset(s: SessionState, es: seq<Event>)
    requires s.step == Feedback && Run(s, es).Some?
    requires forall k :: 0 <= k < |es| ==> es[k] != ClickReset
    ensures var r := Run(s, es).value;
            && r.step == Feedback && r.feedback == s.feedback
            && r.vocabList == s.vocabList && r.userSubmission == s.userSubmission
    decreases |es|
  {
    if es != [] {
      FeedbackLeftOnlyByReset(s, es[0]);
      var rest := es[1..];
      assert forall k :: 0 <= k < |rest| ==> rest[k] == es[k + 1];
      FeedbackStaysUntilReset(Apply(s, es[0]), rest);
    }
  }

  /** No run reaches the evaluation without a successful submit. */
  lemma {:induction false} FeedbackNeedsSubmit(s: SessionState, es: seq<Event>)
    requires s.step != Feedback && Run(s, es).Some? && Run(s, es).value.step == Feedback
    ensures exists k :: 0 <= k < |es| && es[k].Submit? && es[k].evaluation.Ok?
    decreases |es|
  {
    if es != [] {
      var next := Apply(s, es[0]);
      StepEntries(s, es[0]);
      if next.step != Feedback {
        var rest := es[1..];
        FeedbackNeedsSubmit(next, rest);
        var k :| 0 <= k < |rest| && rest[k].Submit? && rest[k].evaluation.Ok?;
        assert es[k + 1] == rest[k];
      } else {
        assert es[0].Submit? && es[0].evaluation.Ok?;
      }
    }
  }

  /** Confirming a topic generates words for that topic, whatever topic was
      stored before; a failed generation stays on the current step with an
      error, keeping the old words. */
  lemma {:induction false} ConfirmUsesSelectedTopic(s: SessionState, t: string, outcome: Outcome<seq<VocabularyItem>>)
    ensures ConfirmedTopic(s, t, outcome).topic == t
    ensures outcome.Ok? ==>
              ConfirmedTopic(s, t, outcome).step == Vocab
              && ConfirmedTopic(s, t, outcome).vocabList == outcome.value
              && ConfirmedTopic(s, t, outcome).error == None
    ensures outcome.Fail? ==>
              ConfirmedTopic(s, t, outcome).step == s.step
              && ConfirmedTopic(s, t, outcome).vocabList == s.vocabList
              && ConfirmedTopic(s, t, outcome).error == Some(VocabGenerationFailed)
    ensures ConfirmedTopic(s, t, outcome).loading == Idle
    ensures ConfirmedTopic(s, t, outcome) == GeneratedVocab(s.(topic := t), outcome)
  {
  }

  /** Reset discards the session's progress: what is left depends only on
      the topic, the level, the suggestions and the loading state. */
  lemma {:induction false} ResetForgetsProgress(s: SessionState, u: SessionState)
    requires s.topic == u.topic && s.level == u.level
    requires s.suggestedTopics == u.suggestedTopics && s.loading == u.loading
    ensures Reset(s) == Reset(u)
    ensures Reset(Reset(s)) == Reset(s)
    ensures ValidState(s) ==> Reset(s) == Initial(s.topic, s.level).(suggestedTopics := s.suggestedTopics)
  {
  }

  /** A blank submission sends nothing and changes nothing; otherwise the
      request carries the topic, the target words in list order and the
      text; success shows the feedback, failure keeps the step, the old
      feedback and the text (the same statement as `Session.SubmitOutcomes`). */
  lemma {:induction false} SubmitOutcomes(s: SessionState, outcome: Outcome<WritingFeedback>)
    ensures SubmitRequest(s).None? <==> AllWhitespace(s.userSubmission)
    ensures SubmitRequest(s).None? ==> Submitted(s, outcome) == s
    ensures SubmitRequest(s).Some? ==>
              && SubmitRequest(s).value.topic == s.topic
              && |SubmitRequest(s).value.targetVocab| == |s.vocabList|
              && (forall k :: 0 <= k < |s.vocabList| ==>
                    SubmitRequest(s).value.targetVocab[k] == s.vocabList[k].word)
              && SubmitRequest(s).value.submission == s.userSubmission
    ensures SubmitRequest(s).Some? && outcome.Ok? ==>
              Submitted(s, outcome).step == Feedback && Submitted(s, outcome).feedback == Some(outcome.value)
    ensures SubmitRequest(s).Some? && outcome.Fail? ==>
              && Submitted(s, outcome).step == s.step && Submitted(s, outcome).feedback == s.feedback
              && Submitted(s, outcome).error == Some(EvaluationFailed)
              && Submitted(s, outcome).userSubmission == s.userSubmission
  {
    var _ := TrimFacts(s.userSubmission);
  }

  /** The whole path: the evaluation is requested for the confirmed topic
      with the generated words in the order they came. */
  lemma {:induction false} GeneratedPathRequest(s: SessionState, t: string, vocab: seq<VocabularyItem>, essay: string)
    requires !AllWhitespace(essay)
    ensures var ready := StartedWriting(ConfirmedTopic(s, t, Ok(vocab))).(userSubmission := essay);
            && ready.step == Writing
            && SubmitRequest(ready) == Some(EvalRequest(t, Words(vocab), essay))
  {
    var _ := TrimFacts(essay);
  }

  /** The back buttons change only the step. */
  lemma {:induction false} BackKeepsWork(s: SessionState, target: Step)
    requires BackLink(s.step, target)
    ensures WentBack(s, target).(step := s.step) == s
    ensures StartedWriting(WentBack(StartedWriting(s), Vocab)) == StartedWriting(s)
  {
  }

  // ---------------------------------------------------------------------
  // The component

  class LegacyExerciseSession {
    var step: Step
    var loading: LoadingState
    var error: Option<SessionError>
    var suggestedTopics: seq<string>
    var vocabList: seq<VocabularyItem>
    var userSubmission: string
    var feedback: Option<WritingFeedback>
    var topic: string
    var level: string

    function Snapshot(): SessionState
      reads this
    {
      SessionState(step, loading, error, suggestedTopics, vocabList, userSubmission, feedback, topic, level)
    }

    ghost predicate Valid()
      reads this
    {
      ValidState(Snapshot())
    }

    constructor(topic0: string, level0: string)
      ensures Snapshot() == Initial(topic0, level0)
      ensures Valid()
    {
      step := Topic;
      loading := Idle;
      error := None;
      suggestedTopics := [];
      vocabList := [];
      userSubmission := "";
      feedback := None;
      topic := topic0;
      level := level0;
    }

    /** The "new exercise" button of the feedback view. */
    method HandleReset()
      requires Valid() && step == Feedback
      modifies this
      ensures Snapshot() == Apply(old(Snapshot()), ClickReset) && Valid()
    {
      step := Topic;
      vocabList := [];
      userSubmission := "";
      feedback := None;
      error := None;
    }

    /** Asks for suggestions around the current topic; `hint` is the
        topic sent with the request. */
    method HandleGetTopics(outcome: Outcome<seq<string>>) returns (hint: string)
      requires Valid() && step == Topic
      modifies this
      ensures hint == old(topic)
      ensures Snapshot() == Apply(old(Snapshot()), GetTopics(outcome)) && Valid()
    {
      loading := GeneratingTopics;
      error := None;
      hint := topic;
      match outcome {
        case Ok(topics) => suggestedTopics := topics;
        case Fail => error := Some(TopicSuggestionFailed);
      }
      loading := Idle;
    }

    /** Generates words for `selectedTopic` at the level selected at the
        time of the call; `request` is what was sent. */
    method HandleGenerateVocab(selectedTopic: string, outcome: Outcome<seq<VocabularyItem>>)
      returns (request: VocabRequest)
      requires Valid() && step == Topic
      modifies this
      ensures request == VocabRequest(selectedTopic, old(level))
      ensures Snapshot() == GeneratedVocab(old(Snapshot()), outcome) && Valid()
    {
      loading := GeneratingVocab;
      error := None;
      request := VocabRequest(selectedTopic, level);
      match outcome {
        case Ok(vocab) =>
          vocabList := vocab;
          step := Vocab;
        case Fail =>
          error := Some(VocabGenerationFailed);
      }
      loading := Idle;
    }

    /** The confirm button beside the topic box, enabled once the box is
        not blank: `confirmTopic(topic)`. */
    method ConfirmTypedTopic(outcome: Outcome<seq<VocabularyItem>>) returns (request: VocabRequest)
      requires Valid() && step == Topic && Trim(topic) != []
      modifies this
      ensures request == VocabRequest(old(topic), old(level))
      ensures Snapshot() == Apply(old(Snapshot()), ConfirmTyped(outcome)) && Valid()
    {
      request := HandleGenerateVocab(topic, outcome);
    }

    /** A click on one of the suggested topics: `confirmTopic(t)`. */
    method ConfirmSuggestedTopic(t: string, outcome: Outcome<seq<VocabularyItem>>) returns (request: VocabRequest)
      requires Valid() && step == Topic && t in suggestedTopics
      modifies this
      ensures request == VocabRequest(t, old(level))
      ensures Snapshot() == Apply(old(Snapshot()), ConfirmSuggested(t, outcome)) && Valid()
    {
      topic := t;
      request := HandleGenerateVocab(t, outcome);
    }

    method HandleStartWriting()
      requires Valid() && step == Vocab
      modifies this
      ensures Snapshot() == Apply(old(Snapshot()), StartWriting) && Valid()
    {
      step := Writing;
    }

    /** Sends the submission for evaluation unless it is blank; `request`
        is what was sent. */
    method HandleSubmit(outcome: Outcome<WritingFeedback>) returns (request: Option<EvalRequest>)
      requires Valid() && step == Writing
      modifies this
      ensures request == SubmitRequest(old(Snapshot()))
      ensures Snapshot() == Apply(old(Snapshot()), Submit(outcome)) && Valid()
    {
      if Trim(userSubmission) == [] {
        return None;
      }
      loading := Evaluating;
      request := Some(EvalRequest(topic, Words(vocabList), userSubmission));
      match outcome {
        case Ok(f) =>
          feedback := Some(f);
          step := Feedback;
        case Fail =>
          error := Some(EvaluationFailed);
      }
      loading := Idle;
    }

    /** The back button of the current view. */
    method GoBack(target: Step)
      requires Valid() && BackLink(step, target)
      modifies this
      ensures Snapshot() == Apply(old(Snapshot()), Back(target)) && Valid()
    {
      step := target;
    }

    /** The topic box, a controlled input bound to the host's topic. */
    method EditTopic(t: string)
      requires Valid() && step == Topic
      modifies this
      ensures Snapshot() == Apply(old(Snapshot()), TypeTopic(t)) && Valid()
    {
      topic := t;
    }

    method EditSubmission(text: string)
      requires Valid() && step == Writing
      modifies this
      ensures Snapshot() == Apply(old(Snapshot()), TypeSubmission(text)) && Valid()
    {
      userSubmission := text;
    }

    /** The close button of the error banner. */
    method DismissError()
      requires Valid() && error.Some?
      modifies this
      ensures Snapshot() == Apply(old(Snapshot()), CloseError) && Valid()
    {
      error := None;
    }

    /** The host's level selector, which the side menu offers at any time. */
    method SetLevel(l: string)
      requires Valid()
      modifies this
      ensures Snapshot() == Apply(old(Snapshot()), PickLevel(l)) && Valid()
    {
      level := l;
    }

    /** `checkVocabUsed(word)`, with the same meaning as in the six-step
        session (the same code as `Session.ExerciseSession.CheckVocabUsed`).
        `RegexTest` reads the word literally, which is what the unescaped
        pattern does for a `LiteralWord`. */
    function CheckVocabUsed(word: string): (used: bool)
      reads this
      ensures used <==> RegexTest(word, userSubmission)
    {
      UsedIsRegexTest(word, userSubmission);
      Used(word, userSubmission)
    }
  }
}
