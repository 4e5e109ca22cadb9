/** Data model shared by the writing session and the progress dashboard
    (the records of types.ts), plus the shape of a completed service call. */
module Types {

  datatype Option<+T> = None | Some(value: T)

  /** What an awaited service call produced: a value, or a thrown error. */
  datatype Outcome<+T> = Ok(value: T) | Fail

  /** One target word with its part of speech and a short definition. */
  datatype VocabularyItem = VocabularyItem(word: string, pos: string, definition: string)

  datatype VocabUsage = VocabUsage(word: string, usedCorrectly: bool, comment: Option<string>)
  datatype Collocation = Collocation(original: string, betterAlternative: string, reason: string)
  datatype Correction = Correction(original: string, correction: string, reason: string)

  datatype SyntaxReview = SyntaxReview(score: real, comment: string, examples: seq<string>)
  datatype LexiconReview = LexiconReview(
    score: real, comment: string,
    vocabUsageCheck: seq<VocabUsage>, collocationCorrections: seq<Collocation>)
  datatype GrammarReview = GrammarReview(score: real, comment: string, corrections: seq<Correction>)

  /** The rubric returned by the evaluation service. */
  datatype WritingFeedback = WritingFeedback(
    overallScore: real,
    syntax: SyntaxReview,
    lexicon: LexiconReview,
    grammar: GrammarReview,
    generalAdvice: string)

  /** Today's practice counters, as handed to the dashboard by its host. */
  datatype DailyProgress = DailyProgress(date: string, secondsActive: int, goalSeconds: int, completed: bool)

  datatype LoadingState = Idle | GeneratingTopics | GeneratingVocab | Evaluating | Error

  /** The user-facing error slot's possible contents, one per message the session shows. */
  datatype SessionError =
    | TopicSuggestionFailed   // "could not fetch suggested topics"
    | VocabGenerationFailed   // "vocabulary generation failed"
    | NeedAtLeastOneWord      // "enter at least one word"
    | EvaluationFailed        // "evaluation failed, please retry"

  /** The arguments of a vocabulary-generation request (besides the API key). */
  datatype VocabRequest = VocabRequest(topic: string, level: string)

  /** The arguments of an evaluation request (besides the API key). */
  datatype EvalRequest = EvalRequest(topic: string, targetVocab: seq<string>, submission: string)

  /** The words of a vocabulary list, in list order (`vocabList.map(v => v.word)`). */
  function Words(items: seq<VocabularyItem>): (ws: seq<string>)
    ensures |ws| == |items|
    ensures forall k :: 0 <= k < |items| ==> ws[k] == items[k].word
  {
    if items == [] then [] else [items[0].word] + Words(items[1..])
  }
}
