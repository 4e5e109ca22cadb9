# Writing practice: session controller and progress statistics

This project models the logic of a writing-practice app for English learners.
A practice session has six steps:

1. pick a topic;
2. choose whether the target words are generated or typed in;
3. (typed-in only) enter the words;
4. review the words;
5. write a text;
6. read an evaluation of the text, under syntax, lexicon and grammar tabs.

The model covers three parts of the app:

- the session controller of that six-step flow;
- an older four-step version of it, in which confirming a topic generates the words at once;
- the progress dashboard: the current streak, the daily goal, the minutes still to practise today, and the month calendar of completed days.

Modules:

- `Types`: the records of the app: vocabulary items, the evaluation, the daily progress and the loading state. The call outcome `Outcome<T> = Ok(T) | Fail` stands for an awaited service call.
- `Text`: the white space that JavaScript's `trim` removes, and ASCII `\w` and case folding as a non-Unicode regular expression sees them.
- `ManualVocab`: the parser for typed-in words. It splits on runs of newline, comma and fullwidth comma, trims every piece and drops the empty ones. It also models the live "recognised" count beside the input box.
- `VocabMatch`: the live "word used" check, i.e. the regular expression `\b<word>\w*\b` with the `i` flag. The check is modelled by an executable scan (`Used`) and proved equal, for every word and text, to the regular expression's meaning (`RegexTest`).
- `Session`: the six-step controller. Each handler is a pure transition on a snapshot (`SessionState`). Each step renders its own view, so `Event` lists the controls, `Enabled` says which of them the view on screen offers, and `Apply` and `Run` follow one event or a sequence of them. The class `ExerciseSession` holds the same fields and updates them in place, one method per handler. Each method may be called only when its control is on screen, and is proved to produce the result of `Apply` for that event.
- `LegacySession`: the four-step controller, structured the same way as `Session`.
- `Progress`: the streak loop and goal validation, the ceiling of the remaining minutes, and the `YYYY-MM-DD` key of a calendar day. It also covers month navigation and day counts as the `Date` constructor normalises them, and the class `Dashboard`.

A service call that the handler awaits becomes an `Outcome` parameter. The method returns the arguments it would send as an out-parameter. The topic is owned by the host and updated through a callback, so the model treats it as one more field. The level is also owned by the host, and the level selector of the side menu (components/Navigation.tsx) can change it at any step, so it is a field too, changed by `SetLevel`, and a generation request carries the level current at the click.

Three behaviours of the code that are easy to misread, and that the model follows:

- The regular expression does not accept "resiliency" for "resilience", because the whole target word must come first (`VocabMatch.NotUsedOtherForm`).
- The back button to the topic step only changes the step; it does not reset the session (`Session.NavigationKeepsWork`).
- The history is a list, so the total counts duplicate entries (`Progress.Dashboard.TotalDays`).

The service replies are not decoded defensively, and results that arrive late are not discarded; neither is modelled.

## Model

| member | source | states |
|---|---|---|
| Types.Words | components/ExerciseArea.tsx:115 | the words of a vocabulary list, one per item, in list order |
| Text.TrimFacts | components/ExerciseArea.tsx:82 | `trim` cuts only white space at both ends; the result is empty exactly when the text is all white space, and otherwise starts and ends with a non-space character |
| Text.TrimChars | components/ExerciseArea.tsx:85 | every character of the trimmed text occurs in the text |
| ManualVocab.ManualItems | components/ExerciseArea.tsx:92-96 | one item per word, in order, with part of speech "Custom" and definition "User defined vocabulary"; its words are the input words |
| ManualVocab.CleanIsPipeline | components/ExerciseArea.tsx:85 | the piece-at-a-time definition equals trimming every piece and then dropping the empty ones |
| ManualVocab.ParseIsTokens | components/ExerciseArea.tsx:85 | the split/trim/filter pipeline equals the recursive reading: trimmed text up to the first separator, then the parse of the rest |
| ManualVocab.ParseNoSeparator | components/ExerciseArea.tsx:85 | text without a separator parses to its trimmed self, or to nothing when it is all white space |
| ManualVocab.ParseConcat | components/ExerciseArea.tsx:85 | the parse of `a + sep + b` is the parse of `a` followed by the parse of `b`, so order and duplicates are kept |
| ManualVocab.ParseTokensClean | components/ExerciseArea.tsx:85 | every parsed word is non-empty, has no white space at either end and holds no separator |
| ManualVocab.ParseEmptyIff | components/ExerciseArea.tsx:85-90 | the parse is empty exactly when the text holds only white space and separators |
| ManualVocab.FilterTrimCommute | components/ExerciseArea.tsx:265 | keeping the non-blank pieces and then trimming equals trimming and then keeping the non-empty ones |
| ManualVocab.LiveCountMatchesParse | components/ExerciseArea.tsx:265 | the live count beside the input equals the number of words the submit handler takes |
| VocabMatch.PlainWordIsLiteral | components/ExerciseArea.tsx:129 | a word made of ASCII word characters contains no pattern metacharacter |
| VocabMatch.WordEnd | components/ExerciseArea.tsx:129 | the end of the run of word characters from a position: all word characters up to it, none at it |
| VocabMatch.UsedFrom | components/ExerciseArea.tsx:128-131 | true exactly when a match attempt succeeds at some start position from `i` on |
| VocabMatch.Used | components/ExerciseArea.tsx:128-131 | true exactly when a match attempt succeeds at some start position |
| VocabMatch.MatchAtIsRegex | components/ExerciseArea.tsx:129 | at one start, trying the two ends where `\w*\b` can stop agrees with `\b`, the word, some run of word characters and `\b` |
| VocabMatch.UsedIsRegexTest | components/ExerciseArea.tsx:128-131 | the check agrees with `regex.test` of `\b<word>\w*\b` (flag `i`) on every word and every text |
| VocabMatch.UsedPlain | components/ExerciseArea.tsx:128-131 | for a dictionary word: used exactly when the word, in any case, starts at a position not preceded by a word character |
| VocabMatch.UsedIgnoresCase | components/ExerciseArea.tsx:129 | words equal up to ASCII case are used in the same texts |
| VocabMatch.UsedExtends | components/ExerciseArea.tsx:130 | typing more text after a used word keeps it used |
| VocabMatch.NotUsedInsideWord | components/ExerciseArea.tsx:129 | "nonresilience" does not use "resilience" |
| VocabMatch.UsedUpperCase | components/ExerciseArea.tsx:129 | "RESILIENCE." uses "resilience" |
| VocabMatch.UsedInflected | components/ExerciseArea.tsx:129 | "resiliences" uses "resilience" |
| VocabMatch.NotUsedOtherForm | components/ExerciseArea.tsx:129 | "resiliency" does not use "resilience" |
| Session.Initial | components/ExerciseArea.tsx:17-29 | the fresh session is at the topic step with nothing loading, for the host's topic and level |
| Session.ApplyKeepsValid | components/ExerciseArea.tsx:32-125 | every event a view offers ends with nothing loading, and the feedback step always has an evaluation |
| Session.RunKeepsValid | components/ExerciseArea.tsx:640-645 | so does every sequence of offered events |
| Session.StepEntries | components/ExerciseArea.tsx:640-645 | the evaluation is entered only from writing by a successful submit, writing only from the review, and the review only from the preparation (generated words), the manual input, or back from writing |
| Session.FeedbackLeftOnlyByReset | components/ExerciseArea.tsx:387-455 | on the evaluation view every event but the reset button (line 455) keeps the step, the evaluation, the words and the text |
| Session.FeedbackStaysUntilReset | components/ExerciseArea.tsx:640-645 | once shown, the evaluation stays, with its words and text, through any run of events without a reset |
| Session.FeedbackNeedsSubmit | components/ExerciseArea.tsx:640-645 | every run that reaches the evaluation contains a successful submit |
| Session.ResetForgetsProgress | components/ExerciseArea.tsx:32-40 | reset keeps only the topic, the level, the suggestions and the loading state, is idempotent, and yields the fresh session plus the suggestions |
| Session.ManualSubmitOutcomes | components/ExerciseArea.tsx:81-100 | all white space: no change; only separators and white space: the "at least one word" error and nothing else; otherwise the parsed words become Custom items, as many as the live count, and the step moves to review |
| Session.SubmitOutcomes | components/ExerciseArea.tsx:108-125 | blank text: nothing is sent and nothing changes; otherwise the request has the topic, the words in list order and the text; success shows the feedback; failure keeps the step, the old feedback and the text, and sets the error |
| Session.SubmitKeepsError | components/ExerciseArea.tsx:62-125 | a successful evaluation leaves an earlier error in place, while a successful generation clears it |
| Session.NavigationKeepsWork | components/ExerciseArea.tsx:56-105 | confirming, choosing manual entry, starting to write and the back buttons (lines 205, 247, 282 and 341) keep the words, the typed text, the submission and the feedback |
| Session.ManualPathRequest | components/ExerciseArea.tsx:56-125 | on the typed-in path, the evaluation is requested for the confirmed topic with the typed words in typed order |
| Session.ExerciseSession.constructor | components/ExerciseArea.tsx:17-29 | the fields start as in the fresh session |
| Session.ExerciseSession.HandleReset | components/ExerciseArea.tsx:32-40 | on the evaluation view, the new state is the reset of the old one |
| Session.ExerciseSession.HandleGetTopics | components/ExerciseArea.tsx:43-54 | on the topic view: sends the current topic; success stores the suggestions and failure sets the error; loading ends idle |
| Session.ExerciseSession.ConfirmTypedTopic | components/ExerciseArea.tsx:154-155 | the confirm button, enabled only while the typed topic is not blank, keeps that topic and moves to choosing how to get the words |
| Session.ExerciseSession.ConfirmSuggestedTopic | components/ExerciseArea.tsx:186 | clicking a shown suggestion stores it as the topic and moves to choosing how to get the words |
| Session.ExerciseSession.HandleChooseAI | components/ExerciseArea.tsx:62-74 | on the preparation view: requests words for the topic and the level current at the click; success stores them and moves to review; failure sets the error; loading ends idle |
| Session.ExerciseSession.HandleChooseManual | components/ExerciseArea.tsx:76-78 | on the preparation view: moves to the manual input step |
| Session.ExerciseSession.HandleManualInputSubmit | components/ExerciseArea.tsx:81-100 | on the manual input view, the new state is the manual-submit transition of the old one |
| Session.ExerciseSession.HandleStartWriting | components/ExerciseArea.tsx:103-105 | on the review view: moves to the writing step |
| Session.ExerciseSession.HandleSubmit | components/ExerciseArea.tsx:108-125 | on the writing view: sends the evaluation request of the old state, if any, and takes the submit transition |
| Session.ExerciseSession.GoBack | components/ExerciseArea.tsx:205-341 | the back buttons (lines 205, 247, 282 and 341) lead from the preparation to the topic, from the manual input and the review to the preparation, and from writing to the review, and change the step only |
| Session.ExerciseSession.EditTopic | components/ExerciseArea.tsx:149 | the topic box changes the topic only |
| Session.ExerciseSession.EditManualInput | components/ExerciseArea.tsx:259 | the input box changes the typed text only |
| Session.ExerciseSession.EditSubmission | components/ExerciseArea.tsx:335 | the writing box changes the submission only |
| Session.ExerciseSession.SelectFeedbackTab | components/ExerciseArea.tsx:431 | the tab buttons change the shown tab only |
| Session.ExerciseSession.DismissError | components/ExerciseArea.tsx:647-651 | the banner, shown only while there is an error, clears the error only |
| Session.ExerciseSession.SetLevel | components/Navigation.tsx:79 | the level selector, offered at every step, changes the level only |
| Session.ExerciseSession.RecognisedCount | components/ExerciseArea.tsx:265 | the count shown is the number of words the parser takes |
| Session.ExerciseSession.CheckVocabUsed | components/ExerciseArea.tsx:128-131 | true exactly when the regular expression matches the current submission |
| LegacySession.Initial | ExerciseArea.tsx:17-25 | the fresh session is at the topic step with nothing loading, for the host's topic and level |
| LegacySession.ApplyKeepsValid | ExerciseArea.tsx:28-92 | every event a view offers ends with nothing loading, and the feedback step always has an evaluation |
| LegacySession.RunKeepsValid | ExerciseArea.tsx:380-383 | so does every sequence of offered events |
| LegacySession.StepEntries | ExerciseArea.tsx:380-383 | the evaluation is entered only from writing by a successful submit, writing only from the word list, and the word list only from the topic by a successful generation or back from writing |
| LegacySession.FeedbackLeftOnlyByReset | ExerciseArea.tsx:274-367 | on the evaluation view every event but the reset button (line 367) keeps the step, the evaluation, the words and the text |
| LegacySession.FeedbackStaysUntilReset | ExerciseArea.tsx:380-383 | once shown, the evaluation stays, with its words and text, through any run of events without a reset |
| LegacySession.FeedbackNeedsSubmit | ExerciseArea.tsx:380-383 | every run that reaches the evaluation contains a successful submit |
| LegacySession.ConfirmUsesSelectedTopic | ExerciseArea.tsx:50-68 | confirming stores the chosen topic and generates words for it; success moves to the word step with the new words; failure keeps the step and the old words and sets the error; loading ends idle |
| LegacySession.ResetForgetsProgress | ExerciseArea.tsx:28-34 | reset keeps only the topic, the level, the suggestions and the loading state, and is idempotent |
| LegacySession.SubmitOutcomes | ExerciseArea.tsx:75-92 | blank text: nothing is sent and nothing changes; otherwise the request has the topic, the words in order and the text; success shows the feedback; failure keeps the step, the old feedback and the text |
| LegacySession.GeneratedPathRequest | ExerciseArea.tsx:50-92 | the evaluation is requested for the confirmed topic with the generated words in order |
| LegacySession.BackKeepsWork | ExerciseArea.tsx:171-228 | the back buttons (lines 171 and 228) change only the step |
| LegacySession.LegacyExerciseSession.constructor | ExerciseArea.tsx:17-25 | the fields start as in the fresh session |
| LegacySession.LegacyExerciseSession.HandleReset | ExerciseArea.tsx:28-34 | on the evaluation view, the new state is the reset of the old one |
| LegacySession.LegacyExerciseSession.HandleGetTopics | ExerciseArea.tsx:37-48 | on the topic view: sends the current topic; success stores the suggestions and failure sets the error |
| LegacySession.LegacyExerciseSession.HandleGenerateVocab | ExerciseArea.tsx:56-68 | on the topic view: requests words for the given topic at the level current at the call; success stores them and moves to the word step; failure sets the error |
| LegacySession.LegacyExerciseSession.ConfirmTypedTopic | ExerciseArea.tsx:119-121 | the confirm button, enabled only while the typed topic is not blank, generates words for that topic at the current level |
| LegacySession.LegacyExerciseSession.ConfirmSuggestedTopic | ExerciseArea.tsx:152 | clicking a shown suggestion stores it as the topic, then generates words for it at the current level |
| LegacySession.LegacyExerciseSession.HandleStartWriting | ExerciseArea.tsx:70-72 | on the word view: moves to the writing step |
| LegacySession.LegacyExerciseSession.HandleSubmit | ExerciseArea.tsx:75-92 | on the writing view: sends the evaluation request of the old state, if any, and takes the submit transition |
| LegacySession.LegacyExerciseSession.GoBack | ExerciseArea.tsx:171-228 | the back buttons (lines 171 and 228) lead from the word list to the topic and from writing to the word list, and change the step only |
| LegacySession.LegacyExerciseSession.EditTopic | ExerciseArea.tsx:115 | the topic box changes the topic only |
| LegacySession.LegacyExerciseSession.EditSubmission | ExerciseArea.tsx:222 | the writing box changes the submission only |
| LegacySession.LegacyExerciseSession.DismissError | ExerciseArea.tsx:385-389 | the banner, shown only while there is an error, clears the error only |
| LegacySession.LegacyExerciseSession.SetLevel | components/Navigation.tsx:79 | the level selector, offered at every step, changes the level only |
| LegacySession.LegacyExerciseSession.CheckVocabUsed | ExerciseArea.tsx:95-98 | true exactly when the regular expression matches the current submission |
| Progress.CalculateStreak | components/ProgressDashboard.tsx:53-72 | starting from today if it is recorded, else from yesterday: every day of the returned run is recorded and the day before it is not; the result is at most the number of distinct recorded days, and is 0 when neither today nor yesterday is recorded |
| Progress.RecordedDayCounts | components/ProgressDashboard.tsx:62-70 | stepping back past a recorded day moves one day from the unvisited to the visited days, so the loop ends |
| Progress.StreakDetermined | components/ProgressDashboard.tsx:62-70 | at most one run length ends in an unrecorded day, so the streak is determined |
| Progress.SliderValuesValid | components/ProgressDashboard.tsx:184-186 | every value the slider offers is a goal the save handler accepts |
| Progress.CeilDiv60 | components/ProgressDashboard.tsx:113 | `Math.ceil(x / 60)`: the least `m` with `60 * m >= x` |
| Progress.CeilDiv60Least | components/ProgressDashboard.tsx:113 | no smaller whole minute count covers the seconds |
| Progress.Today | components/ProgressDashboard.tsx:113 | the card shows "achieved" exactly when today is completed |
| Progress.TodayMinutesCover | components/ProgressDashboard.tsx:113 | the remaining minutes cover the remaining seconds with less than a minute to spare, and are at least one while the goal is not reached |
| Progress.NatToDecimal | components/ProgressDashboard.tsx:41 | `String(n)` is a non-empty string of digits, one digit long exactly when `n < 10`, and without a leading zero |
| Progress.DecimalRoundTrip | components/ProgressDashboard.tsx:41 | reading `String(n)` back as a decimal gives `n` |
| Progress.SignChar | components/ProgressDashboard.tsx:41 | `String(n)` starts with a minus sign exactly when `n` is negative |
| Progress.IntToStringInjective | components/ProgressDashboard.tsx:41 | different numbers have different texts |
| Progress.PadStart2 | components/ProgressDashboard.tsx:41 | `padStart(2, '0')` keeps texts of two or more characters and left-pads shorter ones with zeros to two |
| Progress.PadTwoDigits | components/ProgressDashboard.tsx:41 | a number below 100, padded, is its two decimal digits |
| Progress.TwoDigitsInjective | components/ProgressDashboard.tsx:41 | different numbers below 100 have different two-digit forms |
| Progress.DateKeyShape | components/ProgressDashboard.tsx:41 | the key of a calendar day is the year followed by `-MM-DD` |
| Progress.DateKeyInjective | components/ProgressDashboard.tsx:40-43 | two calendar days have the same key exactly when they are the same day |
| Progress.DateKeyExample | components/ProgressDashboard.tsx:41 | 5 March 2024 (month index 2) has the key "2024-03-05" |
| Progress.MonthStart | components/ProgressDashboard.tsx:29-30 | the constructor carries months outside 0..11 into the year and keeps the month count |
| Progress.MonthNavigation | components/ProgressDashboard.tsx:29-30 | after year 100: back from January is December of the year before, forward from December is January of the next year, and the two buttons undo each other |
| Progress.MonthNavigationTwoDigitYears | components/ProgressDashboard.tsx:29-30 | back from January 100 is December 99, and forward from there is January 2000 |
| Progress.MonthLength | components/ProgressDashboard.tsx:23 | a month has 28 to 31 days, and 29 exactly for February of a leap year |
| Progress.DaysInMonth | components/ProgressDashboard.tsx:23 | day 0 of the next month is the last day of this one, 28 to 31 |
| Progress.YearHasRightLength | components/ProgressDashboard.tsx:23 | the twelve month lengths add up to 366 in a leap year and 365 otherwise |
| Progress.DistinctCount | components/ProgressDashboard.tsx:51 | a list has at most as many distinct entries as its length, with equality exactly when nothing repeats |
| Progress.Dashboard.constructor | components/ProgressDashboard.tsx:13-17 | opens on the given month, with the goal input at the goal rounded up to whole minutes and nothing saved |
| Progress.Dashboard.HandlePrevMonth | components/ProgressDashboard.tsx:29 | shows the previous month as the constructor normalises it |
| Progress.Dashboard.HandleNextMonth | components/ProgressDashboard.tsx:30 | shows the next month as the constructor normalises it |
| Progress.Dashboard.SetGoalInput | components/ProgressDashboard.tsx:188 | the slider changes the goal input only |
| Progress.Dashboard.HandleSaveGoal | components/ProgressDashboard.tsx:32-38 | a goal in 1..180 minutes is passed on unchanged and marks the goal saved; otherwise nothing is passed on and nothing changes |
| Progress.Dashboard.DaysInShownMonth | components/ProgressDashboard.tsx:23 | the shown month's length, the Gregorian one for a four-digit year |
| Progress.Dashboard.IsDateCompleted | components/ProgressDashboard.tsx:40-43 | for a calendar day of the shown month: true exactly when the history holds the year followed by `-MM-DD` |
| Progress.Dashboard.TotalDays | components/ProgressDashboard.tsx:51 | the total is the number of entries: at least the number of distinct days, and equal to it exactly when no day is recorded twice |
| Progress.Dashboard.TodayCard | components/ProgressDashboard.tsx:113 | achieved exactly when completed; otherwise the least whole minutes covering the remaining seconds (`Math.ceil`), at least one while the goal is not reached |

## Left out

- The calls to the generative-language service (services/geminiService.ts): every awaited call is an `Outcome` parameter. Prompt building, JSON parsing and the fallback topics are not part of this model.
- Asynchrony: each handler runs to completion with its call's outcome given. The loading state during the await is set and then reset inside the method. Interleaved calls and late replies are not modelled.
- Rendering, styling and the content of each feedback tab. Of the disabled states, the model keeps the one the handler itself does not repeat: the typed-topic confirm button is enabled only while the topic is not blank, so `ConfirmTypedTopic` requires that. The manual-input and evaluation submits check for blank text inside their handlers, and the model keeps those checks. The buttons disabled while a call is pending come out as always enabled, because no call is pending between handlers here.
- App.tsx and components/Navigation.tsx (the app shell and the menu) are not part of this model, apart from the level selector, which is `SetLevel`. The selector offers only B2, C1 and C2; the model allows any level text.
- The error messages: each distinct message is one constructor of `SessionError`, and its Chinese text is not kept.
- Session.ExerciseSession.CheckVocabUsed: the target word is placed into the pattern unescaped. `RegexTest` reads it literally, which matches the code only for words without pattern metacharacters (`VocabMatch.LiteralWord`); words that change the pattern's meaning, or throw, are not modelled.
- LegacySession.LegacyExerciseSession.CheckVocabUsed: the same restriction for the older copy.
- VocabMatch.UsedPlain: stated only for words made of ASCII word characters. Letters outside ASCII are not word characters to this pattern, and their case folding is not modelled.
- Progress.CalculateStreak: the dates are integer day numbers, not `toISOString` strings in UTC. Clock time, time zones and daylight-saving shifts of `setDate` are left out, and "today" is a parameter.
- Progress.MonthNavigation: stated for years after 100. For earlier years the two-digit rule of the `Date` constructor applies (`Progress.MonthNavigationTwoDigitYears`).
- The weekday offset of the first day (`getDay`) and the `isToday` highlight depend on the clock and the weekday calendar, so they are not modelled.
- The two-second `setTimeout` that hides the "saved" mark is not modelled.
