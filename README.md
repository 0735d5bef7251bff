# quizWiz quiz session, modelled in Dafny

quizWiz is a trivia quiz. The user sets up a quiz on a configuration form: a number of
questions and three filters (category, type, difficulty). The quiz page turns that
configuration into a request to a remote question bank. It then walks through the
returned questions one at a time: the user picks an answer, submits it (one point if it is
correct), and presses Next. After the last question the score is handed on as the text
`"score/count"`.

This project models that flow and proves its properties:

- `numbers.dfy` (module `JsNumbers`): JavaScript's `parseInt` without a radix, as section
  19.2.5 of ECMA-262 (2021 and later editions) defines it. It also gives the decimal text of
  an integer, and proves that `parseInt` reads that text back.
- `form.dfy` (module `QuizForm`): the configuration form, as the class `ConfigurationForm`
  with the fields `questionNumber` and `options`. Its handlers are methods, checked against
  the pure edit functions `CountAfterEdit` and `ApplyEdit`.
- `entry.dfy` (module `QuizEntry`): the quiz page's entry step. It redirects home when
  there is no category; otherwise it maps the URL query to request parameters and drops the
  "no filter" values.
- `answers.dfy` (module `AnswerOrder`): the order in which a question's answers are shown.
- `session.dfy` (module `QuizSession`): the session state machine. It is written as pure
  transitions (`SelectAnswer`, `SubmitAnswer`, `Advance`), a trace semantics (`Step`,
  `Run`), and the class `Session`, whose methods are proved to follow the transitions.

Design points:

- **The Submit and Next buttons.** Submit is disabled once the question is answered, and
  Next is disabled until then. These are the preconditions of `Session.Submit` and
  `Session.Next`. In the trace semantics, pressing a disabled button does nothing.
- **Answer order.** The source sorts `[correctAnswer, ...falseAnswers]` with a comparator
  that ignores its arguments. For every seed but 0.5 that comparator never returns 0 and is
  not consistent, so ECMA-262 leaves the result order to the JavaScript engine and only
  promises a rearrangement of the same elements. At a seed of exactly 0.5 it always returns
  0, which is consistent, and the stable sort keeps the correct answer first and the false
  answers in their order. So the engine is a parameter of the model, `SortEngine`, used for
  every seed but 0.5. For the list and the seed it names which of the remaining answers
  comes next. The model proves that every engine yields a permutation, and that every
  permutation comes from some engine. The order depends only on the answer list and the
  per-question seed.
- **`parseInt`.** The model follows section 19.2.5 of ECMA-262 in full. A `"0x"`/`"0X"` prefix switches to radix 16. Parsing stops at
  the first non-digit, so `"12.7"` reads as 12 and `"1e1"` as 1. Values are exact integers.
  Where a long digit string would lose precision as a JavaScript Number, only its
  comparison with 1 and 50 matters, and the exact value gives the same answer.
- **Two behaviours of the code are kept as written:**
  - The radio selection can still change after Submit. It has no effect on the score.
  - Next stays enabled after the session has concluded, and pressing it again sends the
    same result text again (`ConclusionIsFinal`).
- **Inputs instead of actions.** `Math.random()` is a parameter of type `Seed`. The
  question list fetched from the remote bank is a constructor argument. Navigation is a
  returned value: the form's query, the entry outcome, and the `result` field.

## Model

| member | source | states |
|---|---|---|
| JsNumbers.TrimStart | components/Form.tsx:38 | parseInt's first step removes exactly the leading white space and line terminators; what remains is a suffix of the input and does not start with either |
| JsNumbers.DigitPrefix | components/Form.tsx:38 | the digits parseInt reads are the longest prefix of digits of the radix: all of them are digits, and the next character is not |
| JsNumbers.ParseSign | components/Form.tsx:38 | after the white space, a leading '-' negates what the rest reads as and a leading '+' is skipped, when the rest starts neither with white space nor with another sign |
| JsNumbers.ParseHexPrefix | components/Form.tsx:38 | a "0x" or "0X" prefix makes parseInt read what follows in radix 16, and NaN when no hexadecimal digit follows |
| JsNumbers.ParseDigits | components/Form.tsx:38 | the result is NaN exactly when the text does not start with a digit of the radix; otherwise it is a non-negative value |
| JsNumbers.NatToString | components/Question/Question.tsx:57 | the decimal text of a number is one or more decimal digits, with no leading zero unless the number is 0 |
| JsNumbers.IntToString | components/Question/Question.tsx:57 | the text of an integer starts with '-' exactly when it is negative, and is otherwise made of decimal digits; for a non-negative number it is its decimal text |
| JsNumbers.DecimalValue | components/Question/Question.tsx:57 | the decimal text of n denotes n |
| JsNumbers.ParseDecimalPrefix | components/Form.tsx:38 | parseInt reads the decimal text of n as n whatever follows, as long as it does not continue the number ("12.7" is 12) |
| JsNumbers.ParseIntToString | components/Form.tsx:38 | parseInt reads the text of every integer back as that integer |
| JsNumbers.ParseSkipsWhiteSpace | components/Form.tsx:38 | a leading white-space character does not change what parseInt reads |
| JsNumbers.ParseHexExample | components/Form.tsx:38 | parseInt reads "0x1A" as 26 |
| JsNumbers.ParseSignedHexExample | components/Form.tsx:38 | parseInt reads " -0x10" as -16 |
| JsNumbers.ParseFractionExample | components/Form.tsx:38 | parseInt reads "12.7" as 12 |
| JsNumbers.ParseLeadingZeroExample | components/Form.tsx:38 | parseInt reads "07" as 7 |
| JsNumbers.ParseNaNExample | components/Form.tsx:38 | parseInt reads "abc" as NaN |
| QuizForm.WithOption | components/Form.tsx:53-55 | spreading `[key]: value` over the options sets the field named by the key and leaves every other key's value unchanged |
| QuizForm.CountAfterEdit | components/Form.tsx:37-46 | an edit that parses to v with 1 <= v <= 50 sets the count to v; NaN or an out-of-range value keeps the old count; a count in range stays in range |
| QuizForm.ApplyEdit | components/Form.tsx:37-56 | a count edit changes only the count and a dropdown edit only the option its target names; both keep the count in [1, 50] |
| QuizForm.EditsKeepCountInRange | components/Form.tsx:29-45 | starting from the initial form, after any sequence of edits the count is in [1, 50] |
| QuizForm.EditsPreserveInvariant | components/Form.tsx:37-56 | every sequence of edits preserves the count bound |
| QuizForm.CountEditsKeepOptions | components/Form.tsx:37-46 | any number of count edits leaves the options as they were |
| QuizForm.ConfigurationForm.constructor | components/Form.tsx:29-34 | the form starts with count 5, category "0", type "any" and difficulty "any" |
| QuizForm.ConfigurationForm.ChangeQuestionNumber | components/Form.tsx:37-46 | the edit is kept exactly when it parses to a value in [1, 50]; then the count is that value, otherwise it is unchanged; the options are untouched |
| QuizForm.ConfigurationForm.ChangeDropDown | components/Form.tsx:48-56 | targets 0, 1 and 2 set the category, the type or the difficulty; the other two and the count are unchanged |
| QuizForm.ConfigurationForm.Submit | components/Form.tsx:58-68 | the query carries exactly the stored count (which is in [1, 50]), category, type and difficulty |
| QuizEntry.Filter | pages/quiz/index.tsx:61-63 | a filter is left out exactly when it is absent or equals its "no filter" value; otherwise it is passed on unchanged |
| QuizEntry.RequestFor | pages/quiz/index.tsx:58-64 | amount is the query's count; category is left out exactly for "0", type and difficulty exactly for "any"; any other value is passed on unchanged |
| QuizEntry.Entry | pages/quiz/index.tsx:48-64 | the page redirects (to "/", not permanently) exactly when the category is missing or empty; otherwise the outcome is the request built from the query |
| QuizEntry.NavigationQuery | components/Form.tsx:62-68 | the query reaching the quiz page carries the form's values, and its count text reads back as the form's count |
| QuizEntry.SubmittedFormFetches | pages/quiz/index.tsx:48-64 | a submitted form with a category never redirects, and the amount requested reads back as the form's count |
| QuizEntry.DefaultFormRequest | pages/quiz/index.tsx:58-64 | the untouched form leads to a request for amount "5" with category, type and difficulty all left out |
| AnswerOrder.Pick | components/Question/Question.tsx:100-101 | placing elements by successive picks yields a list of the same length and the same multiset |
| AnswerOrder.Arrange | components/Question/Question.tsx:100-101 | the sort's order of a list under a seed is a rearrangement of that list, determined by the list and the seed alone; at seed 0.5 it is the list unchanged |
| AnswerOrder.AnswerChoices | components/Question/Question.tsx:100-101 | the answers shown are 1 + \|falseAnswers\| strings, the same multiset as correct answer plus false answers; the correct answer and every false answer appear, and nothing else; at seed 0.5 the correct answer comes first and the false answers follow in order |
| AnswerOrder.PicksFor | components/Question/Question.tsx:101 | for any rearrangement of a list, one pick for each element of the list (AnyOrderIsReachable proves that these picks produce the rearrangement) |
| AnswerOrder.AnyOrderIsReachable | components/Question/Question.tsx:101 | no order is ruled out: every rearrangement of a list is what some picks produce |
| AnswerOrder.EveryOrderHasAnEngine | components/Question/Question.tsx:101 | for every seed but 0.5, every rearrangement of the answers is the order some engine gives |
| QuizSession.FindQuestion | pages/quiz/index.tsx:17-19 | scanning the list for the position equal to the target finds the element at that position, or nothing when the position is out of range |
| QuizSession.TargetQuestion | pages/quiz/index.tsx:17-19 | the question shown for number i is element i - 1 of the list, and there is one exactly when 1 <= i <= \|list\| |
| QuizSession.ScoreTextRoundTrip | components/Question/Question.tsx:57 | the result text `${score}/${questionsCount}` splits at its first '/' into the texts of the score and the count |
| QuizSession.InitialState | pages/quiz/index.tsx:14-15 | a session starts at question 1 with score 0, an empty selection, unanswered and not concluded, and meets the session invariant for every non-empty list |
| QuizSession.CurrentQuestion | pages/quiz/index.tsx:17-19 | under the invariant the current question is the one the page finds for its number |
| QuizSession.Choices | components/Question/Question.tsx:100-101 | the answers shown for the current question are a permutation of its correct answer plus its false answers |
| QuizSession.SelectAnswer | components/Question/Question.tsx:32-36 | selecting sets the selection and changes nothing else: not answered, not the seed, not the page, not the result |
| QuizSession.SubmitAnswer | components/Question/Question.tsx:38-49 | the score rises by exactly 1 (the page's updateScore callback, pages/quiz/index.tsx line 23) if the selection equals the correct answer and is unchanged otherwise (an untouched "" scores only when the correct answer is ""); the question becomes answered, so Submit is disabled and Next enabled; the invariant is kept |
| QuizSession.Advance | components/Question/Question.tsx:51-64 | at the last question of the list the session concludes with exactly the score text and shows the loader, without advancing; before it the number rises by 1 (the page's nextQuestion callback, pages/quiz/index.tsx line 21) with the score kept, and a fresh question view mounts (empty selection, unanswered, new seed) |
| QuizSession.Step | components/Question/Question.tsx:125-133 | any event, including a press of a disabled button, keeps the invariant, never lowers the question number, and raises the score by at most the one question it may submit |
| QuizSession.DisabledSubmitDoesNothing | components/Question/Question.tsx:125 | Submit is disabled exactly once the question is answered, Next is then enabled, and a press of the disabled Submit changes nothing |
| QuizSession.DisabledNextDoesNothing | components/Question/Question.tsx:133 | Next is disabled exactly while the question is unanswered, Submit is then enabled, and a press of the disabled Next changes nothing |
| QuizSession.NextMountsFreshQuestion | components/Question/Question.tsx:24-28 | Next before the last question mounts the following question with nothing selected, Submit enabled and Next disabled, its answers in the order of the newly drawn seed |
| QuizSession.Run | pages/quiz/index.tsx:15-23 | after any sequence of events the number is within [start, \|list\|] and the invariant holds: score <= questions submitted <= number |
| QuizSession.GradeOf | components/Question/Question.tsx:38-49 | a single event grades at most one question; an enabled Submit grades the next unsubmitted question and raises the score by exactly its correctness, and any other event leaves the score and the number submitted unchanged |
| QuizSession.GradedOncePerQuestion | components/Question/Question.tsx:125-133 | in any run each question is graded at most once: grade numbers strictly increase and lie between the first unsubmitted question and the final number |
| QuizSession.ScoreCountsCorrectGrades | components/Question/Question.tsx:44-48 | over any run the score rises by exactly the number of correct grades, and each grade is one more submitted question |
| QuizSession.ConclusionIsFinal | components/Question/Question.tsx:52-61 | once concluded, no event changes the result text or the score |
| QuizSession.ChoicesStableWithinQuestion | components/Question/Question.tsx:28 | choosing and submitting do not change the question number or the order of the answers shown |
| QuizSession.RunConcat | pages/quiz/index.tsx:21-23 | running two event sequences in turn is running their concatenation |
| QuizSession.RoundOutcome | components/Question/Question.tsx:38-64 | choose, submit and Next on an unanswered question: one point exactly for the correct answer, then a fresh next question, or the score text at the last one |
| QuizSession.ThreeQuestionScenario | components/Question/Question.tsx:52-63 | with three questions answered wrong, right, right, the session concludes with "2/3" |
| QuizSession.ShortListConcludesAtItsLength | pages/quiz/index.tsx:16 | with two questions returned, the session concludes at number 2 with the text "k/2" |
| QuizSession.Session.constructor | pages/quiz/index.tsx:14-16 | a session over a non-empty list starts with score 0, number 1, an empty selection, unanswered and no result |
| QuizSession.Session.ShownChoices | components/Question/Question.tsx:100-101 | the answers returned are the current question's answers in the engine's order for the current seed: a permutation of that question's correct and false answers |
| QuizSession.Session.Select | components/Question/Question.tsx:32-36 | the selection becomes the chosen answer and the rest of the state follows SelectAnswer |
| QuizSession.Session.Submit | components/Question/Question.tsx:38-49 | callable only while unanswered; the score rises by 1 exactly when the selection is correct, and the question becomes answered, as SubmitAnswer |
| QuizSession.Session.Next | components/Question/Question.tsx:51-64 | callable only once answered; concludes with the score text at the last question and otherwise moves to the next one, as Advance |

## Left out

- Rendering, styling, the fade animation and the loader spinner. The loader appears only
  as the boolean `loading` on the page state.
- Router navigation and Next.js redirect plumbing. Navigations are returned values.
  `NavigationQuery` assumes the router turns the numeric count into its decimal text and
  passes the strings through.
- The HTTP request to the question bank. The list it returns is an input to the session.
  A failed request is not modelled.
- HTML-entity decoding: a foreign library. The question strings are treated as already
  decoded.
- `Math.random()`: the seed is a parameter. The engine's actual order for the constant
  comparator is left open for every seed but 0.5, as described above.
- React's batching and scheduling of state updates. Updates apply at once, in order.
- An empty or absent question list. With count 0 the page would spread `undefined` into
  the answer list and fail. The session requires a non-empty list.
- Query values that arrive as arrays of strings. Each query value is an optional string,
  and "absent" stands for both `null` and `undefined` (the request drops both).
- The form's call to show the loader on submit: a fire-and-forget signal to the page
  around it.
