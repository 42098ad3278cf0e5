# Japanese verb quiz: configuration, question selection and quiz turns

This project models the quiz layer of the `japanese-verbs` trainer, which is
`controllers/verbquiz.py`. The layer has three parts.

- **Inflection adjacency maps.** These say, for each inflection shown to the
  learner (the *predicate*), which inflections may be asked for.
  `make_bidirectional_verb_config` and `make_monodirectional_verb_config`
  build them, and `StandardConfig` holds five named presets and the lookup
  `get_config`.
- **Question selection.** `make_question` does three things:
  - it picks a predicate among the keys;
  - it drops the predicate from that key's targets;
  - it picks the inflection to ask for among what is left.

  It returns the verb, the inflection asked for, and two conjugation
  closures.
- **The controller.** `VerbQuizController` takes a configuration from its
  view and builds a quiz of that many questions. It then alternates between
  two steps: asking a question, and reporting whether the learner's reply
  was right. It stops when the quiz is finished, and sends the view one
  summary.

Modules, one per part of the source:

| file | module | models |
|---|---|---|
| `results.dfy` | `Results` | `Option` and `Result` |
| `inflections.dfy` | `Inflections` | the nine inflection names the presets use |
| `verb_config.dfy` | `VerbConfig` | the two adjacency builders |
| `standard_config.dfy` | `StandardConfig` | the presets, `get_config` and `All_readable_dict` |
| `questions.dfy` | `Questions` | `make_question` |
| `quiz.dfy` | `QuizCounter` | the part of the quiz object that the controller relies on |
| `controller.dfy` | `VerbQuizController` | the controller class and its turn sequence |

**Outside inputs.** Everything the controller gets from outside is a
parameter:

- The random choices are a `Draw`. Each `random.choice(xs)` becomes the
  element at position `draw % len(xs)`, or an error when `xs` is empty.
- The database is a `Vocabulary`: a function from a JLPT level and a draw to
  a verb. The verb type is a type parameter.
- The conjugation engine is an `Engine`: a function from a verb and a
  `Conjugation` tag to a string.
- The draws for a whole quiz are a `Draws` function from a question's
  position in the quiz to the `Draw` it is built from.
- The learner's replies are a separate sequence of strings, in order. A
  question is built and put to the view before its reply is taken; when the
  replies run out, the run stops with the last question still unanswered.

**The view.** Every call the controller makes on its view is appended to the
`calls` log, in order.

**The specification function.** `Play` states what a run of the quiz over given draws and replies does. The
class's methods are proved to produce exactly the call log, final quiz and
stopping reason that `Play` gives. The lemmas about `Play` state the outcomes
that the controller's tests check:
- a quiz of `n` questions asks `n` questions;
- it reports `n` results;
- it sends one summary, last;
- the summary counts exactly the replies that matched;
- replies beyond the last question are never used.

## Model

| member | source | states |
|---|---|---|
| VerbConfig.Without | controllers/verbquiz.py:83 | the filtered list holds exactly the members of the input that differ from the dropped inflection |
| VerbConfig.WithoutCounts | controllers/verbquiz.py:83 | filtering keeps every other inflection as many times as it occurs, and removes every occurrence of the dropped one |
| VerbConfig.WithoutConcat | controllers/verbquiz.py:83 | filtering a concatenation is the same as filtering each part and concatenating |
| VerbConfig.WithoutSingle | controllers/verbquiz.py:83 | a one-element list keeps its element exactly when it differs from the dropped one; with `WithoutConcat`, the result keeps the surviving elements in the input's order |
| VerbConfig.WithoutAbsent | controllers/verbquiz.py:83 | filtering out an inflection that does not occur leaves the list unchanged |
| VerbConfig.WithoutDistinctLength | controllers/verbquiz.py:83 | in a list without repeats, removing one of its members shortens it by exactly one |
| VerbConfig.MakeBidirectional | controllers/verbquiz.py:82-84 | the keys are exactly the list's elements; each key's targets are exactly the other elements of the list, so no key targets itself |
| VerbConfig.BidirectionalCounts | controllers/verbquiz.py:82-84 | each key's targets are the input list with every occurrence of that key removed, multiplicities kept |
| VerbConfig.BidirectionalSymmetric | controllers/verbquiz.py:82-84 | the map is symmetric: a targets b exactly when b targets a |
| VerbConfig.BidirectionalSizes | controllers/verbquiz.py:82-84 | a list of n distinct inflections gives n keys, each with n - 1 targets |
| VerbConfig.MakeMonodirectional | controllers/verbquiz.py:87-88 | the keys are exactly the "from" elements; every key maps to the "to" list unchanged; a key targets itself exactly when it is in the "to" list, since self-targets are not filtered |
| StandardConfig.GetConfig | controllers/verbquiz.py:126-128 | a preset is found exactly for the numeric keys 1 to 5; every other key, the custom key "C" included, gives None |
| StandardConfig.StandardConfigDict | controllers/verbquiz.py:115-124 | the preset table has exactly the five numeric keys; `"C"` has no entry |
| StandardConfig.BidirectionalAnswerable | controllers/verbquiz.py:82-84 | a bidirectional map over two or more distinct inflections leaves every key something else to ask for |
| StandardConfig.PresetsAnswerable | controllers/verbquiz.py:115-124 | every preset leaves every key something other than itself to ask for, so question selection never fails on a preset |
| StandardConfig.AllPlainPreset | controllers/verbquiz.py:108-116 | `ALL_PLAIN` maps each of the four plain inflections to the other three, in list order |
| StandardConfig.AllPolitePreset | controllers/verbquiz.py:110-117 | `ALL_POLITE` maps each of the four polite inflections to the other three, in list order |
| StandardConfig.PlainAndPolitePreset | controllers/verbquiz.py:108-119 | `PLAIN_AND_POLITE` has every inflection except the te-form as a key, eight keys, each with seven targets, none of them itself |
| StandardConfig.PlainToTeFormPreset | controllers/verbquiz.py:113-121 | `PLAIN_TO_TE_FORM` is exactly plain to the te-form |
| StandardConfig.PoliteToTeFormPreset | controllers/verbquiz.py:113-123 | `POLITE_TO_TE_FORM` is exactly polite to the te-form |
| StandardConfig.ReadableNames | controllers/verbquiz.py:99-105 | the readable-name table has exactly the six constant keys; among them, a preset exists for every key except the custom one |
| Questions.Choose | controllers/verbquiz.py:57 | a choice fails exactly on an empty list; otherwise it returns a member of the list |
| Questions.ChooseReaches | controllers/verbquiz.py:62 | every member of a list is returned by some draw |
| Questions.KeysAmongMembers | controllers/verbquiz.py:57 | helper for `KeyList`: filtering a list of inflections down to the map's keys keeps exactly the members that are keys |
| Questions.KeyList | controllers/verbquiz.py:57 | the key list holds exactly the keys of the configuration |
| Questions.MakeQuestion | controllers/verbquiz.py:56-71 | it fails with "no inflections" exactly when the configuration is empty; otherwise it fails only if some key has no target but itself, and never fails on an answerable configuration; the predicate is a key; the inflection asked for is one of that key's targets and differs from the predicate; the answer and predicate closures conjugate to those two inflections with kanji and kana; the verb is the store's verb for the configured level |
| Questions.MakeQuestionReaches | controllers/verbquiz.py:57-62 | every key, paired with any of its targets other than itself, comes out as predicate and inflection asked for on some draw |
| Questions.SelfOnlyKeyFails | controllers/verbquiz.py:59-62 | a key whose only targets are itself makes selection fail with "no targets" on some draw |
| Questions.UnanswerableFails | controllers/verbquiz.py:57-62 | a configuration that is empty, or has a key with no other target, fails on some draw |
| Questions.AnswerableExactly | controllers/verbquiz.py:57-62 | selection succeeds on every draw if and only if the configuration is non-empty and every key has a target other than itself |
| Questions.PlainToPoliteQuestion | controllers/tests.py:96-115 | for `{PLAIN: [POLITE, NEGATIVE_POLITE]}`, every draw yields a question on the plain form that asks for one of the two polite forms, with the answer closure conjugating to that form |
| QuizCounter.Quiz.Answer | controllers/verbquiz.py:50 | answering counts one more question; the result is true exactly when the reply equals the expected answer (`VerbQuizController.Expected`: the question's answer conjugation applied to its verb, tests.py:69-71); the right-answer count goes up by one exactly then; the counters stay consistent |
| QuizCounter.FreshQuiz | controllers/verbquiz.py:30 | a new quiz has the requested length and no answers, and is finished (`QuizCounter.Quiz.Finished`, the `finished()` test at verbquiz.py:35) only when its length is zero |
| VerbQuizController.Play | controllers/verbquiz.py:34-54 | a run keeps the quiz consistent and its length fixed, and never lowers the counters; it completes exactly when the quiz ends up finished (`QuizCounter.Quiz.Finished`); each question is built and put to the view before a reply is taken, so when the replies run out the run stops awaiting the learner, with one question answered per reply |
| VerbQuizController.PlayAwaitsOnQuestion | controllers/verbquiz.py:35-40 | a run that stops awaiting the learner has already put a question to the view: its last call is the question built from the draws for the quiz's next position |
| VerbQuizController.PlayIgnoresExtraReplies | controllers/verbquiz.py:35-47 | when every question can be built, replies beyond the last question are never taken: the run is the same as over just one reply per remaining question |
| VerbQuizController.BuiltScores | controllers/tests.py:85-87 | when every question can be built and there is one reply per remaining question, the final right-answer count is the starting count plus the tally of the replies |
| VerbQuizController.CountConcat | controllers/tests.py:77-84 | helper for the call counts the tests check: counting the model's logged view calls of a kind adds up over concatenated logs |
| VerbQuizController.PlayCompletes | controllers/tests.py:76-87 | with an answerable configuration, any draws, and at least one reply per remaining question, the quiz completes; each remaining question is asked once and answered once; exactly one summary is sent, last; its right-answer count is the number of right results reported |
| VerbQuizController.PlayScores | controllers/tests.py:85-87 | under the same conditions, the summary's right-answer count equals an independent tally of the replies used, each scored against the expected answer of the question built from the draws for its position |
| VerbQuizController.ScoredFirst | controllers/tests.py:47-55 | when every expected answer is "correct" and exactly the first k replies are "correct", the tally is k |
| VerbQuizController.EmptyConfigAsksNothing | controllers/verbquiz.py:35-40 | with no inflections, the first question cannot be built, whatever the replies (none included); nothing is asked or reported and the run stops there |
| VerbQuizController.UnanswerableCanCrash | controllers/verbquiz.py:57-62 | with a configuration that is not answerable, some draws stop the quiz before its first question is put to the view, whatever the replies (none included) |
| VerbQuizController.FullQuizCycleRun | controllers/tests.py:37-87 | over n questions and any draws, with every expected answer "correct" and exactly the first k of n replies right, n questions are asked and n results reported; one summary is sent, last, reporting k right answers out of n |
| VerbQuizController.AfterOpening | controllers/verbquiz.py:20-32 | the opening calls (start, configuration request, quiz display) add no question, result or summary, and do not change the last call |
| VerbQuizController.FullQuizCycle | controllers/tests.py:37-87 | a controller object driven from `start` through a whole quiz, with any draws, makes the view calls the test checks: n questions, n results, one final summary with the right count |
| VerbQuizController.Controller.constructor | controllers/verbquiz.py:12-18 | a new controller has no quiz, no inflections, no level and no view calls |
| VerbQuizController.Controller.Start | controllers/verbquiz.py:20-22 | starting starts the view and then requests a configuration, once |
| VerbQuizController.Controller.OnHaveQuizConfig | controllers/verbquiz.py:24-27 | the configuration's inflections are kept; the level is 0 when the configuration has no `jlpt` entry, and the entry as given (`None` included) otherwise; a quiz of the requested length is then started and run over the draws and replies as `Play` says |
| VerbQuizController.Controller.NewQuiz | controllers/verbquiz.py:29-32 | a fresh quiz is built, the view is told, and the quiz is run over the draws and replies as `Play` says |
| VerbQuizController.Controller.Ask | controllers/verbquiz.py:37-40 | the question is the one selection gives for the configured inflections and level; if it cannot be built, no view call is made; otherwise it is put to the view |
| VerbQuizController.Controller.HandleAnswer | controllers/verbquiz.py:49-54 | the reply is scored by the quiz and the view is told whether it was right |
| VerbQuizController.Controller.MaybeAskQuestion | controllers/verbquiz.py:34-47 | asking until the quiz is finished or the replies run out makes exactly the view calls of `Play`, including the question left unanswered, and leaves the quiz and stopping reason it gives, ending with the summary when the quiz finishes |

## Left out

- Threads. `maybe_ask_question` and `handle_answer` run each step on a thread
  only to keep the stack from growing. The model runs the same steps in the
  same order, and unrolls the view's callback chain into one loop.
- VerbQuizController.Play: the view is assumed to call back the continuation
  it is given with each result (`maybe_ask_question`,
  controllers/verbquiz.py:53) every time. A view that does not call it back
  leaves the quiz stopped after that result, with no further question and
  no summary; that case is not modelled.
- VerbQuizController.Controller.MaybeAskQuestion: the same assumption about
  the view's callback after each result holds here. The loop goes on to the
  next question after every handled reply.
- The verb store and the conjugation engine are assumed never to raise. In
  the source, `db.get_verb`, `Verb(**...)` and the `get_inflection` closures
  (controllers/verbquiz.py:64-70) may raise. Such an exception kills the
  question or answer thread, and the quiz then stalls with no summary.
  `Vocabulary` and `Engine` are total functions in the model, so
  `MakeQuestion` never fails on an answerable configuration and
  `PlayCompletes` holds. Both rely on that assumption.
- Early return from `start`. `handle_answer` starts its thread without
  joining it (controllers/verbquiz.py:51-54). So in the source, `start` and
  `on_have_quiz_config` return after the first question, and the remaining
  turns run in the background. This is why `wait_for_quiz_to_finish` exists.
  In the model, `OnHaveQuizConfig` and `FullQuizCycle` return only once the
  run has stopped. The interleaving of the background turns with the
  caller is not modelled.
- Missing configuration entries. A configuration without
  `number_of_questions` or `inflections` raises `KeyError` in the source
  (controllers/verbquiz.py:25, 27). Both fields are mandatory in the model,
  so that error is not modelled.
- `wait_for_quiz_to_finish` is a busy wait on a clock and has no logic to
  model.
- The database (`Database`, `get_verb`) becomes the `Vocabulary` parameter.
  The model does not capture which verb the store returns.
- The conjugation engine (`Verb.get_inflection`) becomes the `Engine`
  parameter. `lib/verbs.py` is not part of this model, so no conjugation rule
  is stated.
- QuizCounter.Quiz.Answer: `lib/quiz.py` is not part of this model. The quiz is
  reduced to three counters: length, answered and right answers.
  - It is finished once every question is answered.
  - A reply counts as right exactly when it equals the expected answer
    character for character.
  - A quiz of length zero is finished at once, so the model sends its summary
    without asking anything. Whether the real quiz rejects that length is not
    known.
- VerbQuizController.Controller.OnHaveQuizConfig: a negative
  `number_of_questions` is passed on unchecked in the source
  (controllers/verbquiz.py:27). The model's question counts are natural
  numbers, so that case is not modelled. What happens next is decided by
  `lib/quiz.py`, which is not part of this model.
- VerbQuizController.Controller.NewQuiz: likewise, `new_quiz` hands a
  negative count to `quiz.Quiz` unchecked (controllers/verbquiz.py:30). The
  model's `numberOfQuestions` and `QuizCounter.FreshQuiz` length are natural
  numbers, so a negative length is not modelled.
- The probability of each choice is not modelled. The model pins down which
  outcomes `random.choice` can produce, not how likely each one is.
- Questions.KeyList lists the keys in the order the inflections are declared,
  not in the dictionary's insertion order. The set of keys a draw can pick is
  the same either way. Only the mapping from draw numbers to keys differs.
- VerbQuizController.Controller.MaybeAskQuestion: if `make_question` raises,
  the error ends the question thread, so the quiz is never finished and never
  reported. The model stops with `Crashed`: no summary, and no separate
  "cannot start" notification. A design that rejects an empty or unanswerable
  configuration up front, and reports the failure, would differ here. The
  model follows the code.
- VerbQuizController.FullQuizCycle: the controller's test replaces
  `make_question` with a stub and configures no inflections. The model keeps
  the real selection instead, so it requires a configuration on which
  selection never fails.
- The test file imports `VerbTestController` from `controllers.vtestcontroller`,
  which is not part of this model (controllers/tests.py:5). The test file
  drives it through the same methods as the controller modelled here, so
  the model takes its assertions as the controller's.
- StandardConfig.GetConfig: the model's keys are integers and strings only.
  In Python a float equal to 1 to 5 (`1.0`), or `True` (equal to 1), finds the
  same preset as the integer. These lookups, and lookups with any other key
  type, are not modelled.
- The view's own behaviour (screens, prompts, timing) is not modelled. Its
  calls appear only as entries in the controller's call log.
- The question factory that the quiz receives (`Quiz(n, self.make_question)`)
  is not stored in the quiz. The controller calls `MakeQuestion` directly
  with its own inflections and level, which is the same computation.
