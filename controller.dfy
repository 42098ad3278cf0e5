/** The verb-quiz controller (`controllers/verbquiz.py`, class `VerbQuizController`):
    it asks its view for a configuration, builds a quiz of that many
    questions, and then alternates between asking a question and reporting
    whether the learner's answer was right, until the quiz is finished and a
    summary goes to the view.

    The view is not modelled as an object: every call the controller makes on
    it is appended to `calls`, and what the view would hand back (the
    configuration, the learner's replies) and what `random` would choose are
    passed in as parameters. The source runs these steps on threads; the
    model runs them one after another, in the same order. */
module VerbQuizController {
  import opened Results
  import opened VerbConfig
  import opened Questions
  import opened QuizCounter

  /** The conjugation engine behind `verb.get_inflection(inflection, kanji=..,
      kana=..)`; it is not part of this model, so the controller is given one. */
  type Engine<!V> = (V, Conjugation) -> string

  /** The configuration the view hands to `on_have_quiz_config`:
      `number_of_questions`, `inflections` and the optional `jlpt` entry:
      `None` when the entry is missing, `Some(level)` when it is present,
      where the level itself may be `None`. */
  datatype QuizConfig = QuizConfig(numberOfQuestions: nat, inflections: Adjacency, jlpt: Option<Option<int>>)

  /** The summary handed to the view's `on_finish_quiz`. */
  datatype Report = Report(quizLength: nat, correctAnswers: nat)

  /** A call the controller makes on its view. */
  datatype ViewCall<V> =
    | ViewStarted                        // view.start()
    | ConfigRequested                    // view.request_quiz_config(...)
    | QuizDisplayed                      // view.display_start_quiz()
    | QuestionAsked(question: Question<V>)  // view.ask_question(question, ...)
    | AnswerResult(right: bool)          // view.handle_answer_result(result, ...)
    | QuizFinished(report: Report)       // view.on_finish_quiz(summary)

  /** The random choices behind every question of a quiz, by the question's
      position in the quiz (0 for the first): where `random.choice` and the
      verb store land when that question is built. */
  type Draws = nat -> Draw

  /** How a run ends: the quiz finished and was reported; building a
      question failed (in the source the question thread dies with the
      exception and nothing more happens); or a question has been put to the
      view and the learner has not replied to it. */
  datatype Stop = Completed | Crashed(error: QuestionError) | AwaitingLearner

  /** Everything besides the quiz, the draws and the replies that a run depends on. */
  datatype Setup<!V> = Setup(inflections: Adjacency, jlpt: Option<int>, store: Vocabulary<V>, engine: Engine<V>)

  /** The outcome of a run: the view calls made, the final quiz, and
      why the run stopped. */
  datatype Run<V> = Run(calls: seq<ViewCall<V>>, quiz: Quiz, stop: Stop)

  /** The text the learner has to type: the question's `answer` conjugation
      applied to its verb. */
  function Expected<V>(engine: Engine<V>, q: Question<V>): string {
    engine(q.data, q.answer)
  }

  /** `maybe_ask_question` from quiz `quiz`: while the quiz is not finished,
      build a question from the draws for its position and put it to the
      view; once the learner replies, `handle_answer` scores the reply and
      the view calls `maybe_ask_question` back. `replies` are the learner's
      replies, in order; when they run out, the last question asked stays
      unanswered. */
  function Play<V>(setup: Setup<V>, quiz: Quiz, draws: Draws, replies: seq<string>): (run: Run<V>)
    requires quiz.Valid()
    ensures run.quiz.Valid() && run.quiz.length == quiz.length
    ensures run.quiz.asked >= quiz.asked && run.quiz.correct >= quiz.correct
    ensures run.stop == Completed <==> run.quiz.Finished()
    ensures run.stop == AwaitingLearner ==> run.quiz.asked == quiz.asked + |replies|
    decreases |replies|
  {
    if quiz.Finished() then
      Run([QuizFinished(Report(quiz.length, quiz.correct))], quiz, Completed)
    else
      match MakeQuestion(setup.inflections, setup.jlpt, setup.store, draws(quiz.asked))
      case Err(e) => Run([], quiz, Crashed(e))
      case Ok(q) =>
        if replies == [] then Run([QuestionAsked(q)], quiz, AwaitingLearner)
        else
          var answered := quiz.Answer(Expected(setup.engine, q), replies[0]);
          var rest := Play(setup, answered.quiz, draws, replies[1..]);
          Run([QuestionAsked(q), AnswerResult(answered.result)] + rest.calls, rest.quiz, rest.stop)
  }

  /** The calls `done` already made, followed by the run `run`. */
  function After<V>(done: seq<ViewCall<V>>, run: Run<V>): Run<V> {
    Run(done + run.calls, run.quiz, run.stop)
  }

  /** Kinds of view call, for counting them. */
  datatype CallKind = AskKind | ResultKind | RightResultKind | FinishKind

  predicate IsKind<V>(c: ViewCall<V>, kind: CallKind) {
    match kind
    case AskKind => c.QuestionAsked?
    case ResultKind => c.AnswerResult?
    case RightResultKind => c.AnswerResult? && c.right
    case FinishKind => c.QuizFinished?
  }

  /** How many of `calls` are of the given kind. */
  function Count<V>(calls: seq<ViewCall<V>>, kind: CallKind): nat {
    if calls == [] then 0
    else (if IsKind(calls[0], kind) then 1 else 0) + Count(calls[1..], kind)
  }

  lemma {:induction false} CountConcat<V>(a: seq<ViewCall<V>>, b: seq<ViewCall<V>>, kind: CallKind)
    ensures Count(a + b, kind) == Count(a, kind) + Count(b, kind)
  {
    if a == [] {
      assert a + b == b;
    } else {
      assert (a + b)[0] == a[0] && (a + b)[1..] == a[1..] + b;
      CountConcat(a[1..], b, kind);
    }
  }

  /** Whether a reply matches the expected answer of the question built
      from `draw` (1) or not (0). */
  function Score<V>(setup: Setup<V>, draw: Draw, reply: string): nat {
    match MakeQuestion(setup.inflections, setup.jlpt, setup.store, draw)
    case Ok(q) => if reply == Expected(setup.engine, q) then 1 else 0
    case Err(_) => 0
  }

  /** An independent tally: how many of the replies match the questions
      built from the draws for positions `from`, `from + 1`, ... */
  function Scored<V>(setup: Setup<V>, draws: Draws, from: nat, replies: seq<string>): nat
    decreases |replies|
  {
    if replies == [] then 0
    else Score(setup, draws(from), replies[0]) + Scored(setup, draws, from + 1, replies[1..])
  }

  /** The first reply of a tally, split off. */
  lemma ScoredStep<V>(setup: Setup<V>, draws: Draws, from: nat, replies: seq<string>)
    requires replies != []
    ensures Scored(setup, draws, from, replies)
         == Score(setup, draws(from), replies[0]) + Scored(setup, draws, from + 1, replies[1..])
  {
  }

  /** Answering the question built from `draw` raises the right-answer count
      by that reply's score. */
  lemma AnswerScores<V>(setup: Setup<V>, quiz: Quiz, draw: Draw, reply: string)
    requires !quiz.Finished()
    requires MakeQuestion(setup.inflections, setup.jlpt, setup.store, draw).Ok?
    ensures var q := MakeQuestion(setup.inflections, setup.jlpt, setup.store, draw).value;
      quiz.Answer(Expected(setup.engine, q), reply).quiz.correct == quiz.correct + Score(setup, draw, reply)
  {
  }

  /** A step of `Play` whose question cannot be built. */
  lemma PlayCrashes<V>(setup: Setup<V>, quiz: Quiz, draws: Draws, replies: seq<string>, e: QuestionError)
    requires quiz.Valid() && !quiz.Finished()
    requires MakeQuestion(setup.inflections, setup.jlpt, setup.store, draws(quiz.asked)) == Err(e)
    ensures Play(setup, quiz, draws, replies) == Run([], quiz, Crashed(e))
  {
  }

  /** A step of `Play` that asks question `q` and gets no reply. */
  lemma PlayWaits<V>(setup: Setup<V>, quiz: Quiz, draws: Draws, q: Question<V>)
    requires quiz.Valid() && !quiz.Finished()
    requires MakeQuestion(setup.inflections, setup.jlpt, setup.store, draws(quiz.asked)) == Ok(q)
    ensures Play(setup, quiz, draws, []) == Run([QuestionAsked(q)], quiz, AwaitingLearner)
  {
  }

  /** A step of `Play` that asks question `q` and handles the first reply. */
  lemma PlayAsks<V>(setup: Setup<V>, quiz: Quiz, draws: Draws, replies: seq<string>, q: Question<V>)
    requires quiz.Valid() && !quiz.Finished() && replies != []
    requires MakeQuestion(setup.inflections, setup.jlpt, setup.store, draws(quiz.asked)) == Ok(q)
    ensures var answered := quiz.Answer(Expected(setup.engine, q), replies[0]);
      Play(setup, quiz, draws, replies) ==
        After([QuestionAsked(q), AnswerResult(answered.result)], Play(setup, answered.quiz, draws, replies[1..]))
  {
  }

  /** `PlayAsks` behind the calls `done` already made. */
  lemma PlayTurnAfter<V>(setup: Setup<V>, quiz: Quiz, draws: Draws, replies: seq<string>, q: Question<V>, done: seq<ViewCall<V>>)
    requires quiz.Valid() && !quiz.Finished() && replies != []
    requires MakeQuestion(setup.inflections, setup.jlpt, setup.store, draws(quiz.asked)) == Ok(q)
    ensures var answered := quiz.Answer(Expected(setup.engine, q), replies[0]);
      After(done, Play(setup, quiz, draws, replies)) ==
        After(done + [QuestionAsked(q), AnswerResult(answered.result)], Play(setup, answered.quiz, draws, replies[1..]))
  {
    var answered := quiz.Answer(Expected(setup.engine, q), replies[0]);
    PlayAsks(setup, quiz, draws, replies, q);
    ConcatAssoc(done, [QuestionAsked(q), AnswerResult(answered.result)], Play(setup, answered.quiz, draws, replies[1..]).calls);
  }

  /** A run whose last part `last` follows the calls `done` already made,
      as seen from a log that started at `start`. */
  lemma EndAfter<V>(goal: Run<V>, done: seq<ViewCall<V>>, last: Run<V>, start: seq<ViewCall<V>>)
    requires goal == After(done, last)
    ensures start + done + last.calls == start + goal.calls
    ensures goal.quiz == last.quiz && goal.stop == last.stop
  {
    ConcatAssoc(start, done, last.calls);
  }

  /** Appending the two calls of a turn one at a time to a log. */
  lemma AppendTurn<V>(start: seq<ViewCall<V>>, done: seq<ViewCall<V>>, asked: ViewCall<V>, result: ViewCall<V>)
    ensures start + done + [asked] + [result] == start + (done + [asked, result])
  {
    ConcatAssoc(start + done, [asked], [result]);
    assert [asked] + [result] == [asked, result];
    ConcatAssoc(start, done, [asked, result]);
  }

  /** The calls of one question turn, counted by kind. */
  lemma CountTurn<V>(q: Question<V>, right: bool, rest: seq<ViewCall<V>>)
    ensures var calls := [QuestionAsked(q), AnswerResult(right)] + rest;
      && Count(calls, AskKind) == Count(rest, AskKind) + 1
      && Count(calls, ResultKind) == Count(rest, ResultKind) + 1
      && Count(calls, FinishKind) == Count(rest, FinishKind)
      && Count(calls, RightResultKind) == Count(rest, RightResultKind) + (if right then 1 else 0)
  {
    var head: seq<ViewCall<V>> := [QuestionAsked(q), AnswerResult(right)];
    CountConcat(head, rest, AskKind);
    CountConcat(head, rest, ResultKind);
    CountConcat(head, rest, FinishKind);
    CountConcat(head, rest, RightResultKind);
  }

  /** With a configuration every draw can build a question from, and at
      least as many replies as questions left, the quiz runs to the end:
      each remaining question is asked once and answered once, the summary
      is sent exactly once and last, and it counts the replies that matched. */
  lemma {:induction false} PlayCompletes<V>(setup: Setup<V>, quiz: Quiz, draws: Draws, replies: seq<string>)
    requires quiz.Valid() && Answerable(setup.inflections)
    requires |replies| >= quiz.length - quiz.asked
    ensures var run := Play(setup, quiz, draws, replies);
      && run.stop == Completed
      && run.quiz.asked == quiz.length
      && Count(run.calls, AskKind) == quiz.length - quiz.asked
      && Count(run.calls, ResultKind) == quiz.length - quiz.asked
      && Count(run.calls, FinishKind) == 1
      && |run.calls| > 0
      && run.calls[|run.calls| - 1] == QuizFinished(Report(quiz.length, run.quiz.correct))
      && run.quiz.correct == quiz.correct + Count(run.calls, RightResultKind)
    decreases quiz.length - quiz.asked
  {
    if !quiz.Finished() {
      var made := MakeQuestion(setup.inflections, setup.jlpt, setup.store, draws(quiz.asked));
      assert made.Ok?;
      var answered := quiz.Answer(Expected(setup.engine, made.value), replies[0]);
      var rest := Play(setup, answered.quiz, draws, replies[1..]);
      PlayAsks(setup, quiz, draws, replies, made.value);
      PlayCompletes(setup, answered.quiz, draws, replies[1..]);
      CountTurn(made.value, answered.result, rest.calls);
    }
  }

  /** Every question of a quiz can be built from the draws for its position. */
  ghost predicate Builds<V>(setup: Setup<V>, draws: Draws) {
    forall k: nat :: MakeQuestion(setup.inflections, setup.jlpt, setup.store, draws(k)).Ok?
  }

  /** On an answerable configuration every question can be built. */
  lemma AnswerableBuilds<V>(setup: Setup<V>, draws: Draws)
    requires Answerable(setup.inflections)
    ensures Builds(setup, draws)
  {
    forall k: nat
      ensures MakeQuestion(setup.inflections, setup.jlpt, setup.store, draws(k)).Ok?
    {
    }
  }

  /** When every question can be built and there is exactly one reply per
      remaining question, the right answers the quiz ends with are those it
      started with plus the tally of the replies. */
  lemma {:induction false} BuiltScores<V>(setup: Setup<V>, quiz: Quiz, draws: Draws, replies: seq<string>)
    requires quiz.Valid() && Builds(setup, draws)
    requires |replies| == quiz.length - quiz.asked
    ensures Play(setup, quiz, draws, replies).quiz.correct == quiz.correct + Scored(setup, draws, quiz.asked, replies)
    decreases |replies|
  {
    if !quiz.Finished() {
      var q := MakeQuestion(setup.inflections, setup.jlpt, setup.store, draws(quiz.asked)).value;
      var answered := quiz.Answer(Expected(setup.engine, q), replies[0]);
      BuiltScores(setup, answered.quiz, draws, replies[1..]);
      ScoresStep(setup, quiz, draws, replies, q);
    }
  }

  /** One step of `BuiltScores`: if the rest of the run scores the rest of
      the replies, the whole run scores all of them. */
  lemma ScoresStep<V>(setup: Setup<V>, quiz: Quiz, draws: Draws, replies: seq<string>, q: Question<V>)
    requires quiz.Valid() && !quiz.Finished() && replies != []
    requires MakeQuestion(setup.inflections, setup.jlpt, setup.store, draws(quiz.asked)) == Ok(q)
    requires var answered := quiz.Answer(Expected(setup.engine, q), replies[0]);
      Play(setup, answered.quiz, draws, replies[1..]).quiz.correct
        == answered.quiz.correct + Scored(setup, draws, quiz.asked + 1, replies[1..])
    ensures Play(setup, quiz, draws, replies).quiz.correct == quiz.correct + Scored(setup, draws, quiz.asked, replies)
  {
    PlayAsks(setup, quiz, draws, replies, q);
    AnswerScores(setup, quiz, draws(quiz.asked), replies[0]);
    ScoredStep(setup, draws, quiz.asked, replies);
  }

  /** Replies beyond the last question are never used: when every question
      can be built, a run over more replies than questions left is the run
      over just as many replies as questions. */
  lemma {:induction false} PlayIgnoresExtraReplies<V>(setup: Setup<V>, quiz: Quiz, draws: Draws, replies: seq<string>)
    requires quiz.Valid() && Builds(setup, draws)
    requires |replies| >= quiz.length - quiz.asked
    ensures Play(setup, quiz, draws, replies) == Play(setup, quiz, draws, replies[..quiz.length - quiz.asked])
    decreases quiz.length - quiz.asked
  {
    var used := replies[..quiz.length - quiz.asked];
    if !quiz.Finished() {
      var q := MakeQuestion(setup.inflections, setup.jlpt, setup.store, draws(quiz.asked)).value;
      var answered := quiz.Answer(Expected(setup.engine, q), replies[0]);
      PlayAsks(setup, quiz, draws, replies, q);
      PlayAsks(setup, quiz, draws, used, q);
      PlayIgnoresExtraReplies(setup, answered.quiz, draws, replies[1..]);
      assert used[0] == replies[0] && used[1..] == replies[1..][..answered.quiz.length - answered.quiz.asked];
    }
  }

  /** Under the same conditions as `PlayCompletes`, the right answers the
      summary reports are exactly the replies, among those the quiz used,
      that matched their question's expected answer. */
  lemma PlayScores<V>(setup: Setup<V>, quiz: Quiz, draws: Draws, replies: seq<string>)
    requires quiz.Valid() && Answerable(setup.inflections)
    requires |replies| >= quiz.length - quiz.asked
    ensures Play(setup, quiz, draws, replies).quiz.correct
         == quiz.correct + Scored(setup, draws, quiz.asked, replies[..quiz.length - quiz.asked])
  {
    AnswerableBuilds(setup, draws);
    PlayIgnoresExtraReplies(setup, quiz, draws, replies);
    BuiltScores(setup, quiz, draws, replies[..quiz.length - quiz.asked]);
  }

  /** A run that waits for the learner has put its last question to the
      view: the last call is that question, the one built from the draws for
      the quiz's next position. */
  lemma {:induction false} PlayAwaitsOnQuestion<V>(setup: Setup<V>, quiz: Quiz, draws: Draws, replies: seq<string>)
    requires quiz.Valid()
    ensures var run := Play(setup, quiz, draws, replies);
      var next := MakeQuestion(setup.inflections, setup.jlpt, setup.store, draws(run.quiz.asked));
      run.stop == AwaitingLearner ==>
        && next.Ok?
        && |run.calls| > 0
        && run.calls[|run.calls| - 1] == QuestionAsked(next.value)
    decreases |replies|
  {
    if !quiz.Finished() {
      var made := MakeQuestion(setup.inflections, setup.jlpt, setup.store, draws(quiz.asked));
      if made.Ok? && replies != [] {
        var answered := quiz.Answer(Expected(setup.engine, made.value), replies[0]);
        var rest := Play(setup, answered.quiz, draws, replies[1..]);
        PlayAsks(setup, quiz, draws, replies, made.value);
        PlayAwaitsOnQuestion(setup, answered.quiz, draws, replies[1..]);
        var head: seq<ViewCall<V>> := [QuestionAsked(made.value), AnswerResult(answered.result)];
        assert rest.stop == AwaitingLearner ==> (head + rest.calls)[|head + rest.calls| - 1] == rest.calls[|rest.calls| - 1];
      }
    }
  }

  /** With no inflections configured, the first question cannot be built,
      whether or not the learner would ever reply: nothing is asked, nothing
      is reported, and the run stops there. */
  lemma EmptyConfigAsksNothing<V>(setup: Setup<V>, quiz: Quiz, draws: Draws, replies: seq<string>)
    requires quiz.Valid() && !quiz.Finished() && setup.inflections == map[]
    ensures Play(setup, quiz, draws, replies) == Run([], quiz, Crashed(NoInflections))
  {
  }

  /** A configuration that is not answerable can stop the quiz before its
      first question, whatever the replies (none included). */
  lemma UnanswerableCanCrash<V>(setup: Setup<V>, quiz: Quiz, replies: seq<string>) returns (draws: Draws)
    requires quiz.Valid() && !quiz.Finished() && !Answerable(setup.inflections)
    ensures Play(setup, quiz, draws, replies).stop.Crashed? && Play(setup, quiz, draws, replies).calls == []
  {
    var draw := UnanswerableFails(setup.inflections, setup.jlpt, setup.store);
    draws := (i: nat) => draw;
  }

  /** When every expected answer is "correct" and exactly the first `k`
      replies are "correct", exactly `k` replies score. */
  lemma {:induction false} ScoredFirst<V>(setup: Setup<V>, draws: Draws, from: nat, replies: seq<string>, k: nat)
    requires Answerable(setup.inflections)
    requires forall v, c :: setup.engine(v, c) == "correct"
    requires k <= |replies|
    requires forall i :: 0 <= i < |replies| ==> (replies[i] == "correct" <==> i < k)
    ensures Scored(setup, draws, from, replies) == k
    decreases |replies|
  {
    if replies != [] {
      var q := MakeQuestion(setup.inflections, setup.jlpt, setup.store, draws(from)).value;
      assert Expected(setup.engine, q) == "correct";
      var k' := if k == 0 then 0 else k - 1;
      forall i | 0 <= i < |replies[1..]|
        ensures replies[1..][i] == "correct" <==> i < k'
      {
        assert replies[1..][i] == replies[i + 1];
      }
      ScoredFirst(setup, draws, from + 1, replies[1..], k');
    }
  }

  /** The controller itself. */
  class Controller<V> {
    /** Where verbs come from (`db.get_verb(jlpt)`). */
    const store: Vocabulary<V>
    /** How a verb is conjugated. */
    const engine: Engine<V>
    /** `self.quiz`: None until a quiz is built. */
    var quiz: Option<Quiz>
    /** `self.quiz_inflections`. */
    var quizInflections: Adjacency
    /** `self.quiz_jlpt_level`: None until configured. */
    var quizJlptLevel: Option<int>
    /** Every call made on the view so far, in order. */
    var calls: seq<ViewCall<V>>

    /** The setup the quiz currently runs with. */
    function CurrentSetup(): Setup<V>
      reads this`quizInflections, this`quizJlptLevel
    {
      Setup(quizInflections, quizJlptLevel, store, engine)
    }

    /** `__init__`: no quiz, no inflections, no level, no view calls yet. */
    constructor (store: Vocabulary<V>, engine: Engine<V>)
      ensures this.store == store && this.engine == engine
      ensures quiz == None && quizInflections == map[] && quizJlptLevel == None
      ensures calls == []
    {
      this.store := store;
      this.engine := engine;
      quiz := None;
      quizInflections := map[];
      quizJlptLevel := None;
      calls := [];
    }

    /** `start`: start the view, then ask it for a configuration. */
    method Start()
      modifies this`calls
      ensures calls == old(calls) + [ViewStarted, ConfigRequested]
    {
      calls := calls + [ViewStarted, ConfigRequested];
    }

    /** `on_have_quiz_config`: keep the inflections and the level (0 when
        the configuration has no `jlpt` entry, the entry as given otherwise), then start a quiz of the requested
        length and play it with `draws` and `replies`. */
    method OnHaveQuizConfig(config: QuizConfig, draws: Draws, replies: seq<string>) returns (stop: Stop)
      modifies this`quiz, this`quizInflections, this`quizJlptLevel, this`calls
      ensures quizInflections == config.inflections
      ensures config.jlpt.None? ==> quizJlptLevel == Some(0)
      ensures config.jlpt.Some? ==> quizJlptLevel == config.jlpt.value
      ensures var run := Play(CurrentSetup(), FreshQuiz(config.numberOfQuestions), draws, replies);
        && calls == old(calls) + [QuizDisplayed] + run.calls
        && quiz == Some(run.quiz) && stop == run.stop
    {
      quizInflections := config.inflections;
      quizJlptLevel := config.jlpt.GetOr(Some(0));
      stop := NewQuiz(config.numberOfQuestions, draws, replies);
    }

    /** `new_quiz`: build a fresh quiz, tell the view, and start asking. */
    method NewQuiz(numberOfQuestions: nat, draws: Draws, replies: seq<string>) returns (stop: Stop)
      modifies this`quiz, this`calls
      ensures var run := Play(CurrentSetup(), FreshQuiz(numberOfQuestions), draws, replies);
        && calls == old(calls) + [QuizDisplayed] + run.calls
        && quiz == Some(run.quiz) && stop == run.stop
    {
      quiz := Some(FreshQuiz(numberOfQuestions));
      calls := calls + [QuizDisplayed];
      stop := MaybeAskQuestion(draws, replies);
    }

    /** `handle_answer`: score the reply to `question` and tell the view
        whether it was right. */
    method HandleAnswer(question: Question<V>, reply: string) returns (right: bool)
      requires quiz.Some? && !quiz.value.Finished()
      modifies this`quiz, this`calls
      ensures var answered := old(quiz.value).Answer(Expected(engine, question), reply);
        && right == answered.result
        && quiz == Some(answered.quiz)
        && calls == old(calls) + [AnswerResult(right)]
    {
      var answered := quiz.value.Answer(Expected(engine, question), reply);
      quiz := Some(answered.quiz);
      right := answered.result;
      calls := calls + [AnswerResult(right)];
    }

    /** The question thread of `maybe_ask_question`: have the quiz build a
        question with `make_question` and put it to the view. If the
        question cannot be built, the thread dies and nothing changes. */
    method Ask(draw: Draw) returns (made: Result<Question<V>, QuestionError>)
      modifies this`calls
      ensures made == MakeQuestion(quizInflections, quizJlptLevel, store, draw)
      ensures made.Err? ==> calls == old(calls)
      ensures made.Ok? ==> calls == old(calls) + [QuestionAsked(made.value)]
    {
      made := Questions.MakeQuestion(quizInflections, quizJlptLevel, store, draw);
      if made.Ok? {
        calls := calls + [QuestionAsked(made.value)];
      }
    }

    /** `maybe_ask_question`, with the view calling it back after every
        result unrolled into a loop: while the quiz is not finished, ask a
        question and, once the learner replies, handle the reply; once the
        quiz is finished, send the summary. */
    method MaybeAskQuestion(draws: Draws, replies: seq<string>) returns (stop: Stop)
      requires quiz.Some? && quiz.value.Valid()
      modifies this`quiz, this`calls
      ensures var run := Play(CurrentSetup(), old(quiz.value), draws, replies);
        && calls == old(calls) + run.calls
        && quiz == Some(run.quiz) && stop == run.stop
    {
      ghost var setup := CurrentSetup();
      ghost var goal := Play(setup, quiz.value, draws, replies);
      ghost var done: seq<ViewCall<V>> := [];
      var i := 0;
      assert replies[i..] == replies && calls == old(calls) + done;
      while !quiz.value.Finished()
        invariant 0 <= i <= |replies|
        invariant quiz.Some? && quiz.value.Valid()
        invariant calls == old(calls) + done
        invariant goal == After(done, Play(setup, quiz.value, draws, replies[i..]))
        decreases |replies| - i
      {
        ghost var current := quiz.value;
        var made := Ask(draws(quiz.value.asked));
        if made.Err? {
          PlayCrashes(setup, current, draws, replies[i..], made.error);
          EndAfter(goal, done, Run([], current, Crashed(made.error)), old(calls));
          return Crashed(made.error);
        }
        if i == |replies| {
          assert replies[i..] == [];
          PlayWaits(setup, current, draws, made.value);
          EndAfter(goal, done, Run([QuestionAsked(made.value)], current, AwaitingLearner), old(calls));
          return AwaitingLearner;
        }
        assert replies[i..][0] == replies[i] && replies[i..][1..] == replies[i + 1..];
        PlayTurnAfter(setup, current, draws, replies[i..], made.value, done);
        var right := HandleAnswer(made.value, replies[i]);
        ghost var turn := [QuestionAsked(made.value), AnswerResult(right)];
        AppendTurn(old(calls), done, QuestionAsked(made.value), AnswerResult(right));
        done := done + turn;
        i := i + 1;
      }
      var last := [QuizFinished(Report(quiz.value.length, quiz.value.correct))];
      calls := calls + last;
      stop := Completed;
      EndAfter(goal, done, Run(last, quiz.value, Completed), old(calls));
    }
  }

  /** The controller's full quiz cycle, on the specification: `n`
      questions over a configuration every draw can build a question from,
      a conjugation engine whose every answer is "correct", and a learner
      who gets exactly the first `k` right. `n` questions are asked, `n`
      results are reported, and the one summary, sent last, counts `k` right
      answers out of `n`. */
  lemma FullQuizCycleRun<V>(setup: Setup<V>, n: nat, draws: Draws, replies: seq<string>, k: nat)
    requires Answerable(setup.inflections)
    requires forall v, c :: setup.engine(v, c) == "correct"
    requires k <= n && |replies| == n
    requires forall i :: 0 <= i < n ==> (replies[i] == "correct" <==> i < k)
    ensures var run := Play(setup, FreshQuiz(n), draws, replies);
      && Count(run.calls, AskKind) == n && Count(run.calls, ResultKind) == n
      && Count(run.calls, FinishKind) == 1
      && |run.calls| > 0 && run.calls[|run.calls| - 1] == QuizFinished(Report(n, k))
  {
    var start := FreshQuiz(n);
    assert start.length - start.asked == n && start.correct == 0;
    assert replies[..n] == replies;
    var run := Play(setup, start, draws, replies);
    PlayCompletes(setup, start, draws, replies);
    PlayScores(setup, start, draws, replies);
    ScoredFirst(setup, draws, 0, replies, k);
    assert run.quiz.correct == k;
    assert run.calls[|run.calls| - 1] == QuizFinished(Report(n, k));
  }

  /** A log none of whose calls is of the given kind counts zero. */
  lemma {:induction false} CountNone<V>(calls: seq<ViewCall<V>>, kind: CallKind)
    requires forall i :: 0 <= i < |calls| ==> !IsKind(calls[i], kind)
    ensures Count(calls, kind) == 0
  {
    if calls != [] {
      CountNone(calls[1..], kind);
    }
  }

  /** The calls that open a session (starting the view, requesting the
      configuration, displaying the new quiz) add nothing to the counts of
      questions, results and summaries, and do not change the last call. */
  lemma AfterOpening<V>(run: seq<ViewCall<V>>)
    requires run != []
    ensures var calls := [ViewStarted, ConfigRequested] + [QuizDisplayed] + run;
      && Count(calls, AskKind) == Count(run, AskKind)
      && Count(calls, ResultKind) == Count(run, ResultKind)
      && Count(calls, FinishKind) == Count(run, FinishKind)
      && calls[|calls| - 1] == run[|run| - 1]
  {
    var opening: seq<ViewCall<V>> := [ViewStarted, ConfigRequested] + [QuizDisplayed];
    forall kind | kind != RightResultKind
      ensures Count(opening + run, kind) == Count(run, kind)
    {
      CountNone(opening, kind);
      CountConcat(opening, run, kind);
    }
  }

  /** The controller's full quiz cycle driven through the controller
      object, as its tests drive it: start, receive a configuration of
      `numberOfQuestions` questions that every draw can build a question
      from, with a conjugation engine whose every answer is "correct", and
      a learner who gets exactly the first `correctAnswers` right. */
  method FullQuizCycle<V>(store: Vocabulary<V>, inflections: Adjacency, numberOfQuestions: nat,
                          correctAnswers: nat, draws: Draws)
    returns (calls: seq<ViewCall<V>>)
    requires Answerable(inflections)
    requires correctAnswers <= numberOfQuestions
    ensures Count(calls, AskKind) == numberOfQuestions
    ensures Count(calls, ResultKind) == numberOfQuestions
    ensures Count(calls, FinishKind) == 1
    ensures calls[|calls| - 1] == QuizFinished(Report(numberOfQuestions, correctAnswers))
  {
    var engine: Engine<V> := (v, c) => "correct";
    var controller := new Controller(store, engine);
    controller.Start();
    assert controller.calls == [ViewStarted, ConfigRequested];
    var replies := seq(numberOfQuestions, i requires 0 <= i < numberOfQuestions =>
      if i < correctAnswers then "correct" else "wrong");
    var config := QuizConfig(numberOfQuestions, inflections, None);
    var stop := controller.OnHaveQuizConfig(config, draws, replies);
    calls := controller.calls;

    ghost var run := Play(controller.CurrentSetup(), FreshQuiz(numberOfQuestions), draws, replies);
    FullQuizCycleRun(controller.CurrentSetup(), numberOfQuestions, draws, replies, correctAnswers);
    assert calls == [ViewStarted, ConfigRequested] + [QuizDisplayed] + run.calls;
    AfterOpening(run.calls);
  }
}
