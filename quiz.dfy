/** The quiz object the controller drives (`lib/quiz.Quiz`). Its source is not
    part of this model, so only what the controller and its tests rely on is
    modelled: a length, how many questions have been answered, and how many of
    those answers were right. */
module QuizCounter {

  /** What `answer_question` returns (whether the answer was right) together
      with the quiz after the answer. */
  datatype Answered = Answered(result: bool, quiz: Quiz)

  datatype Quiz = Quiz(length: nat, asked: nat, correct: nat) {

    /** The counters are consistent: no more right answers than answers, and
        no more answers than questions. */
    predicate Valid() {
      correct <= asked <= length
    }

    /** `finished()`: every question has been answered. */
    predicate Finished() {
      asked >= length
    }

    /** `answer_question(given)` for a question whose expected answer is
        `expected`: the answer counts, and it counts as right exactly when it
        equals the expected answer character for character. */
    function Answer(expected: string, given: string): (out: Answered)
      requires !Finished()
      ensures out.result <==> given == expected
      ensures out.quiz.length == length && out.quiz.asked == asked + 1
      ensures out.quiz.correct == if out.result then correct + 1 else correct
      ensures Valid() ==> out.quiz.Valid()
    {
      var right := given == expected;
      Answered(right, Quiz(length, asked + 1, if right then correct + 1 else correct))
    }
  }

  /** `Quiz(number_of_questions, ...)`: nothing answered yet. */
  function FreshQuiz(length: nat): (q: Quiz)
    ensures q.Valid() && q.length == length && q.asked == 0 && q.correct == 0
    ensures q.Finished() <==> length == 0
  {
    Quiz(length, 0, 0)
  }
}
