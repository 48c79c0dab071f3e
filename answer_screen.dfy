/**
 * The decisions of iQuiz/AnswerViewController.swift. The controller's fields are
 * written once, by the quiz screen's segue, and only read afterwards, so its
 * state is a value: the verdict and the correct answer it shows, and the choice
 * between the next question and the results screen, are functions of it.
 */
module AnswerScreen {
  import opened QuizData

  /** The fields `AnswerViewController` receives from the quiz screen. */
  datatype AnswerState = AnswerState(
    question: Question,
    category: QuizCategory,
    isCorrect: bool,
    currentQuestionIndex: nat,
    totalQuestions: nat,
    userScore: nat)

  /** Where the next button leads, with the fields the destination receives. */
  datatype NextStep =
    | NextQuestion(category: QuizCategory, currentQuestionIndex: nat, userScore: nat)
    | ShowResults(categoryName: string, score: nat, totalQuestions: nat)

  /**
   * What the quiz screen's segue guarantees about the state it hands over: the
   * question is the category's current one, the total is the category's question
   * count, and the question has an answer (one was selected).
   */
  predicate Consistent(s: AnswerState) {
    s.totalQuestions == |s.category.questions| &&
    s.currentQuestionIndex < s.totalQuestions &&
    s.question == s.category.questions[s.currentQuestionIndex] &&
    0 < |s.question.answers|
  }

  /** The result label: "Correct!" exactly when the submitted answer was correct. */
  function Verdict(isCorrect: bool): (text: string)
    ensures isCorrect <==> text == "Correct!"
    ensures !isCorrect <==> text == "Incorrect"
  {
    if isCorrect then "Correct!" else "Incorrect"
  }

  /**
   * The answer shown as the correct one, `question.answers[question.correctAnswerIndex]`;
   * the lookup is only in bounds when the question has answers. It is an answer of
   * the question: the first correct one whenever the question has any, and the
   * first answer otherwise.
   */
  function CorrectAnswer(q: Question): (a: Answer)
    requires 0 < |q.answers|
    ensures a in q.answers
    ensures HasCorrect(q.answers) ==> a.isCorrect
    ensures HasCorrect(q.answers) ==>
      exists i :: 0 <= i < |q.answers| && q.answers[i] == a &&
        forall j :: 0 <= j < i ==> !q.answers[j].isCorrect
    ensures !HasCorrect(q.answers) ==> a == q.answers[0]
  {
    q.answers[CorrectAnswerIndex(q)]
  }

  /**
   * `nextButtonTapped` with the `prepare(for:)` that follows it: the next question
   * when one remains, carrying the category, the next index and the score; the
   * results otherwise, carrying the category name, the score and the total.
   */
  function Next(s: AnswerState): (step: NextStep)
    ensures step.NextQuestion? <==> s.currentQuestionIndex + 1 < s.totalQuestions
    ensures step.NextQuestion? ==>
      step.category == s.category &&
      step.currentQuestionIndex == s.currentQuestionIndex + 1 &&
      step.userScore == s.userScore
    ensures step.ShowResults? ==>
      step.categoryName == s.category.name &&
      step.score == s.userScore &&
      step.totalQuestions == s.totalQuestions
  {
    if s.currentQuestionIndex + 1 < s.totalQuestions then
      NextQuestion(s.category, s.currentQuestionIndex + 1, s.userScore)
    else
      ShowResults(s.category.name, s.userScore, s.totalQuestions)
  }

  /**
   * From a consistent answer screen, the next question is one the category has,
   * and the results are reached only after its last question.
   */
  lemma NextStaysInRange(s: AnswerState)
    requires Consistent(s)
    ensures Next(s).NextQuestion? ==>
      Next(s).currentQuestionIndex < |Next(s).category.questions|
    ensures Next(s).ShowResults? ==>
      s.currentQuestionIndex == |s.category.questions| - 1
  {
  }

  /**
   * A score that does not exceed the questions answered so far (the current one
   * included) still does not exceed them on the next question, and does not
   * exceed the total on the results screen.
   */
  lemma NextKeepsScoreBound(s: AnswerState)
    requires Consistent(s)
    requires s.userScore <= s.currentQuestionIndex + 1
    ensures Next(s).NextQuestion? ==> Next(s).userScore <= Next(s).currentQuestionIndex
    ensures Next(s).ShowResults? ==> Next(s).score <= Next(s).totalQuestions
  {
  }
}
