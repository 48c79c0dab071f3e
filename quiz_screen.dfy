/**
 * The state of iQuiz/QuizViewController.swift: the category being played, the
 * index of the question on screen, the score so far, the selected answer row and
 * whether the submit button is enabled. Showing a question clears the selection,
 * selecting a row records it, and submitting scores the selection and hands the
 * state on to the answer screen.
 */
module QuizScreen {
  import opened Wrappers
  import opened QuizData
  import opened AnswerScreen

  /** The checkmark rule of the answer table: a row is checked iff it is the selected one. */
  function HasCheckmark(selected: Option<nat>, row: nat): (checked: bool)
    ensures checked <==> selected == Some(row)
  {
    match selected
    case Some(s) => s == row
    case None => false
  }

  /** At most one row carries the checkmark, and with no selection none does. */
  lemma CheckmarkOnlyOnSelectedRow(selected: Option<nat>, row: nat, other: nat)
    requires HasCheckmark(selected, row) && HasCheckmark(selected, other)
    ensures row == other && selected.Some? && selected.value == row
  {
  }

  /**
   * The number of answer rows: none once the index is past the last question,
   * otherwise the current question's answer count.
   */
  function AnswerRows(category: QuizCategory, currentQuestionIndex: nat): (n: nat)
    ensures currentQuestionIndex >= |category.questions| ==> n == 0
    ensures currentQuestionIndex < |category.questions| ==>
      n == |category.questions[currentQuestionIndex].answers|
  {
    if currentQuestionIndex < |category.questions| then
      |category.questions[currentQuestionIndex].answers|
    else
      0
  }

  /** A row that the table shows is an answer of a question the category has. */
  lemma ShownRowIsAnswer(category: QuizCategory, currentQuestionIndex: nat, row: nat)
    requires row < AnswerRows(category, currentQuestionIndex)
    ensures currentQuestionIndex < |category.questions|
    ensures row < |category.questions[currentQuestionIndex].answers|
  {
  }

  class QuizSession {
    var category: QuizCategory
    var currentQuestionIndex: nat
    var userScore: nat
    var selectedAnswerIndex: Option<nat>
    var submitEnabled: bool
    /** Answers submitted so far in this quiz, on this screen and the earlier ones. */
    ghost var answered: nat

    /**
     * The score never exceeds the answers submitted; submit is enabled exactly
     * when a row is selected; a selected row is one the table shows.
     */
    ghost predicate Valid()
      reads this
    {
      userScore <= answered &&
      submitEnabled == selectedAnswerIndex.Some? &&
      (selectedAnswerIndex.Some? ==>
        selectedAnswerIndex.value < AnswerRows(category, currentQuestionIndex))
    }

    /**
     * `tableView(_:numberOfRowsInSection:)` of the answer table: the session's view
     * of the row-count rule `AnswerRows`, on its own category and index.
     */
    function AnswerRowCount(): (n: nat)
      reads this
      ensures currentQuestionIndex >= |category.questions| ==> n == 0
      ensures currentQuestionIndex < |category.questions| ==>
        n == |category.questions[currentQuestionIndex].answers|
      ensures n > 0 ==> currentQuestionIndex < |category.questions|
    {
      AnswerRows(category, currentQuestionIndex)
    }

    /**
     * Whether answer row `row` is drawn with a checkmark: the session's view of
     * the checkmark rule `HasCheckmark`, on its own selection.
     */
    function RowChecked(row: nat): (checked: bool)
      reads this
      ensures checked <==> selectedAnswerIndex == Some(row)
    {
      HasCheckmark(selectedAnswerIndex, row)
    }

    /**
     * The quiz screen as the category list's segue creates it: the chosen
     * category, the first question, no score and no selection.
     */
    constructor Start(category: QuizCategory)
      ensures Valid()
      ensures this.category == category
      ensures currentQuestionIndex == 0 && userScore == 0 && answered == 0
      ensures selectedAnswerIndex == None && !submitEnabled
    {
      this.category := category;
      currentQuestionIndex := 0;
      userScore := 0;
      selectedAnswerIndex := None;
      submitEnabled := false;
      answered := 0;
    }

    /**
     * The quiz screen as the answer screen's next-question segue creates it: the
     * category, index and score it was handed, and no selection. `submitted` is
     * the number of answers submitted so far in the quiz, which the previous
     * screen's invariant bounds the score by.
     */
    constructor Continue(step: NextStep, ghost submitted: nat)
      requires step.NextQuestion?
      requires step.userScore <= submitted
      ensures Valid()
      ensures category == step.category
      ensures currentQuestionIndex == step.currentQuestionIndex
      ensures userScore == step.userScore
      ensures answered == submitted
      ensures selectedAnswerIndex == None && !submitEnabled
    {
      category := step.category;
      currentQuestionIndex := step.currentQuestionIndex;
      userScore := step.userScore;
      selectedAnswerIndex := None;
      submitEnabled := false;
      answered := submitted;
    }

    /**
     * `displayCurrentQuestion`: clears the selection and disables submit; reading
     * the current question needs the index to be in range.
     */
    method Display()
      requires Valid()
      requires currentQuestionIndex < |category.questions|
      modifies this
      ensures Valid()
      ensures selectedAnswerIndex == None && !submitEnabled
      ensures category == old(category) && currentQuestionIndex == old(currentQuestionIndex)
      ensures userScore == old(userScore) && answered == old(answered)
    {
      selectedAnswerIndex := None;
      submitEnabled := false;
    }

    /** `viewDidLoad`: shows the current question and leaves submit disabled. */
    method ViewDidLoad()
      requires Valid()
      requires currentQuestionIndex < |category.questions|
      modifies this
      ensures Valid()
      ensures selectedAnswerIndex == None && !submitEnabled
      ensures category == old(category) && currentQuestionIndex == old(currentQuestionIndex)
      ensures userScore == old(userScore) && answered == old(answered)
    {
      Display();
      submitEnabled := false;
    }

    /**
     * `tableView(_:didSelectRowAt:)`: records the tapped row, one the table shows,
     * as the selection and enables submit.
     */
    method Select(row: nat)
      requires Valid()
      requires row < AnswerRowCount()
      modifies this
      ensures Valid()
      ensures selectedAnswerIndex == Some(row) && submitEnabled
      ensures category == old(category) && currentQuestionIndex == old(currentQuestionIndex)
      ensures userScore == old(userScore) && answered == old(answered)
    {
      selectedAnswerIndex := Some(row);
      submitEnabled := true;
    }

    /**
     * `submitButtonTapped`: an alert is raised exactly when nothing is selected,
     * which is exactly when the submit button is disabled; nothing else happens.
     */
    method SubmitTapped() returns (showsAlert: bool)
      requires Valid()
      ensures showsAlert <==> selectedAnswerIndex.None?
      ensures showsAlert <==> !submitEnabled
    {
      showsAlert := selectedAnswerIndex == None;
    }

    /**
     * `prepare(for:)` towards the answer screen. Without a selection nothing
     * happens. With one, the score grows by one exactly when the selected answer
     * is correct, and the question, category, verdict, index, question count and
     * new score are handed over.
     */
    method Score() returns (handoff: Option<AnswerState>)
      requires Valid()
      modifies this
      ensures Valid()
      ensures category == old(category) && currentQuestionIndex == old(currentQuestionIndex)
      ensures selectedAnswerIndex == old(selectedAnswerIndex) && submitEnabled == old(submitEnabled)
      ensures selectedAnswerIndex.None? ==>
        handoff.None? && userScore == old(userScore) && answered == old(answered)
      ensures selectedAnswerIndex.Some? ==>
        currentQuestionIndex < |category.questions| &&
        selectedAnswerIndex.value < |category.questions[currentQuestionIndex].answers| &&
        var question := category.questions[currentQuestionIndex];
        var isCorrect := question.answers[selectedAnswerIndex.value].isCorrect;
        userScore == old(userScore) + (if isCorrect then 1 else 0) &&
        answered == old(answered) + 1 &&
        handoff == Some(AnswerState(question, category, isCorrect,
          currentQuestionIndex, |category.questions|, userScore))
      ensures handoff.Some? ==> Consistent(handoff.value)
      ensures handoff.Some? && old(answered) <= currentQuestionIndex ==>
        handoff.value.userScore <= currentQuestionIndex + 1
    {
      if selectedAnswerIndex == None {
        return None;
      }
      var selectedIndex := selectedAnswerIndex.value;
      var question := category.questions[currentQuestionIndex];
      var isCorrect := question.answers[selectedIndex].isCorrect;
      if isCorrect {
        userScore := userScore + 1;
      }
      answered := answered + 1;
      handoff := Some(AnswerState(question, category, isCorrect,
        currentQuestionIndex, |category.questions|, userScore));
    }
  }

  /**
   * The answer screen's next-question segue as a whole: from the answer state a
   * quiz screen handed over, it creates the next quiz screen, carrying over the
   * count of answers submitted, so the score bound and an in-range index hold on
   * the new screen too.
   */
  method NextScreen(session: QuizSession, s: AnswerState) returns (next: QuizSession)
    requires session.Valid() && Consistent(s)
    requires s.userScore == session.userScore
    requires Next(s).NextQuestion?
    ensures fresh(next) && next.Valid()
    ensures next.answered == session.answered
    ensures next.category == s.category
    ensures next.currentQuestionIndex == s.currentQuestionIndex + 1
    ensures next.userScore == s.userScore
    ensures next.currentQuestionIndex < |next.category.questions|
  {
    NextStaysInRange(s);
    next := new QuizSession.Continue(Next(s), session.answered);
  }
}
