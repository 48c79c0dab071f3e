/**
 * The quiz data model and the built-in catalog of iQuiz/TableViewController.swift:
 * answers, questions and categories as values, the derived correct-answer index,
 * the category built from a string dictionary, and the table-view controller's
 * list of categories, which is filled in place from a fixed table.
 */
module QuizData {
  import opened Wrappers

  /** One answer offered for a question. */
  datatype Answer = Answer(text: string, isCorrect: bool)

  /** A question with its answers, in display order. */
  datatype Question = Question(text: string, answers: seq<Answer>)

  /**
   * A quiz topic. The memberwise initialiser of the source (questions defaulting
   * to the empty list) is the datatype constructor itself.
   */
  datatype QuizCategory = QuizCategory(
    id: string,
    name: string,
    image: string,
    description: string,
    questions: seq<Question>)

  // ---------------------------------------------------------------------------
  // The correct-answer index
  // ---------------------------------------------------------------------------

  /** Some answer in the list is marked correct. */
  predicate HasCorrect(answers: seq<Answer>) {
    exists i :: 0 <= i < |answers| && answers[i].isCorrect
  }

  /** Answer `k` is marked correct and no other answer is. */
  predicate UniqueCorrectAt(answers: seq<Answer>, k: int) {
    0 <= k < |answers| && answers[k].isCorrect &&
    forall j :: 0 <= j < |answers| && j != k ==> !answers[j].isCorrect
  }

  /** Exactly one answer of the question is marked correct. */
  predicate ExactlyOneCorrect(q: Question) {
    exists k :: 0 <= k < |q.answers| && UniqueCorrectAt(q.answers, k)
  }

  /**
   * The first position whose answer is marked correct, if any
   * (Swift's `answers.firstIndex(where: { $0.isCorrect })`).
   */
  function FirstCorrectIndex(answers: seq<Answer>): (r: Option<nat>)
    ensures r.Some? ==> r.value < |answers| && answers[r.value].isCorrect
    ensures r.Some? ==> forall j :: 0 <= j < r.value ==> !answers[j].isCorrect
    ensures r.None? <==> !HasCorrect(answers)
  {
    if |answers| == 0 then None
    else if answers[0].isCorrect then Some(0)
    else
      match FirstCorrectIndex(answers[1..])
      case None => None
      case Some(k) => Some(k + 1)
  }

  /**
   * `Question.correctAnswerIndex`: the smallest index of a correct answer, and 0
   * when no answer is correct (also when there are no answers at all).
   */
  function CorrectAnswerIndex(q: Question): (r: nat)
    ensures HasCorrect(q.answers) ==> r < |q.answers| && q.answers[r].isCorrect
    ensures HasCorrect(q.answers) ==> forall j :: 0 <= j < r ==> !q.answers[j].isCorrect
    ensures !HasCorrect(q.answers) ==> r == 0
    ensures |q.answers| > 0 ==> r < |q.answers|
  {
    match FirstCorrectIndex(q.answers)
    case Some(i) => i
    case None => 0
  }

  /** When exactly one answer is correct, the derived index is that answer's position. */
  lemma UniqueCorrectIndex(q: Question, k: int)
    requires UniqueCorrectAt(q.answers, k)
    ensures CorrectAnswerIndex(q) == k
  {
  }

  /** The same, stated for any question that has exactly one correct answer. */
  lemma ExactlyOneCorrectIndex(q: Question)
    requires ExactlyOneCorrect(q)
    ensures UniqueCorrectAt(q.answers, CorrectAnswerIndex(q))
  {
  }

  // ---------------------------------------------------------------------------
  // QuizCategory(dictionary:)
  // ---------------------------------------------------------------------------

  /** `dictionary[key] ?? default`. */
  function Lookup(dictionary: map<string, string>, key: string, default: string): string {
    if key in dictionary then dictionary[key] else default
  }

  /**
   * `QuizCategory(dictionary:)`. A missing `id` takes `freshId`, which stands for
   * the random `UUID().uuidString`; a missing name, image or description is "".
   */
  function FromDictionary(dictionary: map<string, string>, freshId: string): (c: QuizCategory)
    ensures "id" in dictionary ==> c.id == dictionary["id"]
    ensures "id" !in dictionary ==> c.id == freshId
    ensures "name" in dictionary ==> c.name == dictionary["name"]
    ensures "name" !in dictionary ==> c.name == ""
    ensures "image" in dictionary ==> c.image == dictionary["image"]
    ensures "image" !in dictionary ==> c.image == ""
    ensures "description" in dictionary ==> c.description == dictionary["description"]
    ensures "description" !in dictionary ==> c.description == ""
    ensures c.questions == []
  {
    QuizCategory(
      Lookup(dictionary, "id", freshId),
      Lookup(dictionary, "name", ""),
      Lookup(dictionary, "image", ""),
      Lookup(dictionary, "description", ""),
      [])
  }

  /** The dictionary shape of a category, as the rows of the built-in table have it. */
  function Dictionary(c: QuizCategory): map<string, string> {
    map["id" := c.id, "name" := c.name, "image" := c.image, "description" := c.description]
  }

  /** Building from a category's own dictionary gives back the category (minus its questions). */
  lemma FromDictionaryRoundTrip(c: QuizCategory, freshId: string)
    ensures FromDictionary(Dictionary(c), freshId) == c.(questions := [])
  {
  }

  // ---------------------------------------------------------------------------
  // The built-in catalog
  // ---------------------------------------------------------------------------

  /** The fixed table of `loadQuizCategories`. */
  function CategoriesData(): seq<map<string, string>> {
    [
      map[
        "id" := "math",
        "name" := "Mathematics",
        "image" := "math-logo",
        "description" := "Learn about the universal language of numbers and patterns."],
      map[
        "id" := "marvel",
        "name" := "Marvel Super Heroes",
        "image" := "marvel-avengers-logo",
        "description" := "Test your knowledge of Earth's mightiest heroes."],
      map[
        "id" := "science",
        "name" := "Science",
        "image" := "science-logo",
        "description" := "Explore the wonders of our natural world."]
    ]
  }

  /** `createMathQuestions`. */
  function MathQuestions(): seq<Question> {
    [
      Question("What is 2 + 2?", [
        Answer("3", false), Answer("4", true), Answer("5", false), Answer("6", false)]),
      Question("What is 7 \U{00C3}\U{2014} 8?", [
        Answer("54", false), Answer("56", true), Answer("64", false), Answer("48", false)]),
      Question("What is the square root of 144?", [
        Answer("10", false), Answer("12", true), Answer("14", false), Answer("16", false)])
    ]
  }

  /** `createMarvelQuestions`. */
  function MarvelQuestions(): seq<Question> {
    [
      Question("Who is Iron Man?", [
        Answer("Tony Stark", true), Answer("Steve Rogers", false),
        Answer("Bruce Banner", false), Answer("Thor", false)]),
      Question("What is Captain America's shield made of?", [
        Answer("Steel", false), Answer("Adamantium", false),
        Answer("Vibranium", true), Answer("Titanium", false)]),
      Question("Who is Thor's brother?", [
        Answer("Odin", false), Answer("Loki", true),
        Answer("Heimdall", false), Answer("Balder", false)])
    ]
  }

  /** `createScienceQuestions`. */
  function ScienceQuestions(): seq<Question> {
    [
      Question("What is the chemical symbol for water?", [
        Answer("O", false), Answer("W", false), Answer("H2O", true), Answer("WTR", false)]),
      Question("What planet is known as the Red Planet?", [
        Answer("Earth", false), Answer("Venus", false), Answer("Mars", true), Answer("Jupiter", false)]),
      Question("What is the largest organ in the human body?", [
        Answer("Heart", false), Answer("Liver", false), Answer("Brain", false), Answer("Skin", true)])
    ]
  }

  /** The `switch` of `loadQuestions`: the built-in questions for a category id. */
  function QuestionsFor(id: string): seq<Question> {
    if id == "math" then MathQuestions()
    else if id == "marvel" then MarvelQuestions()
    else if id == "science" then ScienceQuestions()
    else []
  }

  /**
   * The categories after `loadQuestions`: each category keeps its place and every
   * field but `questions`, which becomes the built-in list for its id.
   */
  function WithQuestions(categories: seq<QuizCategory>): (r: seq<QuizCategory>)
    ensures |r| == |categories|
    ensures forall i :: 0 <= i < |r| ==>
      r[i].id == categories[i].id && r[i].name == categories[i].name &&
      r[i].image == categories[i].image && r[i].description == categories[i].description
    ensures forall i :: 0 <= i < |r| ==> r[i].questions == QuestionsFor(categories[i].id)
  {
    if categories == [] then []
    else [categories[0].(questions := QuestionsFor(categories[0].id))] + WithQuestions(categories[1..])
  }

  /** An unknown id is given no questions. */
  lemma UnknownIdGetsNoQuestions(categories: seq<QuizCategory>, i: nat)
    requires i < |categories|
    requires categories[i].id !in {"math", "marvel", "science"}
    ensures WithQuestions(categories)[i].questions == []
  {
  }

  /** `categoriesData.map { QuizCategory(dictionary: $0) }`. */
  function DefaultCategories(freshId: string): seq<QuizCategory> {
    var data := CategoriesData();
    seq(|data|, i requires 0 <= i < |data| => FromDictionary(data[i], freshId))
  }

  /** The catalog `loadQuizCategories` leaves behind. */
  function DefaultCatalog(freshId: string): seq<QuizCategory> {
    WithQuestions(DefaultCategories(freshId))
  }

  /**
   * The three built-in categories, in order, with their ids, names, images and
   * descriptions; every row of the table has an id, so the random id is never used.
   */
  lemma DefaultCategoriesAre(freshId: string)
    ensures DefaultCategories(freshId) == [
      QuizCategory("math", "Mathematics", "math-logo",
        "Learn about the universal language of numbers and patterns.", []),
      QuizCategory("marvel", "Marvel Super Heroes", "marvel-avengers-logo",
        "Test your knowledge of Earth's mightiest heroes.", []),
      QuizCategory("science", "Science", "science-logo",
        "Explore the wonders of our natural world.", [])]
  {
  }

  /** The full built-in catalog, each category holding its own question list. */
  lemma DefaultCatalogIs(freshId: string)
    ensures DefaultCatalog(freshId) == [
      QuizCategory("math", "Mathematics", "math-logo",
        "Learn about the universal language of numbers and patterns.", MathQuestions()),
      QuizCategory("marvel", "Marvel Super Heroes", "marvel-avengers-logo",
        "Test your knowledge of Earth's mightiest heroes.", MarvelQuestions()),
      QuizCategory("science", "Science", "science-logo",
        "Explore the wonders of our natural world.", ScienceQuestions())]
  {
  }

  /** A question as the built-in catalog has them: four answers, exactly one correct. */
  predicate WellFormedQuestion(q: Question) {
    |q.answers| == 4 && ExactlyOneCorrect(q)
  }

  /** The correct-answer indices of a list of questions, in order. */
  function CorrectIndices(questions: seq<Question>): (r: seq<nat>)
    ensures |r| == |questions|
  {
    seq(|questions|, i requires 0 <= i < |questions| => CorrectAnswerIndex(questions[i]))
  }

  lemma MathQuestionsWellFormed()
    ensures forall q :: q in MathQuestions() ==> WellFormedQuestion(q)
  {
    var qs := MathQuestions();
    assert UniqueCorrectAt(qs[0].answers, 1);
    assert UniqueCorrectAt(qs[1].answers, 1);
    assert UniqueCorrectAt(qs[2].answers, 1);
  }

  lemma MarvelQuestionsWellFormed()
    ensures forall q :: q in MarvelQuestions() ==> WellFormedQuestion(q)
  {
    var qs := MarvelQuestions();
    assert UniqueCorrectAt(qs[0].answers, 0);
    assert UniqueCorrectAt(qs[1].answers, 2);
    assert UniqueCorrectAt(qs[2].answers, 1);
  }

  lemma ScienceQuestionsWellFormed()
    ensures forall q :: q in ScienceQuestions() ==> WellFormedQuestion(q)
  {
    var qs := ScienceQuestions();
    assert UniqueCorrectAt(qs[0].answers, 2);
    assert UniqueCorrectAt(qs[1].answers, 2);
    assert UniqueCorrectAt(qs[2].answers, 3);
  }

  /**
   * The built-in catalog has 3 categories, each with 3 questions, each question
   * with 4 answers of which exactly one is correct; in particular no question has
   * an empty answer list, so the correct-answer lookup is always in bounds.
   */
  lemma DefaultCatalogWellFormed(freshId: string)
    ensures |DefaultCatalog(freshId)| == 3
    ensures forall c :: c in DefaultCatalog(freshId) ==> |c.questions| == 3
    ensures forall c, q :: c in DefaultCatalog(freshId) && q in c.questions ==>
      WellFormedQuestion(q) && 0 < |q.answers|
  {
    DefaultCatalogIs(freshId);
    MathQuestionsWellFormed();
    MarvelQuestionsWellFormed();
    ScienceQuestionsWellFormed();
  }

  lemma MathCorrectIndices()
    ensures CorrectIndices(MathQuestions()) == [1, 1, 1]
  {
  }

  lemma MarvelCorrectIndices()
    ensures CorrectIndices(MarvelQuestions()) == [0, 2, 1]
  {
  }

  lemma ScienceCorrectIndices()
    ensures CorrectIndices(ScienceQuestions()) == [2, 2, 3]
  {
  }

  /** The built-in correct indices: math [1,1,1], marvel [0,2,1], science [2,2,3]. */
  lemma DefaultCorrectIndices(freshId: string)
    ensures |DefaultCatalog(freshId)| == 3
    ensures CorrectIndices(DefaultCatalog(freshId)[0].questions) == [1, 1, 1]
    ensures CorrectIndices(DefaultCatalog(freshId)[1].questions) == [0, 2, 1]
    ensures CorrectIndices(DefaultCatalog(freshId)[2].questions) == [2, 2, 3]
  {
    DefaultCatalogIs(freshId);
    MathCorrectIndices();
    MarvelCorrectIndices();
    ScienceCorrectIndices();
  }

  // ---------------------------------------------------------------------------
  // The table-view controller's category list
  // ---------------------------------------------------------------------------

  /** The state of `TableViewController`: the list of categories it shows. */
  class CategoryList {
    var quizCategories: seq<QuizCategory>

    constructor ()
      ensures quizCategories == []
    {
      quizCategories := [];
    }

    /**
     * `loadQuizCategories`: replaces the list by the categories of the fixed table
     * and then fills in their questions.
     */
    method LoadQuizCategories(freshId: string)
      modifies this
      ensures quizCategories == DefaultCatalog(freshId)
    {
      var data := CategoriesData();
      quizCategories := seq(|data|, i requires 0 <= i < |data| => FromDictionary(data[i], freshId));
      LoadQuestions();
    }

    /**
     * `loadQuestions`: overwrites each category's questions in place, dispatching
     * on its id; nothing else about the list changes.
     */
    method LoadQuestions()
      modifies this
      ensures quizCategories == WithQuestions(old(quizCategories))
    {
      ghost var before := quizCategories;
      for i := 0 to |quizCategories|
        invariant |quizCategories| == |before|
        invariant forall j :: 0 <= j < i ==>
          quizCategories[j] == before[j].(questions := QuestionsFor(before[j].id))
        invariant forall j :: i <= j < |quizCategories| ==> quizCategories[j] == before[j]
      {
        var id := quizCategories[i].id;
        var questions;
        if id == "math" {
          questions := MathQuestions();
        } else if id == "marvel" {
          questions := MarvelQuestions();
        } else if id == "science" {
          questions := ScienceQuestions();
        } else {
          questions := [];
        }
        quizCategories := quizCategories[i := quizCategories[i].(questions := questions)];
      }
      var after := WithQuestions(before);
      assert forall j :: 0 <= j < |after| ==> quizCategories[j] == after[j];
    }
  }
}
