# iQuiz quiz core in Dafny

This project models the quiz core of iQuiz, an iOS quiz app. The model covers:

- **Data model** (`QuizData`, from `iQuiz/TableViewController.swift`). Answers, questions and categories are values. The correct-answer index is derived as "first correct answer, else 0". A category can be built from a string dictionary, with defaults for missing keys.
- **Built-in catalog** (`QuizData`). The fixed table of three categories and their question lists. The category list of the table-view controller is a class, `CategoryList`. Its `LoadQuestions` loop fills each category's questions in place, dispatching on the category id.
- **Quiz screen** (`QuizScreen`, from `iQuiz/QuizViewController.swift`). A class `QuizSession` holds the current question index, the score, the selected answer row and the submit-button flag. Its methods are: show a question, select a row, raise the "no answer" alert, and score on submit. Scoring hands the state on to the answer screen.
- **Answer screen** (`AnswerScreen`, from `iQuiz/AnswerViewController.swift`). The answer screen's fields are written once by the segue and then only read, so its state is a value, `AnswerState`. The verdict, the correct-answer lookup and the next-question-or-results choice are functions of it. The next-question segue, `QuizScreen.NextScreen`, creates the next quiz screen through `QuizSession.Continue`.

The main invariants proved are:

- `QuizSession.Valid()`: the score never exceeds the number of answers submitted in the whole quiz so far. A ghost counter, `answered`, counts them. `QuizScreen.NextScreen`, the next-question segue, carries it over to the next screen, together with an index that is in range.
- A selected row is always an answer of a question the category has, so scoring is always in bounds.
- The index handed to the next quiz screen is always a question the category has.
- If each question is submitted once, the score never exceeds the total on the results screen. If a question is submitted again, for example after navigating back, the score can go above the total. It still never exceeds the number of answers submitted.
- Every question of the built-in catalog has four answers, and exactly one of them is correct. So the correct-answer lookup `answers[correctAnswerIndex]` is in bounds for every question of the built-in catalog. The model requires a non-empty answer list for that lookup. Along the quiz flow this always holds, because an answer had to be selected.

Files: `wrappers.dfy` (the `Option` type), `quiz_data.dfy`, `answer_screen.dfy`, `quiz_screen.dfy`.

## Model

| member | source | states |
|---|---|---|
| `QuizData.FirstCorrectIndex` | iQuiz/TableViewController.swift:19 | the result is the position of a correct answer with no correct answer before it, and it is none exactly when no answer is correct |
| `QuizData.CorrectAnswerIndex` | iQuiz/TableViewController.swift:18-20 | if some answer is correct, the result is the smallest correct position; otherwise it is 0, also for an empty list; it is in bounds whenever the list is non-empty |
| `QuizData.UniqueCorrectIndex` | iQuiz/TableViewController.swift:18-20 | when answer k is the only correct one, the correct-answer index is k |
| `QuizData.ExactlyOneCorrectIndex` | iQuiz/TableViewController.swift:18-20 | for a question with exactly one correct answer, the index points at that answer |
| `QuizData.FromDictionary` | iQuiz/TableViewController.swift:38-44 | id, name, image and description are copied when present; a missing id takes the supplied fresh id, any other missing key gives ""; questions start empty |
| `QuizData.FromDictionaryRoundTrip` | iQuiz/TableViewController.swift:38-44 | building from a category's own four-key dictionary gives back that category with no questions |
| `QuizData.WithQuestions` | iQuiz/TableViewController.swift:84-95 | loading questions keeps the count, the order and each category's id, name, image and description; each category's questions become the built-in list for its id |
| `QuizData.UnknownIdGetsNoQuestions` | iQuiz/TableViewController.swift:92-93 | a category whose id is not math, marvel or science gets no questions |
| `QuizData.DefaultCategoriesAre` | iQuiz/TableViewController.swift:60-79 | the table yields exactly the math, marvel and science categories, in order, with their names, images and descriptions and no questions, whatever the fresh id is |
| `QuizData.DefaultCatalogIs` | iQuiz/TableViewController.swift:59-96 | the loaded catalog is the three categories, each holding its own built-in question list |
| `QuizData.MathQuestionsWellFormed` | iQuiz/TableViewController.swift:98-128 | each math question has four answers, exactly one correct |
| `QuizData.MarvelQuestionsWellFormed` | iQuiz/TableViewController.swift:130-160 | each Marvel question has four answers, exactly one correct |
| `QuizData.ScienceQuestionsWellFormed` | iQuiz/TableViewController.swift:162-192 | each science question has four answers, exactly one correct |
| `QuizData.DefaultCatalogWellFormed` | iQuiz/TableViewController.swift:98-192 | the catalog has 3 categories of 3 questions each; every question has 4 answers (so a non-empty list), exactly one correct |
| `QuizData.MathCorrectIndices` | iQuiz/TableViewController.swift:100-126 | the math correct indices are [1, 1, 1] |
| `QuizData.MarvelCorrectIndices` | iQuiz/TableViewController.swift:132-158 | the Marvel correct indices are [0, 2, 1] |
| `QuizData.ScienceCorrectIndices` | iQuiz/TableViewController.swift:164-190 | the science correct indices are [2, 2, 3] |
| `QuizData.DefaultCorrectIndices` | iQuiz/TableViewController.swift:100-190 | in the loaded catalog the correct indices are math [1,1,1], marvel [0,2,1], science [2,2,3] |
| `QuizData.CategoryList.constructor` | iQuiz/TableViewController.swift:51 | the category list starts empty |
| `QuizData.CategoryList.LoadQuizCategories` | iQuiz/TableViewController.swift:59-81 | afterwards the list is exactly the built-in catalog |
| `QuizData.CategoryList.LoadQuestions` | iQuiz/TableViewController.swift:83-96 | the in-place loop leaves the list equal to the old list with the questions loaded, so only the questions fields change |
| `QuizScreen.HasCheckmark` | iQuiz/QuizViewController.swift:94-98 | a row is checked exactly when it is the selected row |
| `QuizScreen.CheckmarkOnlyOnSelectedRow` | iQuiz/QuizViewController.swift:94-98 | two checked rows are the same row, and that row is the selection |
| `QuizScreen.AnswerRows` | iQuiz/QuizViewController.swift:84-85 | 0 rows when the index is past the last question, else the current question's answer count |
| `QuizScreen.ShownRowIsAnswer` | iQuiz/QuizViewController.swift:84-91 | a row the table shows lies within the answers of a question the category has |
| `QuizScreen.QuizSession.AnswerRowCount` | iQuiz/QuizViewController.swift:83-86 | the answer table has no rows when the index is past the last question, and otherwise one row per answer of the current question; any row at all means the index is in range |
| `QuizScreen.QuizSession.RowChecked` | iQuiz/QuizViewController.swift:88-101 | the session draws a checkmark on a row exactly when it is the selected one |
| `QuizScreen.QuizSession.Start` | iQuiz/QuizViewController.swift:12-15 | a new quiz screen has the chosen category, index 0, score 0, no selection, and satisfies the invariant |
| `QuizScreen.QuizSession.Continue` | iQuiz/AnswerViewController.swift:46-51 | the next quiz screen receives the handed category, the next index and the same score, whatever that score is, with no selection; its submission count is the one it is given, and the invariant holds when that count bounds the score |
| `QuizScreen.NextScreen` | iQuiz/AnswerViewController.swift:45-51 | the next-question hand-over creates a fresh quiz screen with the same category, index + 1 and the same score; the count of answers submitted carries over, the invariant holds, and the new index is a question the category has |
| `QuizScreen.QuizSession.Display` | iQuiz/QuizViewController.swift:38-44 | showing a question clears the selection and disables submit; the index must be in range; nothing else changes |
| `QuizScreen.QuizSession.ViewDidLoad` | iQuiz/QuizViewController.swift:24-29 | loading the screen shows the current question with submit disabled |
| `QuizScreen.QuizSession.Select` | iQuiz/QuizViewController.swift:103-106 | selecting a shown row makes it the selection and enables submit; score and index are unchanged |
| `QuizScreen.QuizSession.SubmitTapped` | iQuiz/QuizViewController.swift:71-78 | the "no answer selected" alert appears exactly when there is no selection, which on a valid screen is exactly when submit is disabled; nothing changes |
| `QuizScreen.QuizSession.Score` | iQuiz/QuizViewController.swift:50-68 | with no selection nothing changes and nothing is handed over; otherwise the score grows by 1 exactly when the selected answer is correct, and the handed-over state is consistent; the invariant is kept |
| `AnswerScreen.Verdict` | iQuiz/AnswerViewController.swift:34-40 | the verdict is "Correct!" if and only if the answer was correct, and "Incorrect" otherwise |
| `AnswerScreen.CorrectAnswer` | iQuiz/AnswerViewController.swift:42 | needs a non-empty answer list; the shown answer is one of the question's answers: the first correct one whenever any is correct, and otherwise the first answer |
| `AnswerScreen.Next` | iQuiz/AnswerViewController.swift:45-66 | goes to the next question iff index + 1 < total, handing on the category, index + 1 and the score; otherwise goes to results, handing on the category name, the score and the total |
| `AnswerScreen.NextStaysInRange` | iQuiz/AnswerViewController.swift:49-62 | from a consistent answer screen, the next index is a question of the category, and results follow only the last question |
| `AnswerScreen.NextKeepsScoreBound` | iQuiz/AnswerViewController.swift:48-66 | a score of at most index + 1 stays at most the next index, and on the results screen it is at most the total |

## Left out

- All UIKit rendering and wiring is left out: labels, colours, cell dequeueing, row heights, alerts, segue identifiers, outlets and actions. Only the state changes and decisions behind them are modelled. The `as?` casts on segue destinations are taken to succeed.
- `UUID().uuidString`, the default category id, is random. It is the parameter `freshId`. Every row of the built-in table has an id, so the loaded catalog never depends on it.
- `QuizData.CategoryList`: the category table's row count, its cell contents and the settings alert are UI. The category chosen by the start-quiz segue is the argument of `QuizSession.Start`.
- `QuizScreen.QuizSession.Select` assumes the tapped row is one the table shows. This is the only kind of row the table view reports. The source does not check it.
- `QuizScreen.QuizSession.Score` can be called more than once on the same screen, for example after navigating back. Then the score can exceed the question count, but not the number of submitted answers. The model allows this, as the source does. The bound "score ≤ index + 1", and with it "score ≤ total" on the results screen, is stated only for when each question is submitted once.
- `iQuiz/ResultsViewController.swift` grading is left out. It works on a floating-point percentage and truncates it. With zero questions it divides by zero. Only the values handed to it (category name, score, total) are modelled, in `AnswerScreen.Next`.
- `iQuiz/ViewController.swift` is not part of this model. It is an earlier static list with table-view code and no further logic.
- The `print` debugging calls are left out.
- Swift's 64-bit `Int` traps on overflow. The index and the score only grow by one per question, so `nat` is used.
- `category: QuizCategory!` could crash on a missing category. The model always has a category.
- `QuizData.MathQuestions`: the second math question is "What is 7 Ã— 8?", with the characters U+00C3 and U+2014, exactly as the source file stores it. It is probably a mis-encoded multiplication sign, but the model does not correct it.
