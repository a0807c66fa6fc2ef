# Quiz round of the trivia game screen

This project models the quiz round that the game screen of the trivia app runs, and proves
properties of that model in Dafny. The game screen is `GameFragment`. It holds a fixed catalog of
`Question(text, answers)` records, and by convention the first answer of each record is the correct
one. When the screen opens, it shuffles the catalog in place and resets the question index to 0. It
then shows the current question with a shuffled copy of that question's four answers. Each press of
the submit button reads the checked radio button and maps it to an answer index. If the chosen
answer equals the record's first answer by value, the round moves on to the next question. Once
`numQuestions = min((size + 1) / 2, 3)` questions are answered, it reports a win. A wrong answer
reports a loss. When no button is checked, the press does nothing.

Files:

- `permutations.dfy` (module `Permutations`): a shuffle is taken to be a caller-supplied
  permutation of indices. `IsPermutation` says what such a permutation is, `Shuffle` applies one,
  and a proof by induction shows that shuffling only reorders: the multiset of elements stays
  the same.
- `questions.dfy` (module `Questions`): the `Question` record, the 17-question catalog the game
  ships with, and the round length `RoundLength`.
- `rounds.dfy` (module `Rounds`): `Round`, a value snapshot of the screen's round state. Beside it
  are the transitions `SetQuestion`, `Randomize` and `Submit` as functions with their contracts.
  The `Outcome` of a press is `NoOp | Continue | Won(total, correct) | Lost`. The module also has
  lemmas about a series of presses (`Play`).
- `game_fragment.dfy` (module `GameFragment`): the class `QuizRound`. Its mutable fields
  `questions`, `questionIndex`, `currentQuestion` and `answers` are reassigned by the methods
  `Randomize`, `SetQuestion` and `Submit`. Each method's postcondition says that the new state
  equals the `Rounds` transition of the same name applied to the old state, and that the object
  invariant `Valid()` still holds.

Radio-button ids are integers: `-1` means nothing is checked, and the four answer buttons are
the constants `1` to `4`. Android generates its own distinct positive ids; any distinct positive
values behave the same here.

Facts about the code that the model keeps:

- The catalog is not truncated to the round length. The round walks indices `0 .. numQuestions-1`
  of the whole shuffled list.
- The submit handler itself treats "nothing checked" as a no-op. Every checked id other than the
  second, third and fourth button maps to answer index 0, so the answer index is always in range.
- The win carries `(numQuestions, questionIndex)`. When the press comes from a round in
  progress, these two are equal.
- The code only needs a non-empty catalog whose records all have four answers.
- `Submit` is not restricted to a round in progress. Like the handler, it can be called again
  after a win. A further correct answer then raises the index past the round length and reports
  `Won` again, with the last question and its answers still on display. While the round is in
  progress, `questionIndex < numQuestions <= |questions|`.

## Model

| member | source | states |
|---|---|---|
| `Questions.RoundLength` | app/src/main/java/com/example/android/navigation/GameFragment.kt:114 | the round length is half the catalog size rounded up, capped at 3; it never exceeds the catalog size and is positive for a non-empty catalog |
| `Questions.CatalogFacts` | app/src/main/java/com/example/android/navigation/GameFragment.kt:36-108 | the shipped catalog has 17 questions, each with four answers, so its rounds are three questions long |
| `Permutations.ShufflePreservesMultiset` | app/src/main/java/com/example/android/navigation/GameFragment.kt:174-186 | shuffling a list by a permutation keeps its length and its multiset of elements |
| `Rounds.ShuffledCatalog` | app/src/main/java/com/example/android/navigation/GameFragment.kt:174 | the shuffled catalog holds the same records, so it is still non-empty with four answers per record |
| `Rounds.AnswerIndex` | app/src/main/java/com/example/android/navigation/GameFragment.kt:138-143 | the answer index chosen from a checked radio id is always in 0..3; the k-th answer button selects answer k, and every id other than the second, third and fourth button selects answer 0 |
| `Rounds.SetQuestion` | app/src/main/java/com/example/android/navigation/GameFragment.kt:181-186 | the current question becomes the record at the index; the answers shown are a permutation of that record's answers; the catalog, and with it the record's own answer list, is unchanged; the round invariant holds afterwards |
| `Rounds.Randomize` | app/src/main/java/com/example/android/navigation/GameFragment.kt:173-177 | the catalog is a permutation of the old one (same length, same multiset); the index is 0; the current question is the first record; its answers are a permutation of its own; the round is valid and in progress |
| `Rounds.Submit` | app/src/main/java/com/example/android/navigation/GameFragment.kt:135-167 | nothing checked gives NoOp with the state unchanged; a wrong answer, compared by value against the record's first answer, gives Lost with the state unchanged; a correct answer raises the index by exactly one, and gives Continue exactly when the new index is below the round length, with the next record current and its answers permuted; otherwise it gives Won(numQuestions, index), whose two values are equal when the round was in progress, and leaves the current question and its answers as they were; the catalog never changes and the round invariant is kept |
| `Rounds.Play` | app/src/main/java/com/example/android/navigation/GameFragment.kt:133-168 | a series of presses of the submit button yields one outcome per press |
| `Rounds.AllCorrectIffNoLoss` | app/src/main/java/com/example/android/navigation/GameFragment.kt:137-166 | every press of a series answers correctly if and only if no press is a no-op or a loss |
| `Rounds.CorrectAnswersAdvance` | app/src/main/java/com/example/android/navigation/GameFragment.kt:146-161 | from index i, the j-th of a series of correct answers gives Continue while i + j + 1 is below the round length, and Won(numQuestions, i + j + 1) from then on |
| `Rounds.WinTakesRoundLengthCorrectAnswers` | app/src/main/java/com/example/android/navigation/GameFragment.kt:146-177 | after randomizing, a series with no no-op and no loss consists of correct answers; a press wins exactly when it is the numQuestions-th or later, and the numQuestions-th press gives Won(numQuestions, numQuestions) |
| `Rounds.FullRoundOfCorrectAnswers` | app/src/main/java/com/example/android/navigation/GameFragment.kt:147-160 | after randomizing, numQuestions correct answers give Continue for every press but the last, and Won(numQuestions, numQuestions) for the last |
| `Rounds.SeventeenQuestionRound` | app/src/main/java/com/example/android/navigation/GameFragment.kt:39-160 | with a 17-question catalog, three correct answers give exactly Continue, Continue, Won(3, 3) |
| `GameFragment.QuizRound.constructor` | app/src/main/java/com/example/android/navigation/GameFragment.kt:39-114 | the screen starts with the given catalog, index 0 and round length min((n + 1) / 2, 3) |
| `GameFragment.QuizRound.Randomize` | app/src/main/java/com/example/android/navigation/GameFragment.kt:173-177 | shuffles the catalog field, resets the index and selects the first question; the new fields are the `Rounds.Randomize` transition of the old ones, and the object invariant holds |
| `GameFragment.QuizRound.SetQuestion` | app/src/main/java/com/example/android/navigation/GameFragment.kt:181-186 | assigns the current question and a shuffled copy of its answers; the new fields are the `Rounds.SetQuestion` transition of the old ones, and the object invariant holds |
| `GameFragment.QuizRound.Submit` | app/src/main/java/com/example/android/navigation/GameFragment.kt:135-167 | the submit handler; the returned outcome and the new fields are the `Rounds.Submit` transition of the old state, and the object invariant is kept |

## Left out

- Randomness of the library shuffle: each shuffle takes the permutation it applies as a
  parameter, so uniformity and the difference between two runs are not modelled.
- Layout inflation and data binding (lines 122-130, and `invalidateAll` at line 152): these are
  UI framework calls, and they do not change the round state.
- Navigation to the win and game-over screens (lines 155-160, 164-165): each is replaced by the
  `Won` or `Lost` value that `Submit` returns.
- The action-bar title set in `setQuestion` (lines 187-188): this is a string-resource lookup
  and a UI side effect.
- The fragment lifecycle: the constructor models the field initialisers, and `Randomize` the
  call made when the view is created (line 127). `Submit` requires `Valid()`, which `Randomize`
  or `SetQuestion` establishes. In the program `setQuestion` is private and is first reached
  through `randomizeQuestions`, so the late-initialised fields are never read before they are
  set; Kotlin would raise an error if they were.
- Actual Android resource id values: the radio ids are modelled as the constants 1 to 4.
