/** The game screen's round state as the object that owns it: the catalog it shuffles in place,
    the question index, the current question and the shuffled answers on display. Each method
    is tied to the transition of the same name in module Rounds. */
module GameFragment {
  import opened Permutations
  import opened Questions
  import opened Rounds

  class QuizRound {
    var questions: seq<Question>
    var currentQuestion: Question
    var answers: seq<string>
    var questionIndex: nat
    /** Fixed when the screen is created, from the catalog size. */
    const numQuestions: nat

    /** The fields as a value. */
    ghost function State(): Round
      reads this
    {
      Round(questions, questionIndex, currentQuestion, answers)
    }

    /** The catalog is usable and the round length matches it. */
    ghost predicate CatalogValid()
      reads this
    {
      WellFormed(questions) && numQuestions == RoundLength(|questions|)
    }

    /** The round has been randomized: the current question and its answers are set. */
    ghost predicate Valid()
      reads this
    {
      CatalogValid() && Rounds.Valid(State())
    }

    /** Creates the screen's state from the field initialisers. The current question and the
        answers are not yet set (they are late-initialised); `Randomize` sets them. */
    constructor (catalog: seq<Question>)
      requires WellFormed(catalog)
      ensures CatalogValid()
      ensures questions == catalog && questionIndex == 0
      ensures numQuestions == RoundLength(|catalog|)
    {
      questions := catalog;
      questionIndex := 0;
      numQuestions := Min((|catalog| + 1) / 2, 3);
    }

    /** Shuffles the catalog by `order`, goes back to the first question and selects it,
        shuffling its answers by `answerOrder`. */
    method Randomize(order: seq<nat>, answerOrder: seq<nat>)
      requires CatalogValid()
      requires IsPermutation(order, |questions|) && IsPermutation(answerOrder, AnswerCount)
      modifies this
      ensures Valid()
      ensures State() == Rounds.Randomize(old(State()), order, answerOrder)
    {
      ShuffledCatalog(questions, order);
      questions := Shuffle(questions, order);
      questionIndex := 0;
      SetQuestion(answerOrder);
    }

    /** Makes the question at the index current and shows a shuffled copy of its answers;
        the record itself is left as it is. */
    method SetQuestion(answerOrder: seq<nat>)
      requires CatalogValid() && questionIndex < |questions|
      requires IsPermutation(answerOrder, AnswerCount)
      modifies this
      ensures State() == Rounds.SetQuestion(old(State()), answerOrder)
      ensures Valid()
    {
      currentQuestion := questions[questionIndex];
      assert currentQuestion in questions;
      answers := Shuffle(currentQuestion.answers, answerOrder);
    }

    /** The submit button's handler: `checkedId` is the radio group's checked id, and
        `answerOrder` the shuffle for the next question's answers should the round go on. */
    method Submit(checkedId: int, answerOrder: seq<nat>) returns (o: Outcome)
      requires Valid() && IsPermutation(answerOrder, AnswerCount)
      modifies this
      ensures Valid()
      ensures Step(State(), o) == Rounds.Submit(old(State()), checkedId, answerOrder)
    {
      if checkedId != NoneChecked {
        var answerIndex := AnswerIndex(checkedId);
        if answers[answerIndex] == CorrectAnswer(currentQuestion) {
          questionIndex := questionIndex + 1;
          if questionIndex < numQuestions {
            currentQuestion := questions[questionIndex];
            SetQuestion(answerOrder);
            o := Continue;
          } else {
            o := Won(numQuestions, questionIndex);
          }
        } else {
          o := Lost;
        }
      } else {
        o := NoOp;
      }
    }
  }
}
