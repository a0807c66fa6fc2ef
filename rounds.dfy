/** The quiz round as a state machine over values: a snapshot of the screen's round state and
    the transitions that randomizing, selecting a question and submitting an answer make on it. */
module Rounds {
  import opened Permutations
  import opened Questions

  /** Radio-button ids as the radio group reports them. Generated resource ids are positive
      and distinct; -1 is the group's "nothing checked". */
  const NoneChecked: int := -1
  const FirstAnswerRadioButton: int := 1
  const SecondAnswerRadioButton: int := 2
  const ThirdAnswerRadioButton: int := 3
  const FourthAnswerRadioButton: int := 4

  /** The buttons in the order the answers are laid out. */
  const RadioButtons: seq<int> :=
    [FirstAnswerRadioButton, SecondAnswerRadioButton, ThirdAnswerRadioButton, FourthAnswerRadioButton]

  /** What a press of the submit button leads to. `Won` carries the round length and the
      number of correctly answered questions, the two arguments of the win screen. */
  datatype Outcome = NoOp | Continue | Won(total: int, correct: int) | Lost

  /** The round state of the screen. */
  datatype Round = Round(questions: seq<Question>, questionIndex: nat, currentQuestion: Question, answers: seq<string>)

  /** A round state together with the outcome of the submission that produced it. */
  datatype Step = Step(round: Round, outcome: Outcome)

  function NumQuestions(r: Round): nat {
    RoundLength(|r.questions|)
  }

  /** Still inside the round: there is a question left to answer. */
  ghost predicate InProgress(r: Round) {
    r.questionIndex < NumQuestions(r)
  }

  /** The state every operation keeps once the round has been randomized: the current
      question is a catalog record (the one at the index while the round is in progress),
      and the displayed answers are a rearrangement of its four answers. */
  ghost predicate Valid(r: Round) {
    && WellFormed(r.questions)
    && r.currentQuestion in r.questions
    && |r.answers| == AnswerCount
    && multiset(r.answers) == multiset(r.currentQuestion.answers)
    && (InProgress(r) ==> r.currentQuestion == r.questions[r.questionIndex])
  }

  /** Index of the answer chosen by the checked radio button: the second, third and
      fourth buttons give 1, 2 and 3; every other id falls back to 0. */
  function AnswerIndex(checkedId: int): (k: nat)
    ensures k < AnswerCount
    ensures forall b :: 0 <= b < |RadioButtons| && RadioButtons[b] == checkedId ==> k == b
    ensures checkedId !in RadioButtons[1..] ==> k == 0
  {
    if checkedId == SecondAnswerRadioButton then 1
    else if checkedId == ThirdAnswerRadioButton then 2
    else if checkedId == FourthAnswerRadioButton then 3
    else 0
  }

  /** A submission is correct when a button is checked and the answer shown at its index
      equals, by value, the correct answer of the current record. */
  ghost predicate IsCorrect(r: Round, checkedId: int)
    requires Valid(r)
  {
    checkedId != NoneChecked && r.answers[AnswerIndex(checkedId)] == CorrectAnswer(r.currentQuestion)
  }

  /** Selects the question at the index and shows a shuffled copy of its answers. */
  function SetQuestion(r: Round, answerOrder: seq<nat>): (s: Round)
    requires WellFormed(r.questions) && r.questionIndex < |r.questions|
    requires IsPermutation(answerOrder, AnswerCount)
    ensures s.currentQuestion == r.questions[r.questionIndex]
    ensures multiset(s.answers) == multiset(s.currentQuestion.answers)
    ensures s.questions == r.questions && s.questionIndex == r.questionIndex
    ensures Valid(s)
  {
    var q := r.questions[r.questionIndex];
    assert q in r.questions;
    ShufflePreservesMultiset(q.answers, answerOrder);
    r.(currentQuestion := q, answers := Shuffle(q.answers, answerOrder))
  }

  /** Shuffling a usable catalog gives a usable catalog with the same records. */
  lemma ShuffledCatalog(qs: seq<Question>, order: seq<nat>)
    requires WellFormed(qs) && IsPermutation(order, |qs|)
    ensures |Shuffle(qs, order)| == |qs| && multiset(Shuffle(qs, order)) == multiset(qs)
    ensures WellFormed(Shuffle(qs, order))
  {
    var t := Shuffle(qs, order);
    ShufflePreservesMultiset(qs, order);
    forall q | q in t
      ensures |q.answers| == AnswerCount
    {
      assert q in multiset(t);
      assert q in qs;
    }
  }

  /** Shuffles the catalog, goes back to the first question and selects it. */
  function Randomize(r: Round, order: seq<nat>, answerOrder: seq<nat>): (s: Round)
    requires WellFormed(r.questions) && IsPermutation(order, |r.questions|)
    requires IsPermutation(answerOrder, AnswerCount)
    ensures |s.questions| == |r.questions| && multiset(s.questions) == multiset(r.questions)
    ensures s.questionIndex == 0 && s.currentQuestion == s.questions[0]
    ensures multiset(s.answers) == multiset(s.currentQuestion.answers)
    ensures Valid(s) && InProgress(s)
  {
    ShuffledCatalog(r.questions, order);
    SetQuestion(r.(questions := Shuffle(r.questions, order), questionIndex := 0), answerOrder)
  }

  /** One press of the submit button with `checkedId` checked; `answerOrder` is the shuffle
      applied to the answers of the next question if the round moves on. */
  function Submit(r: Round, checkedId: int, answerOrder: seq<nat>): (s: Step)
    requires Valid(r) && IsPermutation(answerOrder, AnswerCount)
    ensures Valid(s.round) && s.round.questions == r.questions
    // nothing checked: nothing happens
    ensures s.outcome == NoOp <==> checkedId == NoneChecked
    // a wrong answer loses, and the state is left as it was
    ensures s.outcome == Lost <==> checkedId != NoneChecked && !IsCorrect(r, checkedId)
    ensures s.outcome == NoOp || s.outcome == Lost ==> s.round == r
    // a correct answer moves the index on by exactly one
    ensures IsCorrect(r, checkedId) ==> s.round.questionIndex == r.questionIndex + 1
    ensures IsCorrect(r, checkedId) ==> (s.outcome == Continue <==> r.questionIndex + 1 < NumQuestions(r))
    ensures s.outcome == Continue ==>
      && InProgress(s.round)
      && s.round.currentQuestion == r.questions[s.round.questionIndex]
      && multiset(s.round.answers) == multiset(s.round.currentQuestion.answers)
    // a win reports the round length and the questions answered, equal when the round was in progress
    ensures s.outcome.Won? ==>
      && IsCorrect(r, checkedId)
      && s.outcome == Won(NumQuestions(r), s.round.questionIndex)
      && !InProgress(s.round)
    // a win only moves the index on: the current question and its answers stay on display
    ensures s.outcome.Won? ==> s.round == r.(questionIndex := r.questionIndex + 1)
    ensures s.outcome.Won? && InProgress(r) ==> s.outcome.total == s.outcome.correct == NumQuestions(r)
  {
    if checkedId != NoneChecked then
      if r.answers[AnswerIndex(checkedId)] == CorrectAnswer(r.currentQuestion) then
        var index := r.questionIndex + 1;
        if index < NumQuestions(r) then
          var next := r.(questionIndex := index, currentQuestion := r.questions[index]);
          Step(SetQuestion(next, answerOrder), Continue)
        else
          Step(r.(questionIndex := index), Won(NumQuestions(r), index))
      else
        Step(r, Lost)
    else
      Step(r, NoOp)
  }

  /** A press of the submit button: the checked radio id and the shuffle for the next answers. */
  datatype Move = Move(checkedId: int, answerOrder: seq<nat>)

  ghost predicate ValidMoves(moves: seq<Move>) {
    forall m :: m in moves ==> IsPermutation(m.answerOrder, AnswerCount)
  }

  /** The outcomes of a series of presses of the submit button. */
  ghost function Play(r: Round, moves: seq<Move>): (outs: seq<Outcome>)
    requires Valid(r) && ValidMoves(moves)
    ensures |outs| == |moves|
    decreases |moves|
  {
    if moves == [] then []
    else
      var s := Submit(r, moves[0].checkedId, moves[0].answerOrder);
      [s.outcome] + Play(s.round, moves[1..])
  }

  /** Every press in the series answers the question then shown correctly. */
  ghost predicate AllCorrect(r: Round, moves: seq<Move>)
    requires Valid(r) && ValidMoves(moves)
    decreases |moves|
  {
    moves != [] ==>
      && IsCorrect(r, moves[0].checkedId)
      && AllCorrect(Submit(r, moves[0].checkedId, moves[0].answerOrder).round, moves[1..])
  }

  /** Presses all answer correctly exactly when none of them is ignored or loses. */
  lemma {:induction false} AllCorrectIffNoLoss(r: Round, moves: seq<Move>)
    requires Valid(r) && ValidMoves(moves)
    ensures AllCorrect(r, moves) <==> NoOp !in Play(r, moves) && Lost !in Play(r, moves)
    decreases |moves|
  {
    if moves != [] {
      var s := Submit(r, moves[0].checkedId, moves[0].answerOrder);
      AllCorrectIffNoLoss(s.round, moves[1..]);
      assert Play(r, moves) == [s.outcome] + Play(s.round, moves[1..]);
    }
  }

  /** Correct answers from question i continue until the index reaches the round length;
      from then on each one reports a win. */
  lemma {:induction false} CorrectAnswersAdvance(r: Round, moves: seq<Move>)
    requires Valid(r) && ValidMoves(moves) && AllCorrect(r, moves)
    ensures forall j :: 0 <= j < |moves| ==>
      Play(r, moves)[j] ==
        if r.questionIndex + j + 1 < NumQuestions(r) then Continue
        else Won(NumQuestions(r), r.questionIndex + j + 1)
    decreases |moves|
  {
    if moves != [] {
      var s := Submit(r, moves[0].checkedId, moves[0].answerOrder);
      CorrectAnswersAdvance(s.round, moves[1..]);
      var outs := Play(r, moves);
      assert outs == [s.outcome] + Play(s.round, moves[1..]);
      forall j | 1 <= j < |moves|
        ensures outs[j] == if r.questionIndex + j + 1 < NumQuestions(r) then Continue
                           else Won(NumQuestions(r), r.questionIndex + j + 1)
      {
        assert outs[j] == Play(s.round, moves[1..])[j - 1];
      }
    }
  }

  /** After randomizing, a series of presses with no ignored press and no loss answers every
      question correctly; it continues for the first round-length-minus-one presses and the
      press numbered the round length is the first to win, with both win arguments equal. */
  lemma WinTakesRoundLengthCorrectAnswers(r: Round, order: seq<nat>, answerOrder: seq<nat>, moves: seq<Move>)
    requires WellFormed(r.questions) && IsPermutation(order, |r.questions|)
    requires IsPermutation(answerOrder, AnswerCount) && ValidMoves(moves)
    requires var outs := Play(Randomize(r, order, answerOrder), moves); NoOp !in outs && Lost !in outs
    ensures AllCorrect(Randomize(r, order, answerOrder), moves)
    ensures forall j :: 0 <= j < |moves| ==>
      (Play(Randomize(r, order, answerOrder), moves)[j].Won? <==> j + 1 >= RoundLength(|r.questions|))
    ensures var n := RoundLength(|r.questions|);
      |moves| >= n ==> Play(Randomize(r, order, answerOrder), moves)[n - 1] == Won(n, n)
  {
    var r0 := Randomize(r, order, answerOrder);
    AllCorrectIffNoLoss(r0, moves);
    CorrectAnswersAdvance(r0, moves);
  }

  /** After randomizing, exactly round-length correct answers give that many minus one
      `Continue` outcomes and then `Won(n, n)`. */
  lemma FullRoundOfCorrectAnswers(r: Round, order: seq<nat>, answerOrder: seq<nat>, moves: seq<Move>)
    requires WellFormed(r.questions) && IsPermutation(order, |r.questions|)
    requires IsPermutation(answerOrder, AnswerCount) && ValidMoves(moves)
    requires |moves| == RoundLength(|r.questions|)
    requires AllCorrect(Randomize(r, order, answerOrder), moves)
    ensures var n, outs := RoundLength(|r.questions|), Play(Randomize(r, order, answerOrder), moves);
      && (forall j :: 0 <= j < n - 1 ==> outs[j] == Continue)
      && outs[n - 1] == Won(n, n)
  {
    var n := RoundLength(|r.questions|);
    var r0 := Randomize(r, order, answerOrder);
    assert r0.questionIndex == 0 && NumQuestions(r0) == n;
    CorrectAnswersAdvance(r0, moves);
  }

  /** A catalog the size of the shipped one (17 questions, see `CatalogFacts`): three correct
      answers win with (3, 3) and the first two continue. */
  lemma SeventeenQuestionRound(r: Round, order: seq<nat>, answerOrder: seq<nat>, moves: seq<Move>)
    requires |r.questions| == 17 && WellFormed(r.questions) && IsPermutation(order, 17)
    requires IsPermutation(answerOrder, AnswerCount) && ValidMoves(moves) && |moves| == 3
    requires AllCorrect(Randomize(r, order, answerOrder), moves)
    ensures Play(Randomize(r, order, answerOrder), moves) == [Continue, Continue, Won(3, 3)]
  {
    FullRoundOfCorrectAnswers(r, order, answerOrder, moves);
    var outs := Play(Randomize(r, order, answerOrder), moves);
    assert outs == [outs[0], outs[1], outs[2]];
  }
}
