/**
 * One review session over a deck: the state the review screen keeps
 * (`currentIndex`, `isFlipped`, `score`) and what its buttons do to it.
 * Only the click handlers and the final-score expression are modelled; the
 * layout, the flip animation and the progress bar are rendering.
 */
module ReviewSession {
  import SpacedRepetition

  /** A stored card, as the persistence layer hands it to the screen. */
  datatype Card = Card(id: int, deckId: int, frontText: string, backText: string)

  /** How many answers were "Got it". */
  function CountTrue(answers: seq<bool>): nat
  {
    if answers == [] then 0
    else CountTrue(answers[..|answers| - 1]) + (if answers[|answers| - 1] then 1 else 0)
  }

  /** The count never exceeds the number of answers, and reaches it exactly when all of them are true. */
  lemma {:induction false} CountTrueAll(answers: seq<bool>)
    ensures CountTrue(answers) <= |answers|
    ensures CountTrue(answers) == |answers| <==> forall i :: 0 <= i < |answers| ==> answers[i]
  {
    if answers != [] {
      var init := answers[..|answers| - 1];
      CountTrueAll(init);
      assert forall i :: 0 <= i < |init| ==> init[i] == answers[i];
    }
  }

  /**
   * The final score in percent: `score * 100 / total`, or 0 for an empty deck.
   * Both operands are non-negative, so Dafny's division truncates exactly as
   * Kotlin's integer division does.
   */
  function FinalPercentage(score: nat, total: nat): (p: nat)
    ensures total == 0 ==> p == 0
    ensures total > 0 ==> p * total <= score * 100 < (p + 1) * total
    ensures score <= total ==> p <= 100
    ensures 0 < total && score <= total ==> (p == 100 <==> score == total)
  {
    if total > 0 then (score * 100) / total else 0
  }

  class Session {
    /** The deck's cards, in the order they are shown. */
    const cards: seq<Card>
    /** The scheduler the answers are reported to. */
    const viewModel: SpacedRepetition.Scheduler
    var currentIndex: int
    var isFlipped: bool
    var score: int
    /** The answers given since the session (re)started, oldest first; "Got it" is true. */
    ghost var answers: seq<bool>

    ghost predicate Valid()
      reads this
    {
      && 0 <= score <= currentIndex <= |cards|
      && |answers| == currentIndex
      && score == CountTrue(answers)
    }

    constructor (cards: seq<Card>, viewModel: SpacedRepetition.Scheduler)
      ensures this.cards == cards && this.viewModel == viewModel
      ensures currentIndex == 0 && !isFlipped && score == 0 && answers == []
      ensures Valid()
    {
      this.cards := cards;
      this.viewModel := viewModel;
      currentIndex := 0;
      isFlipped := false;
      score := 0;
      answers := [];
    }

    /** The session shows its final score once every card has been answered. */
    predicate IsFinished()
      reads this
    {
      currentIndex >= |cards|
    }

    /** The percentage shown when the session is finished. */
    function Percentage(): (p: int)
      reads this
      requires Valid()
      ensures 0 <= p <= 100
      ensures p == FinalPercentage(CountTrue(answers), |cards|)
      ensures IsFinished() && |cards| > 0 ==>
        (p == 100 <==> forall i :: 0 <= i < |answers| ==> answers[i])
    {
      CountTrueAll(answers);
      FinalPercentage(score, |cards|)
    }

    /** "Show Answer": offered while the front of the current card is showing. */
    method ShowAnswer()
      requires !IsFinished() && !isFlipped
      modifies this`isFlipped
      ensures isFlipped
    {
      isFlipped := true;
    }

    /** Tapping the card turns it over, either way. */
    method Flip()
      requires !IsFinished()
      modifies this`isFlipped
      ensures isFlipped == !old(isFlipped)
    {
      isFlipped := !isFlipped;
    }

    /** "Forgot": records an incorrect answer and moves on without scoring. */
    method Forgot(now: int)
      requires Valid() && viewModel.Valid()
      requires !IsFinished() && isFlipped
      modifies this, viewModel
      ensures Valid() && viewModel.Valid()
      ensures viewModel.cardStats ==
        SpacedRepetition.RecordReview(old(viewModel.cardStats), cards[old(currentIndex)].id, false, now)
      ensures currentIndex == old(currentIndex) + 1 && score == old(score) && !isFlipped
      ensures answers == old(answers) + [false]
    {
      var currentCard := cards[currentIndex];
      viewModel.RecordCardReview(currentCard.id, false, now);
      isFlipped := false;
      currentIndex := currentIndex + 1;
      answers := answers + [false];
    }

    /** "Got it": records a correct answer, scores it and moves on. */
    method GotIt(now: int)
      requires Valid() && viewModel.Valid()
      requires !IsFinished() && isFlipped
      modifies this, viewModel
      ensures Valid() && viewModel.Valid()
      ensures viewModel.cardStats ==
        SpacedRepetition.RecordReview(old(viewModel.cardStats), cards[old(currentIndex)].id, true, now)
      ensures currentIndex == old(currentIndex) + 1 && score == old(score) + 1 && !isFlipped
      ensures answers == old(answers) + [true]
    {
      var currentCard := cards[currentIndex];
      viewModel.RecordCardReview(currentCard.id, true, now);
      score := score + 1;
      isFlipped := false;
      currentIndex := currentIndex + 1;
      answers := answers + [true];
    }

    /** "Review Again": offered on the final-score screen of a non-empty deck. */
    method Restart()
      requires IsFinished() && |cards| > 0
      modifies this`currentIndex, this`isFlipped, this`score, this`answers
      ensures currentIndex == 0 && !isFlipped && score == 0 && answers == []
      ensures Valid()
    {
      currentIndex := 0;
      isFlipped := false;
      score := 0;
      answers := [];
    }
  }

  /** A session over two cards: one known, one forgotten, finishes at 50%. */
  method ExampleSession(now: int)
  {
    var vm := new SpacedRepetition.Scheduler();
    var session := new Session([Card(1, 7, "hola", "hello"), Card(2, 7, "gato", "cat")], vm);
    session.ShowAnswer();
    session.GotIt(now);
    session.Flip();
    session.Forgot(now);
    assert session.IsFinished();
    assert session.Percentage() == 50;
    assert vm.cardStats[1].confidence == 10 && vm.cardStats[2].confidence == 0;
    session.Restart();
    assert !session.IsFinished();
  }
}
