/**
 * Spaced-repetition statistics of the study app: the `CardStats` record and the
 * update `recordCardReview` applies to it each time a card is answered.
 *
 * Two representation choices:
 * - confidence, a float in [0, 1] in the app, is kept in integer hundredths
 *   (0 stands for 0.0, 100 for 1.0), so the steps +0.1 / -0.15 are +10 / -15;
 * - the wall clock is the explicit parameter `now` (epoch milliseconds).
 */
module SpacedRepetition {

  /** Milliseconds in one day: the review intervals are whole numbers of days. */
  const DayMillis: int := 24 * 60 * 60 * 1000

  /** Confidence 1.0, in hundredths. */
  const ConfidenceMax: int := 100
  /** Added on a correct answer (0.1). */
  const ConfidenceGain: int := 10
  /** Taken away on an incorrect answer (0.15). */
  const ConfidenceLoss: int := 15

  datatype CardStats = CardStats(
    cardId: int,
    timesReviewed: int,
    correctCount: int,
    nextReviewTime: int,
    confidence: int)

  /** What every record the scheduler stores satisfies. */
  predicate WellFormed(s: CardStats) {
    0 <= s.correctCount <= s.timesReviewed && 0 <= s.confidence <= ConfidenceMax
  }

  /** The record of a card that was never reviewed: the data-class defaults. */
  function DefaultStats(cardId: int, now: int): (s: CardStats)
    ensures s.cardId == cardId && WellFormed(s)
    ensures s.timesReviewed == 0 && s.correctCount == 0 && s.confidence == 0
  {
    CardStats(cardId, 0, 0, now, 0)
  }

  /**
   * The new confidence: a correct answer adds a step capped at the maximum,
   * an incorrect one removes a larger step floored at zero.
   */
  function NextConfidence(c: int, isCorrect: bool): (r: int)
    ensures isCorrect ==>
      r <= c + ConfidenceGain && r <= ConfidenceMax && (r == c + ConfidenceGain || r == ConfidenceMax)
    ensures !isCorrect ==>
      r >= c - ConfidenceLoss && r >= 0 && (r == c - ConfidenceLoss || r == 0)
    ensures 0 <= c <= ConfidenceMax ==> 0 <= r <= ConfidenceMax
    ensures 0 <= c <= ConfidenceMax ==> if isCorrect then c <= r else r <= c
  {
    if isCorrect then
      (if c + ConfidenceGain < ConfidenceMax then c + ConfidenceGain else ConfidenceMax)
    else
      (if c - ConfidenceLoss < 0 then 0 else c - ConfidenceLoss)
  }

  /** The delay before the next review, chosen by how often the card was reviewed before. */
  function Interval(timesReviewed: int): (r: int)
    ensures DayMillis <= r <= 14 * DayMillis
    ensures timesReviewed >= 3 ==> r == 14 * DayMillis
    ensures r % DayMillis == 0
  {
    match timesReviewed
    case 0 => 1 * DayMillis
    case 1 => 3 * DayMillis
    case 2 => 7 * DayMillis
    case _ => 14 * DayMillis
  }

  /** The record after one answer given at time `now`. */
  function Reviewed(s: CardStats, isCorrect: bool, now: int): (r: CardStats)
    ensures r.cardId == s.cardId
    ensures r.timesReviewed == s.timesReviewed + 1
    ensures r.correctCount == s.correctCount + (if isCorrect then 1 else 0)
    ensures r.confidence == NextConfidence(s.confidence, isCorrect)
    ensures r.nextReviewTime == now + Interval(s.timesReviewed)
    ensures now < r.nextReviewTime
    ensures WellFormed(s) ==> WellFormed(r)
  {
    s.(timesReviewed := s.timesReviewed + 1,
       correctCount := if isCorrect then s.correctCount + 1 else s.correctCount,
       nextReviewTime := now + Interval(s.timesReviewed),
       confidence := NextConfidence(s.confidence, isCorrect))
  }

  /** Every stored record is filed under its own card id and is well formed. */
  predicate Consistent(m: map<int, CardStats>) {
    forall id :: id in m ==> m[id].cardId == id && WellFormed(m[id])
  }

  /** The stored record of `cardId`, or a fresh default one. */
  function StatsOrDefault(m: map<int, CardStats>, cardId: int, now: int): (s: CardStats)
    ensures cardId in m ==> s == m[cardId]
    ensures cardId !in m ==> s == DefaultStats(cardId, now) && s.nextReviewTime == now
    ensures Consistent(m) ==> s.cardId == cardId && WellFormed(s)
  {
    if cardId in m then m[cardId] else DefaultStats(cardId, now)
  }

  /** The whole statistics map after one answer for `cardId`. */
  function RecordReview(m: map<int, CardStats>, cardId: int, isCorrect: bool, now: int)
    : (m': map<int, CardStats>)
    ensures m'.Keys == m.Keys + {cardId}
    ensures forall id :: id in m && id != cardId ==> m'[id] == m[id]
    ensures m'[cardId] == Reviewed(StatsOrDefault(m, cardId, now), isCorrect, now)
    ensures m'[cardId].timesReviewed ==
      (if cardId in m then m[cardId].timesReviewed else 0) + 1
    ensures Consistent(m) ==> Consistent(m')
  {
    m[cardId := Reviewed(StatsOrDefault(m, cardId, now), isCorrect, now)]
  }

  /** The owner of the statistics map (the part of the view-model that schedules reviews). */
  class Scheduler {
    var cardStats: map<int, CardStats>

    ghost predicate Valid()
      reads this
    {
      Consistent(cardStats)
    }

    constructor ()
      ensures Valid() && cardStats == map[]
    {
      cardStats := map[];
    }

    /** Records one answer for `cardId`, replacing only that card's entry. */
    method RecordCardReview(cardId: int, isCorrect: bool, now: int)
      requires Valid()
      modifies this
      ensures Valid()
      ensures cardStats == RecordReview(old(cardStats), cardId, isCorrect, now)
    {
      var currentStats := if cardId in cardStats then cardStats[cardId] else DefaultStats(cardId, now);
      var newConfidence := NextConfidence(currentStats.confidence, isCorrect);
      var interval := Interval(currentStats.timesReviewed);
      var nextReview := now + interval;
      var newStats := currentStats.(
        timesReviewed := currentStats.timesReviewed + 1,
        correctCount := if isCorrect then currentStats.correctCount + 1 else currentStats.correctCount,
        nextReviewTime := nextReview,
        confidence := newConfidence);
      cardStats := cardStats[cardId := newStats];
    }
  }

  // ---------------------------------------------------------------------
  // Repeated reviews of one card

  /** One answer: whether it was correct and when it was given. */
  datatype Answer = Answer(isCorrect: bool, at: int)

  /** The record after the answers, oldest first, are recorded one by one. */
  function ReviewAll(s: CardStats, answers: seq<Answer>): CardStats
  {
    if answers == [] then s
    else
      var last := answers[|answers| - 1];
      Reviewed(ReviewAll(s, answers[..|answers| - 1]), last.isCorrect, last.at)
  }

  /** How many of the answers were correct. */
  function CountCorrect(answers: seq<Answer>): nat
  {
    if answers == [] then 0
    else CountCorrect(answers[..|answers| - 1]) + (if answers[|answers| - 1].isCorrect then 1 else 0)
  }

  /**
   * Every answer counts once, only correct answers count as correct, the card
   * keeps its id, and the record stays well formed.
   */
  lemma {:induction false} ReviewAllCounters(s: CardStats, answers: seq<Answer>)
    ensures ReviewAll(s, answers).cardId == s.cardId
    ensures ReviewAll(s, answers).timesReviewed == s.timesReviewed + |answers|
    ensures ReviewAll(s, answers).correctCount == s.correctCount + CountCorrect(answers)
    ensures WellFormed(s) ==> WellFormed(ReviewAll(s, answers))
  {
    if answers != [] {
      ReviewAllCounters(s, answers[..|answers| - 1]);
    }
  }

  /** The statistics map after the answers, oldest first, are all recorded for `cardId`. */
  function RecordAll(m: map<int, CardStats>, cardId: int, answers: seq<Answer>): map<int, CardStats>
  {
    if answers == [] then m
    else
      var last := answers[|answers| - 1];
      RecordReview(RecordAll(m, cardId, answers[..|answers| - 1]), cardId, last.isCorrect, last.at)
  }

  /**
   * Recording answers one by one in the map stores exactly the record `ReviewAll`
   * computes: from the stored record when the card is known, and from the default
   * record created at the first answer when it is not. Every other entry is unchanged.
   */
  lemma {:induction false} RecordAllStoresReviewAll(m: map<int, CardStats>, cardId: int, answers: seq<Answer>)
    ensures answers != [] ==> cardId in RecordAll(m, cardId, answers)
    ensures cardId in m ==> RecordAll(m, cardId, answers)[cardId] == ReviewAll(m[cardId], answers)
    ensures cardId !in m && answers != [] ==>
      RecordAll(m, cardId, answers)[cardId] == ReviewAll(DefaultStats(cardId, answers[0].at), answers)
    ensures forall id :: id in m && id != cardId ==> id in RecordAll(m, cardId, answers) && RecordAll(m, cardId, answers)[id] == m[id]
  {
    if answers != [] {
      var init := answers[..|answers| - 1];
      RecordAllStoresReviewAll(m, cardId, init);
      if init != [] {
        assert init[0] == answers[0];
      }
    }
  }

  /**
   * Starting from an unseen card, the n-th answer (counting from 0) schedules the
   * next review Interval(n) after it: 1, 3, 7, then 14 days, whatever the answers were.
   */
  lemma {:induction false} ReviewSchedule(cardId: int, created: int, answers: seq<Answer>)
    requires answers != []
    ensures ReviewAll(DefaultStats(cardId, created), answers).nextReviewTime ==
      answers[|answers| - 1].at + Interval(|answers| - 1)
  {
    ReviewAllCounters(DefaultStats(cardId, created), answers[..|answers| - 1]);
  }

  /** Later reviews of a card are never scheduled sooner after the answer than earlier ones. */
  lemma IntervalNeverShortens(earlier: int, later: int)
    requires 0 <= earlier <= later
    ensures Interval(earlier) <= Interval(later)
  {
  }

  /** The interval table, in milliseconds. */
  lemma IntervalTable(timesReviewed: int)
    ensures timesReviewed == 0 ==> Interval(timesReviewed) == 86_400_000
    ensures timesReviewed == 1 ==> Interval(timesReviewed) == 259_200_000
    ensures timesReviewed == 2 ==> Interval(timesReviewed) == 604_800_000
    ensures timesReviewed >= 3 ==> Interval(timesReviewed) == 1_209_600_000
  {
  }

  /** A run of correct answers raises confidence one step each, up to the maximum. */
  lemma {:induction false} CorrectRunConfidence(s: CardStats, answers: seq<Answer>)
    requires 0 <= s.confidence <= ConfidenceMax
    requires forall i :: 0 <= i < |answers| ==> answers[i].isCorrect
    ensures ReviewAll(s, answers).confidence ==
      if s.confidence + |answers| * ConfidenceGain < ConfidenceMax
      then s.confidence + |answers| * ConfidenceGain
      else ConfidenceMax
  {
    if answers != [] {
      CorrectRunConfidence(s, answers[..|answers| - 1]);
    }
  }

  /** A run of incorrect answers lowers confidence one step each, down to zero. */
  lemma {:induction false} IncorrectRunConfidence(s: CardStats, answers: seq<Answer>)
    requires 0 <= s.confidence <= ConfidenceMax
    requires forall i :: 0 <= i < |answers| ==> !answers[i].isCorrect
    ensures ReviewAll(s, answers).confidence ==
      if s.confidence - |answers| * ConfidenceLoss < 0
      then 0
      else s.confidence - |answers| * ConfidenceLoss
  {
    if answers != [] {
      IncorrectRunConfidence(s, answers[..|answers| - 1]);
    }
  }

  /** One correct answer for an unseen card 1 at time t. */
  lemma FirstCorrectAnswer(t: int)
    ensures RecordReview(map[], 1, true, t)[1] == CardStats(1, 1, 1, t + 86_400_000, 10)
  {
  }

  /** Two incorrect answers for an unseen card: confidence stays at 0, the second interval is 3 days. */
  lemma TwoIncorrectAnswers(cardId: int, t1: int, t2: int)
    ensures RecordReview(RecordReview(map[], cardId, false, t1), cardId, false, t2)[cardId]
      == CardStats(cardId, 2, 0, t2 + 3 * 86_400_000, 0)
  {
  }
}
