/** The metacognitive spaced-repetition scheduler, stated as a specification.

    Units of the model:
    - an ease factor is a whole number of hundredths (1.3 is 130, 2.5 is 250);
    - an interval is a whole number of days;
    - a date is a whole day number, so "now + n days" is `today + n`.

    Both copies of the scheduler (modules StudyRoute and StudyApi) are proved
    equal to `Schedule` below, and every property of the scheduler is proved
    here, once, about `Schedule`.
 */
module Srs {

  datatype Option<T> = None | Some(value: T)

  /** MIN_EASE_FACTOR, 1.3 in hundredths. */
  const MinEase: int := 130

  /** The three self-grade buttons: did not know, was close, knew it. */
  predicate ValidPerformance(p: int) { p == 0 || p == 3 || p == 5 }

  /** A card as stored; `easeFactor` in hundredths, `nextReviewDate` a day number. */
  datatype Card = Card(
    id: string,
    deckId: string,
    question: string,
    answer: string,
    nextReviewDate: int,
    interval: int,
    easeFactor: int,
    lastConfidence: Option<int>,
    lastPerformance: Option<int>)

  /** What the scheduler returns: the three scheduling fields of a card. */
  datatype SrUpdate = SrUpdate(easeFactor: int, interval: int, nextReviewDate: int)

  /** The scheduler's outcome: its fields, or the RangeError `toISOString`
      throws when the next review date is beyond what a Date can hold. */
  datatype ScheduleResult = Scheduled(update: SrUpdate) | InvalidDate

  /** The farthest a JavaScript Date reaches from 1 January 1970:
      8.64e15 milliseconds, 10^8 days, either way. */
  const MaxDateDays: int := 100_000_000

  /** A day number a JavaScript Date can hold (day 0 is 1 January 1970). */
  predicate RepresentableDay(day: int) { -MaxDateDays <= day <= MaxDateDays }

  /** The data of the study log record the POST handlers create. */
  datatype StudyLog = StudyLog(
    confidence: int,
    performance: int,
    userId: string,
    deckId: string,
    cardId: string)

  /** The card written back by the update, together with the log record. */
  datatype Review = Review(card: Card, log: StudyLog)

  // ---------------------------------------------------------------------
  // JavaScript arithmetic the scheduler relies on
  // ---------------------------------------------------------------------

  /** Math.max on two numbers. */
  function Max(a: int, b: int): (r: int)
    ensures r >= a && r >= b && (r == a || r == b)
  {
    if a >= b then a else b
  }

  /** Math.round(num / den): the integer nearest to num / den, a tie going up
      (towards +infinity, as Math.round does for negative values too). */
  function JsRound(num: int, den: int): (r: int)
    requires den > 0
    ensures 2 * den * r - den <= 2 * num < 2 * den * r + den
  {
    (2 * num + den) / (2 * den)
  }

  /** The SM-2 adjustment of the ease factor after a successful recall,
      0.1 - (5 - q) * (0.08 + (5 - q) * 0.02), in hundredths. */
  function EaseDelta(performance: int): (r: int)
    ensures performance == 5 ==> r == 10
    ensures performance == 4 ==> r == 0
    ensures performance == 3 ==> r == -14
  {
    var d := 5 - performance;
    10 - d * (8 + d * 2)
  }

  // ---------------------------------------------------------------------
  // The scheduler
  // ---------------------------------------------------------------------

  /** Overconfident and wrong: sure of the answer, and did not know it. */
  predicate Overconfident(confidence: int, performance: int) {
    confidence >= 4 && performance == 0
  }

  /** Underconfident but correct: unsure of the answer, and knew it. */
  predicate Underconfident(confidence: int, performance: int) {
    confidence <= 2 && performance == 5
  }

  /** The ease factor after a review. */
  function NextEase(card: Card, confidence: int, performance: int): (ease: int)
  {
    if performance < 3 then
      var lapsed := Max(MinEase, card.easeFactor - 20);
      if Overconfident(confidence, performance) then Max(MinEase, lapsed - 20) else lapsed
    else
      Max(MinEase, card.easeFactor + EaseDelta(performance))
  }

  /** The interval of the SM-2 step for a successful recall, before the
      metacognitive overrides: 6 days for a new card, else interval * ease. */
  function GrownInterval(card: Card, performance: int): (interval: int)
  {
    if card.interval <= 1 then 6
    else JsRound(card.interval * Max(MinEase, card.easeFactor + EaseDelta(performance)), 100)
  }

  /** The interval after a review. */
  function NextInterval(card: Card, confidence: int, performance: int): (interval: int)
  {
    if performance < 3 then 1
    else if Underconfident(confidence, performance) then JsRound(GrownInterval(card, performance) * 12, 10)
    else GrownInterval(card, performance)
  }

  /** calculateSpacedRepetition: the new scheduling fields of `card` after a
      review with the given confidence and performance, on day `today`. */
  function Schedule(card: Card, confidence: int, performance: int, today: int): (u: SrUpdate)
  {
    var interval := NextInterval(card, confidence, performance);
    SrUpdate(NextEase(card, confidence, performance), interval, today + Max(1, interval))
  }

  // ---------------------------------------------------------------------
  // The handlers' pure part
  // ---------------------------------------------------------------------

  /** The card row after the POST handler's update (the scheduler's fields
      plus lastConfidence and lastPerformance), and the log record it creates. */
  function ApplyReview(card: Card, userId: string, confidence: int, performance: int, today: int): (r: Review)
  {
    var u := Schedule(card, confidence, performance, today);
    Review(
      card.(easeFactor := u.easeFactor, interval := u.interval, nextReviewDate := u.nextReviewDate,
            lastConfidence := Some(confidence), lastPerformance := Some(performance)),
      StudyLog(confidence, performance, userId, card.deckId, card.id))
  }

  /** The answer of a POST handler: 404 when the user owns no card with that
      id; a failed request, with nothing written, when the scheduler throws;
      otherwise 204 after writing the updated card and the log record. */
  datatype PostOutcome = NotFound | Failed | NoContent(updated: Card, log: StudyLog)

  /** The due filter of the GET handlers: nextReviewDate <= now. */
  predicate IsDue(card: Card, now: int) {
    card.nextReviewDate <= now
  }

  /** The GET handlers' query: the cards of deck `deckId`, owned by `userId`
      (through `deckOwner`, deck id to user id), that are due at `now`. */
  function DueCards(cards: seq<Card>, deckOwner: map<string, string>, userId: string, deckId: string, now: int): (r: seq<Card>)
    ensures forall c :: c in r <==>
      c in cards && c.deckId == deckId && deckId in deckOwner && deckOwner[deckId] == userId && IsDue(c, now)
    ensures |r| <= |cards|
  {
    if cards == [] then []
    else
      var rest := DueCards(cards[1..], deckOwner, userId, deckId, now);
      var c := cards[0];
      if c.deckId == deckId && deckId in deckOwner && deckOwner[deckId] == userId && IsDue(c, now)
      then [c] + rest else rest
  }

  /** Every value the request gives for the `deckId` query parameter, in
      order: none when it is absent, two or more when it is repeated. */
  datatype QueryParam = QueryParam(values: seq<string>)

  /** The answer of a GET request for due cards. */
  datatype DueOutcome = BadRequest | DueList(cards: seq<Card>)

  /** The card table after `card.update({ where: { id } })`: every row with
      that id is replaced by `updated`, every other row is left as it was. */
  function UpdateRows(cards: seq<Card>, id: string, updated: Card): (r: seq<Card>)
    ensures |r| == |cards|
    ensures forall i :: 0 <= i < |cards| ==> r[i] == if cards[i].id == id then updated else cards[i]
  {
    if cards == [] then []
    else [if cards[0].id == id then updated else cards[0]] + UpdateRows(cards[1..], id, updated)
  }

  // ---------------------------------------------------------------------
  // Properties of the scheduler
  // ---------------------------------------------------------------------

  /** The scheduler's invariants, on every input: the ease factor never falls
      below 1.3, the interval is at least one day, and the card is next due
      exactly `interval` days after today, so the max(1, ...) guard never
      changes the date. */
  lemma ScheduleInvariants(card: Card, confidence: int, performance: int, today: int)
    ensures Schedule(card, confidence, performance, today).easeFactor >= MinEase
    ensures Schedule(card, confidence, performance, today).interval >= 1
    ensures Schedule(card, confidence, performance, today).nextReviewDate
         == today + Schedule(card, confidence, performance, today).interval
  {
  }

  /** Lapse (performance below 3, not overconfident): the interval is reset to
      one day and the ease factor drops by 0.2, but not below 1.3. */
  lemma LapseRule(card: Card, confidence: int, performance: int, today: int)
    requires performance < 3 && !Overconfident(confidence, performance)
    ensures Schedule(card, confidence, performance, today).interval == 1
    ensures Schedule(card, confidence, performance, today).easeFactor
         == if card.easeFactor >= MinEase + 20 then card.easeFactor - 20 else MinEase
  {
  }

  /** Overconfident and wrong: the interval is one day and the ease factor
      loses 0.4 in all (the lapse and the override), down to the floor of 1.3. */
  lemma OverconfidentRule(card: Card, confidence: int, performance: int, today: int)
    requires Overconfident(confidence, performance)
    ensures Schedule(card, confidence, performance, today).interval == 1
    ensures Schedule(card, confidence, performance, today).easeFactor
         == if card.easeFactor >= MinEase + 40 then card.easeFactor - 40 else MinEase
  {
  }

  /** Successful recall: the ease factor gains 0.1 on "knew it" and loses 0.14
      on "was close", never dropping below 1.3; neither override moves it. */
  lemma SuccessEaseRule(card: Card, confidence: int, performance: int, today: int)
    requires performance == 3 || performance == 5
    ensures performance == 5 ==>
      Schedule(card, confidence, performance, today).easeFactor == Max(MinEase, card.easeFactor + 10)
    ensures performance == 3 ==>
      Schedule(card, confidence, performance, today).easeFactor
        == if card.easeFactor >= MinEase + 14 then card.easeFactor - 14 else MinEase
  {
  }

  /** Rounding interval * ease to a whole day gives strictly more than an
      interval of 2 or more days, because ease is at least 1.3. */
  lemma RoundedGrowth(interval: int, ease: int)
    requires interval >= 2 && ease >= MinEase
    ensures JsRound(interval * ease, 100) > interval
  {
    var product := interval * ease;
    assert product == interval * MinEase + interval * (ease - MinEase);
    assert interval * (ease - MinEase) >= 0;
    var r := JsRound(product, 100);
    assert 200 * r + 100 > 2 * product >= 260 * interval;
  }

  /** Successful recall without the underconfidence bonus: a card with an
      interval of one day or less moves to 6 days; otherwise the interval is
      interval * (new ease) rounded half up, which is strictly longer. */
  lemma SuccessIntervalRule(card: Card, confidence: int, performance: int, today: int)
    requires performance >= 3 && !Underconfident(confidence, performance)
    ensures var r := Schedule(card, confidence, performance, today);
      && (card.interval <= 1 ==> r.interval == 6)
      && (card.interval > 1 ==>
            2 * 100 * r.interval - 100 <= 2 * card.interval * r.easeFactor < 2 * 100 * r.interval + 100)
      && (card.interval >= 2 ==> r.interval > card.interval)
  {
    if card.interval >= 2 {
      RoundedGrowth(card.interval, NextEase(card, confidence, performance));
    }
  }

  /** Underconfident but correct: the ease factor is what a neutral confidence
      would give, and the interval is that interval times 1.2, rounded half
      up, which is strictly LONGER than without the override. */
  lemma UnderconfidentRule(card: Card, confidence: int, today: int)
    requires Underconfident(confidence, 5)
    ensures var r := Schedule(card, confidence, 5, today);
      var neutral := Schedule(card, 3, 5, today);
      && r.easeFactor == neutral.easeFactor
      && 2 * 10 * r.interval - 10 <= 2 * neutral.interval * 12 < 2 * 10 * r.interval + 10
      && r.interval > neutral.interval
  {
  }

  /** For a fixed card and confidence, a better grade never gives a lower
      ease factor: ease(0) <= ease(3) <= ease(5). */
  lemma EaseMonotone(card: Card, confidence: int, p1: int, p2: int, today: int)
    requires ValidPerformance(p1) && ValidPerformance(p2) && p1 <= p2
    ensures Schedule(card, confidence, p1, today).easeFactor <= Schedule(card, confidence, p2, today).easeFactor
  {
  }

  /** Repeated lapses: each one resets the interval to one day and lowers a
      valid ease factor by at least 0.2 until it rests at 1.3. */
  lemma LapseDescends(card: Card, confidence: int, today: int)
    requires card.easeFactor >= MinEase
    ensures var r := Schedule(card, confidence, 0, today);
      && r.interval == 1
      && r.easeFactor >= MinEase
      && (r.easeFactor == MinEase || r.easeFactor <= card.easeFactor - 20)
  {
  }

  /** The scheduler reads only the card's interval and ease factor. */
  lemma ScheduleReadsOnlyState(c1: Card, c2: Card, confidence: int, performance: int, today: int)
    requires c1.interval == c2.interval && c1.easeFactor == c2.easeFactor
    ensures Schedule(c1, confidence, performance, today) == Schedule(c2, confidence, performance, today)
  {
  }

  /** Five worked examples: a new card, its second review, an overconfident
      lapse (2.5 goes to 2.1, because both -0.2 steps apply), an underconfident
      success and a lapse at the floor. */
  lemma Scenarios(card: Card, today: int)
    ensures Schedule(card.(interval := 1, easeFactor := 250), 3, 5, today) == SrUpdate(260, 6, today + 6)
    ensures Schedule(card.(interval := 6, easeFactor := 260), 3, 5, today) == SrUpdate(270, 16, today + 16)
    ensures Schedule(card.(interval := 10, easeFactor := 250), 5, 0, today) == SrUpdate(210, 1, today + 1)
    ensures Schedule(card.(interval := 5, easeFactor := 250), 1, 5, today) == SrUpdate(260, 16, today + 16)
    ensures Schedule(card.(interval := 2, easeFactor := 130), 3, 0, today) == SrUpdate(130, 1, today + 1)
  {
  }

  /** The Date range is reachable: a card reviewed "knew it" fourteen times in
      a row from new stands at 30216170 days and ease 3.9, and one more such
      review schedules it past the last day a Date can hold. */
  lemma DateRangeExceeded(card: Card, today: int)
    requires today >= 0
    ensures var u := Schedule(card.(interval := 30216170, easeFactor := 390), 3, 5, today);
      u == SrUpdate(400, 120864680, today + 120864680) && !RepresentableDay(u.nextReviewDate)
  {
  }

  // ---------------------------------------------------------------------
  // Properties of the card update, the log record and the due filter
  // ---------------------------------------------------------------------

  /** The update changes only the five review fields of the card, and the log
      record describes exactly this review of this card. */
  lemma ReviewChangesOnlyReviewFields(card: Card, userId: string, confidence: int, performance: int, today: int)
    ensures var r := ApplyReview(card, userId, confidence, performance, today);
      var u := Schedule(card, confidence, performance, today);
      && r.card.id == card.id && r.card.deckId == card.deckId
      && r.card.question == card.question && r.card.answer == card.answer
      && r.card.easeFactor == u.easeFactor && r.card.interval == u.interval
      && r.card.nextReviewDate == u.nextReviewDate
      && r.card.lastConfidence == Some(confidence) && r.card.lastPerformance == Some(performance)
      && r.log == StudyLog(confidence, performance, userId, r.card.deckId, r.card.id)
  {
  }

  /** A card just reviewed is not due again on the same day; it becomes due
      exactly `interval` days later and stays due from then on. */
  lemma ReviewedCardNotDueToday(card: Card, userId: string, confidence: int, performance: int, today: int, later: int)
    ensures var r := ApplyReview(card, userId, confidence, performance, today);
      && !IsDue(r.card, today)
      && IsDue(r.card, today + r.card.interval)
      && (IsDue(r.card, later) <==> later >= today + r.card.interval)
  {
  }

  /** A valid card (interval at least one day, ease at least 1.3) stays valid
      after any review. */
  lemma ReviewKeepsCardValid(card: Card, userId: string, confidence: int, performance: int, today: int)
    ensures var r := ApplyReview(card, userId, confidence, performance, today);
      r.card.interval >= 1 && r.card.easeFactor >= MinEase
  {
  }

  /** Once the POST handler has written a review into the card table, no card
      with that id is in any deck's due list for the rest of the day. */
  lemma ReviewedCardLeavesDueList(cards: seq<Card>, deckOwner: map<string, string>, card: Card,
                                  userId: string, confidence: int, performance: int, today: int, deckId: string)
    ensures var stored := UpdateRows(cards, card.id, ApplyReview(card, userId, confidence, performance, today).card);
      forall c :: c in DueCards(stored, deckOwner, userId, deckId, today) ==> c.id != card.id
  {
    var updated := ApplyReview(card, userId, confidence, performance, today).card;
    var stored := UpdateRows(cards, card.id, updated);
    forall c | c in DueCards(stored, deckOwner, userId, deckId, today)
      ensures c.id != card.id
    {
      var i :| 0 <= i < |stored| && stored[i] == c;
      assert c.id == card.id ==> c == updated;
    }
  }
}
