/** The study endpoint of api/study.ts: its copy of the scheduler,
    written as the source writes it (two local variables reassigned step by
    step), and the pure part of its POST handler. The clock the scheduler
    reads is the parameter `today`; the card lookup is the parameter `found`. */
module StudyApi {
  import opened Srs
  import StudyRoute

  /** MIN_EASE_FACTOR of this file, in hundredths. */
  const MinEaseFactor: int := 130

  /** calculateSpacedRepetition, step by step, as this file repeats it. */
  method CalculateSpacedRepetition(card: Card, confidence: int, performance: int, today: int) returns (r: ScheduleResult)
    ensures r.Scheduled? <==> RepresentableDay(Schedule(card, confidence, performance, today).nextReviewDate)
    ensures r.Scheduled? ==> r.update == Schedule(card, confidence, performance, today)
    ensures r.Scheduled? ==>
      r.update.easeFactor >= MinEaseFactor && r.update.interval >= 1 && r.update.nextReviewDate == today + r.update.interval
  {
    var easeFactor, interval := card.easeFactor, card.interval;
    if performance < 3 {
      interval := 1;
      easeFactor := Max(MinEaseFactor, easeFactor - 20);
    } else {
      easeFactor := easeFactor + (10 - (5 - performance) * (8 + (5 - performance) * 2));
      if easeFactor < MinEaseFactor {
        easeFactor := MinEaseFactor;
      }
      if interval <= 1 {
        interval := 6;
      } else {
        interval := JsRound(interval * easeFactor, 100);
      }
    }
    if confidence >= 4 && performance == 0 {
      interval := 1;
      easeFactor := Max(MinEaseFactor, easeFactor - 20);
    }
    if confidence <= 2 && performance == 5 {
      interval := JsRound(interval * 12, 10);
    }
    var nextReviewDate := today + Max(1, interval);
    if !RepresentableDay(nextReviewDate) {
      // an Invalid Date: toISOString throws a RangeError
      return InvalidDate;
    }
    r := Scheduled(SrUpdate(easeFactor, interval, nextReviewDate));
    ScheduleInvariants(card, confidence, performance, today);
  }

  /** The POST branch of the handler once the user is known and the card has
      been looked up (`found`): score the review, then the card update and the
      log record. This file has no catch, so a RangeError from the scheduler
      escapes the handler and the request fails (`Failed`); nothing is written. */
  method Post(found: Option<Card>, userId: string, confidence: int, performance: int, today: int)
    returns (r: PostOutcome)
    ensures found.None? <==> r.NotFound?
    ensures found.Some? ==>
      var review := ApplyReview(found.value, userId, confidence, performance, today);
      r == if RepresentableDay(review.card.nextReviewDate) then NoContent(review.card, review.log) else Failed
    ensures r.NoContent? ==>
      && r.updated.id == found.value.id && r.updated.deckId == found.value.deckId
      && r.updated.question == found.value.question && r.updated.answer == found.value.answer
      && r.log == StudyLog(confidence, performance, userId, found.value.deckId, found.value.id)
      && !IsDue(r.updated, today)
  {
    if found.None? {
      return NotFound;
    }
    var card := found.value;
    var scheduled := CalculateSpacedRepetition(card, confidence, performance, today);
    if scheduled.InvalidDate? {
      return Failed;
    }
    var updatedSrData := scheduled.update;
    var updated := card.(easeFactor := updatedSrData.easeFactor, interval := updatedSrData.interval,
                         nextReviewDate := updatedSrData.nextReviewDate,
                         lastConfidence := Some(confidence), lastPerformance := Some(performance));
    var log := StudyLog(confidence, performance, userId, card.deckId, card.id);
    r := NoContent(updated, log);
  }

  /** The two copies of the scheduler give the same result on every input. */
  method CopiesAgree(card: Card, confidence: int, performance: int, today: int)
    returns (route: ScheduleResult, api: ScheduleResult)
    ensures route == api
  {
    route := StudyRoute.CalculateSpacedRepetition(card, confidence, performance, today);
    api := CalculateSpacedRepetition(card, confidence, performance, today);
  }

  /** The GET branch once the user is known: `req.query.deckId` is undefined
      when absent and an array when repeated; both, and the empty string, are
      answered with 400, otherwise the user's due cards of that deck. */
  function DueQuery(deckIdParam: QueryParam, cards: seq<Card>, deckOwner: map<string, string>, userId: string, now: int)
    : (r: DueOutcome)
    ensures r.BadRequest? <==> (|deckIdParam.values| != 1 || deckIdParam.values[0] == "")
    ensures r.DueList? ==> forall c :: c in r.cards <==>
      && c in cards && c.deckId == deckIdParam.values[0]
      && c.deckId in deckOwner && deckOwner[c.deckId] == userId && IsDue(c, now)
  {
    if |deckIdParam.values| != 1 then BadRequest
    else
      var deckId := deckIdParam.values[0];
      if deckId == "" then BadRequest else DueList(DueCards(cards, deckOwner, userId, deckId, now))
  }
}
