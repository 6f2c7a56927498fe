# Metacognitive spaced-repetition scheduler

This is a Dafny model of the scheduler of the metacognitive-mirror flashcard
trainer. It also models the pure part of the study endpoints that call it.

A review has two inputs. The first is the confidence (1 to 5) the user states
before the answer is shown. The second is the performance grade they give
afterwards (0 did not know, 3 was close, 5 knew it). The scheduler has three
steps:

1. An SM-2 step. A lapse resets the interval to one day and takes 0.2 off the
   ease factor. A success adjusts the ease factor by
   0.1 - (5 - q)(0.08 + (5 - q)0.02). It then moves the interval to 6 days, or
   to interval × ease rounded.
2. Two metacognitive overrides:
   - Overconfident and wrong resets the interval again and takes a second 0.2
     off the ease factor.
   - Underconfident but correct multiplies the interval by 1.2.
3. A finalize step. It sets the next review date to today plus max(1, interval)
   days.

The ease factor never goes below 1.3.

The scheduler exists in two copies: `app/api/study/route.ts` and `api/study.ts`.
Each copy is modelled as a method in its own module (`StudyRoute`,
`StudyApi`). The method reassigns local variables in the same order as the
source. Each method is proved equal to one specification function,
`Srs.Schedule`, and all properties are proved about that function.
`StudyApi.CopiesAgree` shows that the two copies agree on every input.

Each POST handler builds a card update and a study log record. This is
modelled by `Srs.ApplyReview` and by a `Post` method in each module. Each GET
handler filters for due cards. This is modelled by `Srs.IsDue` and `Srs.DueCards`,
and by a `DueQuery` function in each module. The two differ when `deckId` is
repeated in the URL. route.ts uses the first value, and api/study.ts answers
400.

Units:
- An ease factor is an integer number of hundredths.
- Intervals and dates are integer day counts.
- `Math.round(x)` is floor(x + 1/2), which is `Srs.JsRound`. This is exact for
  every integer input, negative ones included.

The scheduler takes any integers, since neither copy checks its inputs. Two
facts hold on every input, with no precondition: the ease factor is at least
1.3 and the interval is at least 1. The scheduler can still fail. A
JavaScript Date holds at most 10^8 days either side of 1 January 1970. Past
that, `setDate` gives an Invalid Date and `toISOString` throws a RangeError.
route.ts catches it and answers 500, and api/study.ts lets it escape. In both
cases nothing is written. This is reachable: a new card reviewed "knew it" 15
times in a row goes past the limit (`Srs.DateRangeExceeded`). Monotonicity in the
grade is stated only for the three grades the UI offers.

The comment at `api/study.ts:34` says the underconfident override gives a
"slightly shorter interval increase". The code multiplies by 1.2 instead, and
`Srs.UnderconfidentRule` proves that the interval is then strictly longer than
without the override. The model follows the code.

## Model

| member | source | states |
|---|---|---|
| `Srs.Max` | app/api/study/route.ts:13 | Math.max: the result is one of the two arguments and is at least both |
| `Srs.JsRound` | app/api/study/route.ts:20 | Math.round(num/den) is the integer r with r - 1/2 <= num/den < r + 1/2, so ties round up |
| `Srs.EaseDelta` | app/api/study/route.ts:15 | the SM-2 ease adjustment is +0.10 for performance 5, 0 for 4 and -0.14 for 3 |
| `Srs.Schedule` | app/api/study/route.ts:9-37 | the specification of calculateSpacedRepetition: the new ease, interval and due date (its properties are in the rows below) |
| `StudyRoute.CalculateSpacedRepetition` | app/api/study/route.ts:8-37 | the step-by-step computation of route.ts gives the fields of `Schedule`, with ease at least 1.3, interval at least 1 and due date today + interval, exactly when that date is one a Date can hold; otherwise it fails as `toISOString` does |
| `StudyApi.CalculateSpacedRepetition` | api/study.ts:8-47 | the step-by-step computation of api/study.ts gives the same result and the same failure |
| `StudyApi.CopiesAgree` | api/study.ts:10-47 | the two copies of calculateSpacedRepetition return the same triple, or fail together, on every input |
| `Srs.ScheduleInvariants` | app/api/study/route.ts:8-31 | for every input, the ease is at least 1.3, the interval at least 1 day, and the next review date is exactly today + interval, so the max(1, ...) guard never changes the date |
| `Srs.LapseRule` | app/api/study/route.ts:11-13 | performance below 3 without overconfidence: the interval becomes 1 and the ease is e - 0.2, or 1.3 if that is lower |
| `Srs.OverconfidentRule` | app/api/study/route.ts:23-26 | confidence >= 4 with performance 0: the interval is 1 and the ease is e - 0.4 in all, or 1.3 if that is lower |
| `Srs.SuccessEaseRule` | app/api/study/route.ts:15-16 | performance 5 gives max(1.3, e + 0.1); performance 3 gives e - 0.14, or 1.3 if that is lower, whatever the confidence |
| `Srs.RoundedGrowth` | app/api/study/route.ts:20 | for an interval of 2 days or more and an ease of at least 1.3, interval × ease rounded to a whole day is strictly more than the interval |
| `Srs.SuccessIntervalRule` | app/api/study/route.ts:17-21 | a successful recall without the bonus moves an interval <= 1 to 6; any other interval becomes interval × new ease rounded to the nearest day, ties up, which is strictly longer than the old interval when that was >= 2 |
| `Srs.UnderconfidentRule` | app/api/study/route.ts:27-29 | confidence <= 2 with performance 5 leaves the ease as a neutral confidence would, and gives that interval × 1.2 rounded, which is strictly longer than the interval without the override |
| `Srs.EaseMonotone` | app/api/study/route.ts:11-29 | for a fixed card and confidence, and grades among 0, 3 and 5, a higher grade never gives a lower ease factor |
| `Srs.LapseDescends` | api/study.ts:14-16 | from a valid ease factor, each lapse resets the interval to 1 and lowers the ease by at least 0.2 until it rests at 1.3 |
| `Srs.ScheduleReadsOnlyState` | app/api/study/route.ts:10 | the scheduler reads only the card's interval and ease factor; lastConfidence, lastPerformance and the other fields do not affect it |
| `Srs.DateRangeExceeded` | app/api/study/route.ts:30-35 | a card at 30216170 days and ease 3.9, the state of a new card after 14 "knew it" reviews, is scheduled 120864680 days ahead, past the last day a Date can hold |
| `Srs.Scenarios` | app/api/study/route.ts:9-37 | five worked examples: a new card goes to 6 days at ease 2.6; 6 days at ease 2.6 goes to 16 at 2.7; an overconfident lapse from 2.5 gives 2.1; underconfident 5 days at 2.5 goes to 16; a lapse at the floor stays at 1.3 |
| `Srs.ApplyReview` | app/api/study/route.ts:104-123 | the pure data of one review: the updated card and the log record (specification function; its properties are in the next rows) |
| `Srs.ReviewChangesOnlyReviewFields` | app/api/study/route.ts:106-123 | the update keeps id, deckId, question and answer, and sets the scheduler's three fields plus lastConfidence and lastPerformance; the log record is exactly (confidence, performance, userId, deckId, cardId) of this card |
| `Srs.ReviewKeepsCardValid` | api/study.ts:104-112 | after any review the stored card has an interval of at least 1 and an ease of at least 1.3 |
| `Srs.ReviewedCardNotDueToday` | app/api/study/route.ts:30-31 | a card just reviewed is not due (nextReviewDate <= now, line 64) on the same day; it is due from exactly today + interval onwards |
| `Srs.IsDue` | app/api/study/route.ts:64 | the due filter `nextReviewDate <= now` (its properties are in `ReviewedCardNotDueToday` and `DueCards`) |
| `Srs.DueCards` | app/api/study/route.ts:60-66 | a card is in the due list exactly when it is one of the stored cards, is in the requested deck, the deck belongs to the user, and nextReviewDate <= now |
| `StudyRoute.DueQuery` | app/api/study/route.ts:53-67 | `searchParams.get` takes the first deckId given; 400 exactly when there is none or it is empty; otherwise a card is returned exactly when it is stored, in that deck, the deck is the user's, and the card is due |
| `StudyApi.DueQuery` | api/study.ts:62-73 | 400 exactly when deckId is absent, repeated (an array, not a string) or empty; otherwise a card is returned exactly when it is stored, in that deck, the deck is the user's, and the card is due |
| `Srs.UpdateRows` | app/api/study/route.ts:107-114 | the card table after `card.update({ where: { id } })`: same length, every row with that id replaced by the updated card, every other row unchanged |
| `Srs.ReviewedCardLeavesDueList` | api/study.ts:66-72 | after the reviewed card is written back into the table, no card with its id is in any deck's due list on the same day |
| `StudyRoute.Post` | app/api/study/route.ts:83-133 | no owned card: 404; a due date beyond the Date range: 500 with nothing written; otherwise the updated card and log record of `ApplyReview`; the update keeps id, deckId, question and answer, the log describes this review of this card, and the card is not due today |
| `StudyApi.Post` | api/study.ts:77-124 | the same for the POST branch of api/study.ts, where the RangeError escapes the handler uncaught |

## Left out

- Dates are whole day numbers, with day 0 on 1 January 1970. `new Date()` becomes the parameter `today`, and `setDate` on the local calendar becomes addition. Time of day, time zones, daylight saving and ISO strings are not modelled. The due filter compares day numbers.
- `RepresentableDay`: the Date range limit of ±10^8 days is checked on the day number alone. The real limit is 8.64e15 ms in UTC, so with the time of day and the local time zone the cut-off can differ from the model's by up to a day.
- The ease factor is exact hundredths, not an IEEE double. JavaScript float drift, such as 2.36 stored as 2.3600000000000003, could only change a result at an exact .5 rounding boundary. It is not modelled.
- Confidence and performance are integers, and the scheduler accepts any integers, because neither copy checks its inputs. Inputs that are not numbers, or that are fractions, are not modelled.
- Authentication is not modelled: the session lookup, the JWT token and the 401 answers. The user id is a parameter.
- The Prisma lookup of the card is not modelled. Its result is the parameter `found` of `Post`. The stored cards and deck owners are the parameters `cards` and `deckOwner` of `DueCards`.
- `DueCards` keeps the stored order. The database gives no order guarantee.
- `prisma.$transaction` makes the card update and the log insert both happen or neither. This is a database guarantee and is not modelled.
- The log id and timestamp are filled in by the database. They are not modelled.
- The 500 answers for database failures are not modelled.
- The 405 answer of api/study.ts for other HTTP methods is not modelled.
- The pages, components, HTTP client, deck, card and log CRUD routes, signup, validation and demo data are not part of this model.
