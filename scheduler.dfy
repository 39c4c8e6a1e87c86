/** The spaced-repetition interval rule applied when a learner rates a flashcard. */
module Scheduler {

  /** The learner's self-rated recall difficulty. */
  datatype Rating = Easy | Medium | Hard

  /** Milliseconds in a day: 24 * 60 * 60 * 1000. */
  const DayMillis: nat := 24 * 60 * 60 * 1000

  /** The fixed interval table: easy 7 days, medium 3, hard 1. */
  function IntervalDays(rating: Rating): (days: nat)
    ensures 1 <= days <= 7
    ensures rating == Hard <==> days == 1
    ensures rating == Medium <==> days == 3
    ensures rating == Easy <==> days == 7
  {
    match rating
    case Easy => 7
    case Medium => 3
    case Hard => 1
  }

  /** One review, created once per rating action; `reviewedAt` and `nextReviewAt`
      are millisecond timestamps. */
  datatype ReviewRecord = ReviewRecord(cardId: string, rating: Rating, reviewedAt: int, nextReviewAt: int)

  /** The review record for rating card `cardId` at time `now`: the next review lies
      exactly the rated number of whole days later, so strictly after `now`. */
  function Schedule(cardId: string, rating: Rating, now: int): (rec: ReviewRecord)
    ensures rec.cardId == cardId && rec.rating == rating && rec.reviewedAt == now
    ensures rec.nextReviewAt > rec.reviewedAt
    ensures rec.nextReviewAt - now == IntervalDays(rating) * DayMillis
  {
    ReviewRecord(cardId, rating, now, now + IntervalDays(rating) * DayMillis)
  }

  /** The rating can be read back from the record's interval: the table is one-to-one. */
  function RatingOfInterval(rec: ReviewRecord): (r: Rating) {
    var days := (rec.nextReviewAt - rec.reviewedAt) / DayMillis;
    if days >= 7 then Easy else if days >= 3 then Medium else Hard
  }

  lemma {:induction false} RatingRecoverable(cardId: string, rating: Rating, now: int)
    ensures RatingOfInterval(Schedule(cardId, rating, now)) == rating
  {
    var rec := Schedule(cardId, rating, now);
    assert rec.nextReviewAt - rec.reviewedAt == IntervalDays(rating) * DayMillis;
    assert (IntervalDays(rating) * DayMillis) / DayMillis == IntervalDays(rating);
  }

  /** Harder ratings come back sooner: for the same moment, hard < medium < easy. */
  lemma HarderIsSooner(cardId: string, now: int)
    ensures Schedule(cardId, Hard, now).nextReviewAt < Schedule(cardId, Medium, now).nextReviewAt
    ensures Schedule(cardId, Medium, now).nextReviewAt < Schedule(cardId, Easy, now).nextReviewAt
  {
  }
}
