/** The flashcard study session: navigation round the deck, the answer reveal,
    the once-per-session rating gate and the session counters. */
module Flashcards {
  import opened Wrappers
  import opened Seqs
  import opened Catalog
  import opened Scheduler
  import CaseSessions

  /** What a deck must satisfy for the session: at least one card, distinct identifiers. */
  predicate UsableDeck(cards: seq<FlashCard>) {
    |cards| > 0 && NoDuplicates(CardIds(cards))
  }

  /** The catalog deck is usable. */
  lemma CatalogDeckUsable()
    ensures UsableDeck(Flashcards)
  {
    FlashcardDeckSize();
    CatalogIdsDistinct();
  }

  /** The index after `i` going forward round a deck of `n` cards. */
  function Forward(i: nat, n: nat): (j: nat)
    requires i < n
    ensures j < n
    ensures j == if i == n - 1 then 0 else i + 1
  {
    (i + 1) % n
  }

  /** The index before `i` going backward round a deck of `n` cards. */
  function Backward(i: nat, n: nat): (j: nat)
    requires i < n
    ensures j < n
    ensures j == if i == 0 then n - 1 else i - 1
  {
    (i - 1 + n) % n
  }

  /** Previous undoes Next and Next undoes Previous. */
  lemma ForwardBackwardInverse(i: nat, n: nat)
    requires i < n
    ensures Backward(Forward(i, n), n) == i
    ensures Forward(Backward(i, n), n) == i
  {
  }

  /** Distinct reviewed identifiers drawn from the deck are never more than its cards. */
  lemma {:induction false} ReviewedWithinDeck(reviewed: seq<string>, cards: seq<FlashCard>)
    requires UsableDeck(cards)
    requires forall id :: id in reviewed ==> id in CardIds(cards)
    ensures NoDuplicates(reviewed) ==> |reviewed| <= |cards|
  {
    if NoDuplicates(reviewed) {
      DistinctDrawnBound(reviewed, CardIds(cards));
    }
  }

  /** A rating click waiting for its write: the card shown and the rating chosen at the click. */
  datatype PendingReview = PendingReview(cardId: string, rating: Rating)

  class FlashcardSession {
    const cards: seq<FlashCard>
    var current: nat
    var showAnswer: bool
    var studiedToday: nat
    var reviewed: seq<string>

    ghost predicate Valid()
      reads this
    {
      && UsableDeck(cards)
      && current < |cards|
      && (forall id :: id in reviewed ==> id in CardIds(cards))
    }

    /** No card has been rated twice: what the disabled buttons aim for, and what holds as
        long as no rating click came while an earlier rating of the same card was pending. */
    predicate NoCardRatedTwice()
      reads this
    {
      NoDuplicates(reviewed)
    }

    /** The first card, question side up, nothing studied or reviewed. */
    constructor (deck: seq<FlashCard>)
      requires UsableDeck(deck)
      ensures Valid() && NoCardRatedTwice() && cards == deck
      ensures current == 0 && !showAnswer && studiedToday == 0 && reviewed == []
    {
      cards := deck;
      current := 0;
      showAnswer := false;
      studiedToday := 0;
      reviewed := [];
    }

    method NextCard()
      requires Valid()
      modifies this`current, this`showAnswer
      ensures Valid()
      ensures current == Forward(old(current), |cards|) && !showAnswer
    {
      showAnswer := false;
      current := (current + 1) % |cards|;
    }

    method PrevCard()
      requires Valid()
      modifies this`current, this`showAnswer
      ensures Valid()
      ensures current == Backward(old(current), |cards|) && !showAnswer
    {
      showAnswer := false;
      current := (current - 1 + |cards|) % |cards|;
    }

    /** Clicking the card or the Show Answer/Show Question button. */
    method ToggleAnswer()
      modifies this`showAnswer
      ensures showAnswer == !old(showAnswer)
    {
      showAnswer := !showAnswer;
    }

    /** Whether the rating buttons are shown and enabled for the current card. */
    function CanRate(): bool
      reads this
      requires Valid()
    {
      showAnswer && cards[current].id !in reviewed
    }

    /** A click on a rating button: nothing when the buttons are hidden or disabled;
        otherwise the write for the current card starts. The click itself changes no state. */
    function RatingClick(rating: Rating): (p: Option<PendingReview>)
      reads this
      requires Valid()
      ensures p.Some? <==> showAnswer && cards[current].id !in reviewed
      ensures p.Some? ==> p.value.cardId == cards[current].id && p.value.rating == rating
      ensures p.Some? ==> p.value.cardId in CardIds(cards) && p.value.cardId !in reviewed
    {
      if CanRate() then
        assert cards[current].id == CardIds(cards)[current];
        Some(PendingReview(cards[current].id, rating))
      else None
    }

    /** The end of the pending write for `p`, at time `now`. When the review was stored
        (`persisted`) it is returned, the card counts as reviewed and one more card as
        studied; otherwise nothing changes. No gate is checked here: the gate was checked at
        the click, so a second click while the first write was pending rates the card again. */
    method FinishRating(p: PendingReview, now: int, persisted: bool) returns (rec: Option<ReviewRecord>)
      requires Valid() && p.cardId in CardIds(cards)
      modifies this`reviewed, this`studiedToday
      ensures Valid()
      ensures persisted ==> rec == Some(Schedule(p.cardId, p.rating, now))
      ensures persisted ==> reviewed == old(reviewed) + [p.cardId] && studiedToday == old(studiedToday) + 1
      ensures !persisted ==> rec.None? && reviewed == old(reviewed) && studiedToday == old(studiedToday)
      ensures old(NoCardRatedTwice()) && p.cardId !in old(reviewed) ==> NoCardRatedTwice()
    {
      rec := None;
      if persisted {
        rec := Some(Schedule(p.cardId, p.rating, now));
        reviewed := reviewed + [p.cardId];
        studiedToday := studiedToday + 1;
      }
    }

    /** The Remaining counter: the deck size less the reviewed entries. It is never negative
        while no card has been rated twice. */
    function Remaining(): (r: int)
      reads this
      requires Valid()
      ensures r + |reviewed| == |cards|
      ensures NoCardRatedTwice() ==> r >= 0
    {
      ReviewedWithinDeck(reviewed, cards);
      |cards| - |reviewed|
    }

    /** The Progress percentage: the reviewed entries over the deck size, rounded. It is 0
        before any review, and at most 100 while no card has been rated twice. */
    function ProgressPercent(): (p: int)
      reads this
      requires Valid()
      ensures p == CaseSessions.RoundedPercent(|reviewed|, |cards|)
      ensures 0 <= p
      ensures NoCardRatedTwice() ==> p <= 100
      ensures reviewed == [] ==> p == 0
    {
      ReviewedWithinDeck(reviewed, cards);
      CaseSessions.RoundedPercentExtremes(|cards|);
      CaseSessions.RoundedPercent(|reviewed|, |cards|)
    }
  }

  /** Two rating clicks on the same card before the first write ends both pass the gate, and
      once both writes are stored the card is reviewed twice: the Remaining counter drops by
      two for one card. */
  method RateTwiceWhilePending(session: FlashcardSession, rating: Rating, now: int)
    requires session.Valid() && session.CanRate() && session.NoCardRatedTwice()
    modifies session
    ensures session.Valid() && !session.NoCardRatedTwice()
    ensures session.Remaining() == old(session.Remaining()) - 2
  {
    var first := session.RatingClick(rating);
    var second := session.RatingClick(rating);
    var id := first.value.cardId;
    var _ := session.FinishRating(first.value, now, true);
    var _ := session.FinishRating(second.value, now, true);
    assert session.reviewed[|session.reviewed| - 2] == id == session.reviewed[|session.reviewed| - 1];
  }
}
