/** The flashcard viewer: a cyclic index over the words and a front/back flag. */
module Flashcards {

  /** `goToNext`'s update: the last card wraps round to the first. */
  function NextIndex(i: int, n: int): int
  {
    if i == n - 1 then 0 else i + 1
  }

  /** `goToPrevious`'s update: the first card wraps round to the last. */
  function PrevIndex(i: int, n: int): int
  {
    if i == 0 then n - 1 else i - 1
  }

  /** On a valid index both moves are steps modulo the number of cards. */
  lemma StepsAreModular(i: int, n: int)
    requires 0 <= i < n
    ensures NextIndex(i, n) == (i + 1) % n
    ensures PrevIndex(i, n) == (i - 1 + n) % n
    ensures 0 <= NextIndex(i, n) < n && 0 <= PrevIndex(i, n) < n
  {
  }

  /** Each move undoes the other. */
  lemma PrevUndoesNext(i: int, n: int)
    requires 0 <= i < n
    ensures PrevIndex(NextIndex(i, n), n) == i
    ensures NextIndex(PrevIndex(i, n), n) == i
  {
  }

  /** `k` presses of the next button. */
  function NextTimes(i: int, n: int, k: nat): int
  {
    if k == 0 then i else NextIndex(NextTimes(i, n, k - 1), n)
  }

  /** Up to a full round, `k` presses of next move `k` cards forward, wrapping once past the last card. */
  lemma {:induction false} NextTimesWraps(i: int, n: int, k: nat)
    requires 0 <= i < n && k <= n
    ensures NextTimes(i, n, k) == if i + k < n then i + k else i + k - n
  {
    if k > 0 {
      NextTimesWraps(i, n, k - 1);
    }
  }

  /** Going forward once per card comes back to the starting card. */
  lemma FullRoundReturns(i: int, n: int)
    requires 0 <= i < n
    ensures NextTimes(i, n, n) == i
  {
    NextTimesWraps(i, n, n);
  }

  class Flashcards {
    /** `words.length`. */
    const count: int
    var currentIndex: int
    var showFront: bool

    /** With at least one card, the index points at a card. */
    ghost predicate Valid()
      reads this
    {
      count > 0 ==> 0 <= currentIndex < count
    }

    /** The viewer opens on the first card, front side up. */
    constructor (count: nat)
      ensures Valid()
      ensures this.count == count && currentIndex == 0 && showFront
    {
      this.count := count;
      currentIndex := 0;
      showFront := true;
    }

    /** `goToPrevious`: step back round the deck and show the front. */
    method GoToPrevious()
      requires Valid()
      modifies this
      ensures Valid()
      ensures currentIndex == PrevIndex(old(currentIndex), count) && showFront
    {
      currentIndex := if currentIndex == 0 then count - 1 else currentIndex - 1;
      showFront := true;
    }

    /** `goToNext`: step forward round the deck and show the front. */
    method GoToNext()
      requires Valid()
      modifies this
      ensures Valid()
      ensures currentIndex == NextIndex(old(currentIndex), count) && showFront
    {
      currentIndex := if currentIndex == count - 1 then 0 else currentIndex + 1;
      showFront := true;
    }

    /** A click on the card turns it over. */
    method FlipCard()
      requires Valid()
      modifies this`showFront
      ensures Valid()
      ensures showFront == !old(showFront)
    {
      showFront := !showFront;
    }
  }
}
