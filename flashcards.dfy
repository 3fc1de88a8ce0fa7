/** The flashcard screen: a cyclic cursor over the deck and a flip toggle. */
module Flashcards {
  import opened Types

  /** JavaScript's `%` for a positive divisor: the remainder of division
      truncated toward zero, so it takes the sign of the dividend. Dafny's
      own `%` never goes negative; the two agree on non-negative dividends.
      For a negative dividend the result is the one value in `(-n, 0]` that
      differs from the dividend by a multiple of `n`. */
  function JsRem(a: int, n: int): (r: int)
    requires n > 0
    ensures a >= 0 ==> r == a % n
    ensures a < 0 ==> -n < r <= 0
    ensures a < 0 ==> exists q: int :: q <= 0 && a == q * n + r
  {
    if a >= 0 then a % n
    else
      var q := (-a) / n;
      assert -a == q * n + (-a) % n;
      assert a == (-q) * n + -((-a) % n);
      -((-a) % n)
  }

  /** The index after "next": `(i + 1) % n`. */
  function NextIndex(i: int, n: int): (j: int)
    requires n > 0
    ensures 0 <= i < n ==> 0 <= j < n
    ensures 0 <= i < n - 1 ==> j == i + 1
    ensures i == n - 1 ==> j == 0
  {
    JsRem(i + 1, n)
  }

  /** The index after "prev": `(i - 1 + n) % n`. */
  function PrevIndex(i: int, n: int): (j: int)
    requires n > 0
    ensures 0 <= i < n ==> 0 <= j < n
    ensures 0 < i < n ==> j == i - 1
    ensures i == 0 ==> j == n - 1
  {
    JsRem(i - 1 + n, n)
  }

  /** "Prev" undoes "next". */
  lemma PrevAfterNext(i: int, n: int)
    requires 0 <= i < n
    ensures PrevIndex(NextIndex(i, n), n) == i
  {
  }

  /** "Next" undoes "prev". */
  lemma NextAfterPrev(i: int, n: int)
    requires 0 <= i < n
    ensures NextIndex(PrevIndex(i, n), n) == i
  {
  }

  /** `k` presses of "next". */
  function NextTimes(i: int, n: int, k: nat): int
    requires n > 0
  {
    if k == 0 then i else NextIndex(NextTimes(i, n, k - 1), n)
  }

  /** Pressing "next" `a` times and then `b` times is pressing it `a + b` times. */
  lemma {:induction false} NextTimesAdd(i: int, n: int, a: nat, b: nat)
    requires n > 0
    ensures NextTimes(i, n, a + b) == NextTimes(NextTimes(i, n, a), n, b)
  {
    if b > 0 {
      NextTimesAdd(i, n, a, b - 1);
    }
  }

  /** Short of the end of the deck, `k` presses move exactly `k` cards on. */
  lemma {:induction false} NextTimesNoWrap(i: int, n: int, k: nat)
    requires 0 <= i && i + k < n
    ensures NextTimes(i, n, k) == i + k
  {
    if k > 0 {
      NextTimesNoWrap(i, n, k - 1);
    }
  }

  /** From a valid index, `k` presses of "next" land on `(i + k) mod n` for
      every `k` up to a full round; in particular `n` presses return to the
      card one started from. */
  lemma NextTimesWithinRound(i: int, n: int, k: nat)
    requires 0 <= i < n && k <= n
    ensures NextTimes(i, n, k) == if i + k < n then i + k else i + k - n
  {
    if i + k < n {
      NextTimesNoWrap(i, n, k);
    } else {
      var toEnd := n - 1 - i;
      NextTimesNoWrap(i, n, toEnd);
      NextTimesAdd(i, n, toEnd + 1, k - toEnd - 1);
      assert NextTimes(i, n, toEnd + 1) == 0;
      NextTimesNoWrap(0, n, k - toEnd - 1);
    }
  }

  /** `n` presses of "next" return to the card one started from. */
  lemma FullCycle(i: int, n: int)
    requires 0 <= i < n
    ensures NextTimes(i, n, n) == i
  {
    NextTimesWithinRound(i, n, n);
  }

  class FlashcardView {
    const cards: seq<Flashcard>
    var currentIndex: int
    var isFlipped: bool

    ghost predicate Valid()
      reads this
    {
      0 <= currentIndex && (|cards| > 0 ==> currentIndex < |cards|)
    }

    constructor (deck: seq<Flashcard>)
      ensures cards == deck && currentIndex == 0 && !isFlipped && Valid()
    {
      cards := deck;
      currentIndex := 0;
      isFlipped := false;
    }

    /** `handleNext`: unflip and move to the next card, wrapping to the first. */
    method HandleNext()
      requires Valid() && |cards| > 0
      modifies this
      ensures Valid()
      ensures currentIndex == NextIndex(old(currentIndex), |cards|) && !isFlipped
    {
      isFlipped := false;
      currentIndex := NextIndex(currentIndex, |cards|);
    }

    /** `handlePrev`: unflip and move to the previous card, wrapping to the last. */
    method HandlePrev()
      requires Valid() && |cards| > 0
      modifies this
      ensures Valid()
      ensures currentIndex == PrevIndex(old(currentIndex), |cards|) && !isFlipped
    {
      isFlipped := false;
      currentIndex := PrevIndex(currentIndex, |cards|);
    }

    /** A tap on the card turns it over. */
    method ToggleFlip()
      modifies this
      ensures isFlipped == !old(isFlipped) && currentIndex == old(currentIndex)
    {
      isFlipped := !isFlipped;
    }

    /** The card shown. */
    function CurrentCard(): (c: Flashcard)
      reads this
      requires Valid() && |cards| > 0
      ensures c in cards
    {
      cards[currentIndex]
    }

    /** The "Card p of n" label. */
    function Position(): (p: int)
      reads this
      requires Valid()
      ensures |cards| > 0 ==> 1 <= p <= |cards|
      ensures p >= 1
    {
      currentIndex + 1
    }
  }

  /** Two taps leave the card as it was. */
  method TapTwice(v: FlashcardView)
    modifies v
    ensures v.isFlipped == old(v.isFlipped) && v.currentIndex == old(v.currentIndex)
  {
    v.ToggleFlip();
    v.ToggleFlip();
  }
}
