/** The settings carousel that cycles through the interface languages. */
module LanguageSlider {

  const Languages: seq<string> := ["English", "Polish"]

  /** handleNextLanguage's updater: the last index wraps to 0. */
  function NextIndex(i: int, count: int): int
  {
    if i == count - 1 then 0 else i + 1
  }

  /** handlePreviousLanguage's updater: index 0 wraps to the last one. */
  function PreviousIndex(i: int, count: int): int
  {
    if i == 0 then count - 1 else i - 1
  }

  /** Both updaters keep a valid index valid, and each undoes the other. */
  lemma CyclicIndex(i: int, count: int)
    requires 0 <= i < count
    ensures 0 <= NextIndex(i, count) < count && 0 <= PreviousIndex(i, count) < count
    ensures PreviousIndex(NextIndex(i, count), count) == i
    ensures NextIndex(PreviousIndex(i, count), count) == i
  {
  }

  /** k presses of the next button from index i advance it by k, wrapping once past the last index. */
  lemma {:induction false} ForwardWraps(i: int, count: int, k: nat)
    requires 0 <= i < count && k <= count
    ensures Forward(i, count, k) == if i + k < count then i + k else i + k - count
  {
    if k > 0 {
      ForwardWraps(i, count, k - 1);
    }
  }

  /** Pressing next once per language comes back to the language one started from. */
  lemma FullCycle(i: int, count: int)
    requires 0 <= i < count
    ensures Forward(i, count, count) == i
  {
    ForwardWraps(i, count, count);
  }

  /** steps presses of the next button from index i. */
  function Forward(i: int, count: int, steps: nat): int
  {
    if steps == 0 then i else NextIndex(Forward(i, count, steps - 1), count)
  }

  class LanguageSliderState {
    var currentLanguageId: int

    predicate Valid()
      reads this
    {
      0 <= currentLanguageId < |Languages|
    }

    constructor()
      ensures Valid() && currentLanguageId == 0
    {
      currentLanguageId := 0;
    }

    /** The language shown. */
    function CurrentLanguage(): string
      requires Valid()
      reads this
    {
      Languages[currentLanguageId]
    }

    method HandlePreviousLanguage()
      requires Valid()
      modifies this
      ensures Valid() && currentLanguageId == PreviousIndex(old(currentLanguageId), |Languages|)
    {
      currentLanguageId := if currentLanguageId == 0 then |Languages| - 1 else currentLanguageId - 1;
    }

    method HandleNextLanguage()
      requires Valid()
      modifies this
      ensures Valid() && currentLanguageId == NextIndex(old(currentLanguageId), |Languages|)
    {
      currentLanguageId := if currentLanguageId == |Languages| - 1 then 0 else currentLanguageId + 1;
    }
  }
}
