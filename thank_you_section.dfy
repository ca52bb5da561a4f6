/**
 * The "Agradecimientos" strip: three acknowledgement cards. Unlike the
 * allies strip it pages by `visibleCount = min(itemsPerView, 3)`, so a wide
 * viewport never asks for more cards than exist, and it centres the track
 * when every card fits.
 */
module ThankYouSection {
  import opened IntMath
  import opened PagedStrip

  /** Number of acknowledged entities on the strip. */
  const CardCount: nat := 3

  /** The page width actually used: the breakpoint's wish, capped by the
      number of cards. Never zero, so the page arithmetic never divides by 0. */
  function VisibleCount(itemsPerView: nat): (v: nat)
    requires 1 <= itemsPerView <= 4
    ensures 1 <= v <= CardCount
    ensures v <= itemsPerView
    ensures v == itemsPerView || v == CardCount
  {
    Min(itemsPerView, CardCount)
  }

  /** `max(0, 3 - visibleCount)`. */
  function ThanksMaxStart(itemsPerView: nat): (m: nat)
    requires 1 <= itemsPerView <= 4
    ensures m + VisibleCount(itemsPerView) == CardCount
    ensures m == 0 <==> itemsPerView >= 3
  {
    MaxStart(CardCount, VisibleCount(itemsPerView))
  }

  /** The track is centred when all cards fit in one view. */
  predicate Centred(itemsPerView: nat): (r: bool)
    requires 1 <= itemsPerView <= 4
    ensures r <==> itemsPerView >= CardCount
  {
    CardCount <= VisibleCount(itemsPerView)
  }

  /** The page layout per visible count: (maxStart, pageCount) is
      (2, 3), (1, 2) and (0, 1) for one, two and three visible cards;
      there is always at least one page. */
  lemma LayoutTable(itemsPerView: nat)
    requires 1 <= itemsPerView <= 4
    ensures PageCount(CardCount, VisibleCount(itemsPerView)) >= 1
    ensures itemsPerView == 1 ==> ThanksMaxStart(itemsPerView) == 2 && PageCount(CardCount, VisibleCount(itemsPerView)) == 3
    ensures itemsPerView == 2 ==> ThanksMaxStart(itemsPerView) == 1 && PageCount(CardCount, VisibleCount(itemsPerView)) == 2
    ensures itemsPerView >= 3 ==>
      ThanksMaxStart(itemsPerView) == 0 && PageCount(CardCount, VisibleCount(itemsPerView)) == 1
  {
    var v := VisibleCount(itemsPerView);
    if itemsPerView == 1 {
      assert PageCount(CardCount, 1) == 3;
    } else if itemsPerView == 2 {
      assert PageCount(CardCount, 2) == 2;
    } else {
      assert v == 3 && PageCount(CardCount, 3) == 1;
    }
  }

  /** When all three cards fit, the track is centred, there is a single
      page, and both arrows are disabled on every in-range offset. */
  lemma AllVisibleIsStatic(itemsPerView: nat, start: nat)
    requires 1 <= itemsPerView <= 4
    requires InRange(start, ThanksMaxStart(itemsPerView))
    ensures Centred(itemsPerView) <==> VisibleCount(itemsPerView) == 3
    ensures Centred(itemsPerView) <==> ThanksMaxStart(itemsPerView) == 0
    ensures Centred(itemsPerView) ==>
      PrevDisabled(start) && NextDisabled(start, ThanksMaxStart(itemsPerView))
  {
  }

  /** Among the dots that are drawn, exactly one jumps past `maxStart`:
      the second dot at two visible cards, which starts at the third card
      (offset 2 > 1). */
  lemma IndicatorLeavesRangeExactly(itemsPerView: nat, i: nat)
    requires 1 <= itemsPerView <= 4
    requires i < PageCount(CardCount, VisibleCount(itemsPerView))
    ensures !InRange(IndicatorStart(i, VisibleCount(itemsPerView)), ThanksMaxStart(itemsPerView))
            <==> VisibleCount(itemsPerView) == 2 && i == 1
  {
    var v := VisibleCount(itemsPerView);
    var pages := PageCount(CardCount, v);
    var s := IndicatorStart(i, v);
    if v == 1 {
      assert pages == 3 && s == i;
    } else if v == 2 {
      assert pages == 2 && s == 2 * i;
    } else {
      assert pages == 1 && s == 0;
    }
  }

  /** The acknowledgements strip: the breakpoint's wish and the offset of
      the first visible card. */
  class ThanksStrip {
    var itemsPerView: nat
    var startIndex: nat

    ghost predicate Valid()
      reads this
    {
      1 <= itemsPerView <= 4
    }

    /** On mount the strip shows the first card. */
    constructor (isXs: bool, isSm: bool, isMd: bool)
      ensures Valid()
      ensures itemsPerView == ItemsPerView(isXs, isSm, isMd) && startIndex == 0
      ensures InRange(startIndex, ThanksMaxStart(itemsPerView))
    {
      itemsPerView := ItemsPerView(isXs, isSm, isMd);
      startIndex := 0;
    }

    /** A new breakpoint. The re-clamp effect depends on `visibleCount`,
        so going from three to four cards per view changes nothing. */
    method ViewportChange(isXs: bool, isSm: bool, isMd: bool)
      requires Valid()
      modifies this
      ensures Valid()
      ensures itemsPerView == ItemsPerView(isXs, isSm, isMd)
      ensures startIndex ==
        if VisibleCount(itemsPerView) == VisibleCount(old(itemsPerView)) then old(startIndex)
        else Clamp(old(startIndex), ThanksMaxStart(itemsPerView))
    {
      var wish := ItemsPerView(isXs, isSm, isMd);
      var changed := VisibleCount(wish) != VisibleCount(itemsPerView);
      itemsPerView := wish;
      if changed {
        startIndex := Clamp(startIndex, ThanksMaxStart(wish));
      }
    }

    /** The previous arrow; disabled at the first card. */
    method ClickPrev()
      requires Valid()
      modifies this`startIndex
      ensures Valid()
      ensures startIndex == StepBack(old(startIndex), VisibleCount(itemsPerView))
      ensures InRange(old(startIndex), ThanksMaxStart(itemsPerView)) ==>
              InRange(startIndex, ThanksMaxStart(itemsPerView))
    {
      if !PrevDisabled(startIndex) {
        startIndex := StepBack(startIndex, VisibleCount(itemsPerView));
      }
    }

    /** The next arrow; disabled at or past `maxStart`. */
    method ClickNext()
      requires Valid()
      modifies this`startIndex
      ensures Valid()
      ensures startIndex ==
        ClickForward(old(startIndex), VisibleCount(itemsPerView), ThanksMaxStart(itemsPerView))
      ensures InRange(old(startIndex), ThanksMaxStart(itemsPerView)) ==>
              InRange(startIndex, ThanksMaxStart(itemsPerView))
    {
      var m := ThanksMaxStart(itemsPerView);
      if !NextDisabled(startIndex, m) {
        startIndex := StepForward(startIndex, VisibleCount(itemsPerView), m);
      }
    }

    /** The dot of page `i`: an unclamped jump to `i * visibleCount`
        that highlights that dot. */
    method ClickIndicator(i: nat)
      requires Valid() && i < PageCount(CardCount, VisibleCount(itemsPerView))
      modifies this`startIndex
      ensures Valid()
      ensures startIndex == IndicatorStart(i, VisibleCount(itemsPerView))
      ensures CurrentPage(startIndex, VisibleCount(itemsPerView)) == i
    {
      startIndex := IndicatorStart(i, VisibleCount(itemsPerView));
    }
  }
}
