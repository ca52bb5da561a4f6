/**
 * The "Nuestras Entidades Aliadas" strip: four ally cards shown
 * `itemsPerView` at a time. The page width is the breakpoint's
 * `itemsPerView` itself; nothing guards it against the number of cards.
 */
module Allies {
  import opened PagedStrip

  /** Number of allies listed on the strip. */
  const AllyCount: nat := 4

  /** `max(0, 4 - itemsPerView)`. */
  function AlliesMaxStart(itemsPerView: nat): (m: nat)
    requires 1 <= itemsPerView <= 4
    ensures m == AllyCount - itemsPerView
    ensures m <= 3
  {
    MaxStart(AllyCount, itemsPerView)
  }

  /** The page layout at every breakpoint: (maxStart, pageCount) is
      (3, 4), (2, 2), (1, 2) and (0, 1) for one to four cards per view. */
  lemma LayoutTable(itemsPerView: nat)
    requires 1 <= itemsPerView <= 4
    ensures itemsPerView == 1 ==> AlliesMaxStart(itemsPerView) == 3 && PageCount(AllyCount, itemsPerView) == 4
    ensures itemsPerView == 2 ==> AlliesMaxStart(itemsPerView) == 2 && PageCount(AllyCount, itemsPerView) == 2
    ensures itemsPerView == 3 ==> AlliesMaxStart(itemsPerView) == 1 && PageCount(AllyCount, itemsPerView) == 2
    ensures itemsPerView == 4 ==> AlliesMaxStart(itemsPerView) == 0 && PageCount(AllyCount, itemsPerView) == 1
  {
    assert (4 + 1 - 1) / 1 == 4;
    assert (4 + 2 - 1) / 2 == 2;
    assert (4 + 3 - 1) / 3 == 2;
    assert (4 + 4 - 1) / 4 == 1;
  }

  /** Among the dots that are drawn, exactly one jumps past `maxStart`:
      the second dot at three cards per view, which starts the strip at
      the fourth card (offset 3 > 1). */
  lemma IndicatorLeavesRangeExactly(itemsPerView: nat, i: nat)
    requires 1 <= itemsPerView <= 4 && i < PageCount(AllyCount, itemsPerView)
    ensures !InRange(IndicatorStart(i, itemsPerView), AlliesMaxStart(itemsPerView))
            <==> itemsPerView == 3 && i == 1
  {
    var pages := PageCount(AllyCount, itemsPerView);
    var s := IndicatorStart(i, itemsPerView);
    if itemsPerView == 1 {
      assert pages == 4 && s == i;
    } else if itemsPerView == 2 {
      assert pages == 2 && s == 2 * i;
    } else if itemsPerView == 3 {
      assert pages == 2 && s == 3 * i;
    } else {
      assert pages == 1 && s == 0;
    }
  }

  /** The allies strip: the current breakpoint's page width and the
      offset of the first visible card. */
  class AlliesStrip {
    var itemsPerView: nat
    var startIndex: nat

    ghost predicate Valid()
      reads this
    {
      1 <= itemsPerView <= 4
    }

    /** On mount the strip shows the first card. */
    constructor (isXs: bool, isSm: bool, isMd: bool)
      ensures Valid()
      ensures itemsPerView == ItemsPerView(isXs, isSm, isMd) && startIndex == 0
      ensures InRange(startIndex, AlliesMaxStart(itemsPerView))
    {
      itemsPerView := ItemsPerView(isXs, isSm, isMd);
      startIndex := 0;
    }

    /** A new breakpoint. The re-clamp effect runs only when
        `itemsPerView` actually changes. */
    method ViewportChange(isXs: bool, isSm: bool, isMd: bool)
      requires Valid()
      modifies this
      ensures Valid()
      ensures itemsPerView == ItemsPerView(isXs, isSm, isMd)
      ensures startIndex ==
        if itemsPerView == old(itemsPerView) then old(startIndex)
        else Clamp(old(startIndex), AlliesMaxStart(itemsPerView))
    {
      var width := ItemsPerView(isXs, isSm, isMd);
      if width != itemsPerView {
        itemsPerView := width;
        startIndex := Clamp(startIndex, AlliesMaxStart(width));
      }
    }

    /** The previous arrow; disabled at the first card. */
    method ClickPrev()
      requires Valid()
      modifies this`startIndex
      ensures Valid()
      ensures startIndex == StepBack(old(startIndex), itemsPerView)
      ensures InRange(old(startIndex), AlliesMaxStart(itemsPerView)) ==>
              InRange(startIndex, AlliesMaxStart(itemsPerView))
    {
      if !PrevDisabled(startIndex) {
        startIndex := StepBack(startIndex, itemsPerView);
      }
    }

    /** The next arrow; disabled at or past `maxStart`. */
    method ClickNext()
      requires Valid()
      modifies this`startIndex
      ensures Valid()
      ensures startIndex == ClickForward(old(startIndex), itemsPerView, AlliesMaxStart(itemsPerView))
      ensures InRange(old(startIndex), AlliesMaxStart(itemsPerView)) ==>
              InRange(startIndex, AlliesMaxStart(itemsPerView))
    {
      if !NextDisabled(startIndex, AlliesMaxStart(itemsPerView)) {
        startIndex := StepForward(startIndex, itemsPerView, AlliesMaxStart(itemsPerView));
      }
    }

    /** The dot of page `i`: an unclamped jump to `i * itemsPerView`
        that highlights that dot. */
    method ClickIndicator(i: nat)
      requires Valid() && i < PageCount(AllyCount, itemsPerView)
      modifies this`startIndex
      ensures Valid()
      ensures startIndex == IndicatorStart(i, itemsPerView)
      ensures CurrentPage(startIndex, itemsPerView) == i
    {
      startIndex := IndicatorStart(i, itemsPerView);
    }
  }

  /** Three cards per view: the second dot leaves the strip past
      `maxStart` with next disabled; the re-clamp does not run, but
      previous brings the strip back to the first card. */
  method ThreePerViewDotThenPrev()
  {
    var strip := new AlliesStrip(false, false, true);
    assert strip.itemsPerView == 3;
    LayoutTable(3);
    strip.ClickIndicator(1);
    assert strip.startIndex == 3 && !InRange(strip.startIndex, AlliesMaxStart(3));
    strip.ClickNext();
    assert strip.startIndex == 3;
    strip.ClickPrev();
    assert strip.startIndex == 0 && strip.itemsPerView == 3;
  }

  /** Two cards per view: the second dot shows cards three and four, after
      which next is disabled and previous returns to the first card. */
  method TwoPerViewWalk()
  {
    var strip := new AlliesStrip(false, true, false);
    assert strip.itemsPerView == 2;
    LayoutTable(2);
    strip.ClickIndicator(1);
    assert strip.startIndex == 2;
    strip.ClickNext();
    assert strip.startIndex == 2;
    strip.ClickPrev();
    assert strip.startIndex == 0;
  }
}
