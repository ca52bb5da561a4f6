/**
 * Index arithmetic shared by the two paged-strip carousels (the allies strip
 * and the acknowledgements strip). A strip shows `width` cards of `total` at
 * a time, starting at card `start`; it moves a page at a time, never wraps,
 * and keeps `start` at most `maxStart = max(0, total - width)` through its
 * arrow buttons and its viewport re-clamp.
 */
module PagedStrip {
  import opened IntMath

  /** The responsive breakpoint lookup: the first true media-query flag
      wins (below `sm`, between `sm` and `md`, between `md` and `lg`);
      a large viewport shows four cards. */
  function ItemsPerView(isXs: bool, isSm: bool, isMd: bool): (r: nat)
    ensures 1 <= r <= 4
    ensures r == 1 <==> isXs
    ensures r == 2 <==> !isXs && isSm
    ensures r == 3 <==> !isXs && !isSm && isMd
    ensures r == 4 <==> !isXs && !isSm && !isMd
  {
    if isXs then 1 else if isSm then 2 else if isMd then 3 else 4
  }

  /** The largest start offset that still fills the view. */
  function MaxStart(total: nat, width: nat): (m: nat)
    ensures m + width >= total
    ensures m <= total
    ensures m > 0 ==> m + width == total
  {
    Max(0, total - width)
  }

  /** `start` lies in the strip's range `[0, maxStart]`. */
  predicate InRange(start: nat, maxStart: nat)
  {
    start <= maxStart
  }

  /** The "next" handler: one page forward, capped at `maxStart`. */
  function StepForward(start: nat, width: nat, maxStart: nat): (r: nat)
    requires width >= 1
    ensures r <= maxStart
    ensures r == start <==> start == maxStart
    ensures start < maxStart ==> start < r <= start + width
    ensures start + width <= maxStart ==> r == start + width
    ensures start + width >= maxStart ==> r == maxStart
  {
    Min(start + width, maxStart)
  }

  /** The "previous" handler: one page back, floored at 0, never wrapping. */
  function StepBack(start: nat, width: nat): (r: nat)
    requires width >= 1
    ensures r <= start
    ensures r == start <==> start == 0
    ensures start <= width ==> r == 0
    ensures start >= width ==> r + width == start
  {
    Max(start - width, 0)
  }

  /** The viewport re-clamp: an offset past the new `maxStart` is pulled
      back to it, an offset within range is kept. */
  function Clamp(start: nat, maxStart: nat): (r: nat)
    ensures InRange(r, maxStart)
    ensures InRange(start, maxStart) ==> r == start
    ensures !InRange(start, maxStart) ==> r == maxStart
  {
    Min(start, maxStart)
  }

  /** Number of indicator dots: `ceil(total / width)`. */
  function PageCount(total: nat, width: nat): (p: nat)
    requires width >= 1
    ensures p * width >= total
    ensures p == 0 || (p - 1) * width < total
    ensures total >= 1 ==> p >= 1
  {
    CeilDiv(total, width)
  }

  /** The highlighted dot: `floor(start / width)`. */
  function CurrentPage(start: nat, width: nat): (p: nat)
    requires width >= 1
    ensures p * width <= start < (p + 1) * width
  {
    start / width
  }

  /** The indicator dot for page `i` jumps straight to `i * width`,
      without any clamping. */
  function IndicatorStart(i: nat, width: nat): (s: nat)
    requires width >= 1
    ensures CurrentPage(s, width) == i
    ensures s >= i
  {
    IndicatorHighlightsItsPage(i, width);
    i * width
  }

  /** Multiplying then dividing by the width gives the page back. */
  lemma IndicatorHighlightsItsPage(i: nat, width: nat)
    requires width >= 1
    ensures (i * width) / width == i
  {
    DivUnique(i * width, width, i);
  }

  /** Floor division is determined by the bracketing multiples. */
  lemma DivUnique(x: nat, w: nat, q: nat)
    requires w >= 1 && q * w <= x < (q + 1) * w
    ensures x / w == q
  {
    var p := x / w;
    MulLess(p, q + 1, w);
    MulLess(q, p + 1, w);
  }

  /** `a * w < b * w` forces `a < b` for a positive width. */
  lemma MulLess(a: nat, b: nat, w: nat)
    requires w >= 1
    ensures a * w < b * w ==> a < b
  {
    if a >= b {
      assert a * w >= b * w by { MulMono(b, a, w); }
    }
  }

  lemma {:induction false} MulMono(x: nat, y: nat, w: nat)
    requires x <= y
    ensures x * w <= y * w
    decreases y - x
  {
    if x < y {
      MulMono(x + 1, y, w);
    }
  }

  /** The previous button is disabled exactly at the first card. */
  predicate PrevDisabled(start: nat)
  {
    start == 0
  }

  /** The next button is disabled at or beyond `maxStart`. */
  predicate NextDisabled(start: nat, maxStart: nat): (r: bool)
    ensures InRange(start, maxStart) ==> (r <==> start == maxStart)
    ensures !InRange(start, maxStart) ==> r
  {
    start >= maxStart
  }

  /** On an in-range offset a disabled button would not have moved the
      strip anyway: its handler is then a no-op. */
  lemma DisabledHandlersAreNoOps(start: nat, width: nat, maxStart: nat)
    requires width >= 1 && InRange(start, maxStart)
    ensures PrevDisabled(start) ==> StepBack(start, width) == start
    ensures NextDisabled(start, maxStart) ==> StepForward(start, width, maxStart) == start
  {
  }

  /** What a click on a possibly disabled button does: a disabled button
      fires no click. In range the guard changes nothing; past `maxStart`
      (after an unclamped dot jump) it keeps the strip where it is, where
      the handler alone would have pulled it back to `maxStart`. */
  function ClickForward(start: nat, width: nat, maxStart: nat): (r: nat)
    requires width >= 1
    ensures InRange(start, maxStart) ==> r == StepForward(start, width, maxStart)
    ensures !InRange(start, maxStart) ==> r == start && start != StepForward(start, width, maxStart)
  {
    if NextDisabled(start, maxStart) then start else StepForward(start, width, maxStart)
  }

  function ClickBack(start: nat, width: nat): (r: nat)
    requires width >= 1
    ensures r == StepBack(start, width)
  {
    if PrevDisabled(start) then start else StepBack(start, width)
  }

  /** A user interaction with the arrows. */
  datatype Arrow = Prev | Next

  /** The offset after clicking through `clicks` in order. */
  function RunClicks(start: nat, width: nat, maxStart: nat, clicks: seq<Arrow>): nat
    requires width >= 1
    decreases clicks
  {
    if clicks == [] then start
    else
      var s := if clicks[0] == Prev then ClickBack(start, width)
               else ClickForward(start, width, maxStart);
      RunClicks(s, width, maxStart, clicks[1..])
  }

  /** Any sequence of arrow clicks keeps an in-range offset in range. */
  lemma {:induction false} ClicksStayInRange(start: nat, width: nat, maxStart: nat, clicks: seq<Arrow>)
    requires width >= 1 && InRange(start, maxStart)
    ensures InRange(RunClicks(start, width, maxStart, clicks), maxStart)
    decreases clicks
  {
    if clicks != [] {
      var s := if clicks[0] == Prev then ClickBack(start, width)
               else ClickForward(start, width, maxStart);
      ClicksStayInRange(s, width, maxStart, clicks[1..]);
    }
  }

  /** Enough forward clicks from any offset reach `maxStart` and stay there;
      clicks are counted by `k`. */
  lemma {:induction false} ForwardReachesEnd(start: nat, width: nat, maxStart: nat, k: nat)
    requires width >= 1 && InRange(start, maxStart) && start + k * width >= maxStart
    ensures RunClicks(start, width, maxStart, seq(k, _ => Next)) == maxStart
    decreases k
  {
    var clicks := seq(k, _ => Next);
    if k == 0 {
      assert clicks == [];
    } else {
      assert clicks[0] == Next;
      assert clicks[1..] == seq(k - 1, _ => Next);
      var s := ClickForward(start, width, maxStart);
      if start == maxStart {
        assert s == maxStart;
        ForwardStaysAtEnd(maxStart, width, k - 1);
      } else {
        assert s == Min(start + width, maxStart);
        assert s + (k - 1) * width >= maxStart by {
          assert k * width == width + (k - 1) * width;
        }
        ForwardReachesEnd(s, width, maxStart, k - 1);
      }
    }
  }

  lemma {:induction false} ForwardStaysAtEnd(maxStart: nat, width: nat, k: nat)
    requires width >= 1
    ensures RunClicks(maxStart, width, maxStart, seq(k, _ => Next)) == maxStart
  {
    var clicks := seq(k, _ => Next);
    if k > 0 {
      assert clicks[0] == Next;
      assert clicks[1..] == seq(k - 1, _ => Next);
      ForwardStaysAtEnd(maxStart, width, k - 1);
    } else {
      assert clicks == [];
    }
  }
}
