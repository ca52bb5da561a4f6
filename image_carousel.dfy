/**
 * The looping slideshow at the top of the landing page: an `active` slide
 * index over N slides, arrow buttons, a play/pause button, a touch-swipe
 * recogniser and an autoplay tick.
 */
module ImageCarousel {
  import opened Wrappers

  /** Horizontal distance, in pixels, a swipe must exceed to count. */
  const SwipeThreshold: int := 40

  /** The slide after `a`, wrapping from the last slide to the first.
      The operands are non-negative, so JavaScript's truncating `%` and
      Dafny's Euclidean `%` agree. */
  function Next(a: nat, n: nat): (r: nat)
    requires n >= 1
    ensures r < n
    ensures a < n ==> r == (if a == n - 1 then 0 else a + 1)
  {
    (a + 1) % n
  }

  /** The slide before `a`, wrapping from the first slide to the last. */
  function Back(a: nat, n: nat): (r: nat)
    requires n >= 1
    ensures r < n
    ensures a < n ==> r == (if a == 0 then n - 1 else a - 1)
  {
    (a - 1 + n) % n
  }

  /** Back undoes Next and Next undoes Back on every in-range index. */
  lemma BackNextInverse(a: nat, n: nat)
    requires n >= 1 && a < n
    ensures Back(Next(a, n), n) == a
    ensures Next(Back(a, n), n) == a
  {
  }

  /** `k` consecutive Next steps from `a`. */
  function NextSteps(a: nat, n: nat, k: nat): (r: nat)
    requires n >= 1
    ensures a < n ==> r < n
  {
    if k == 0 then a else Next(NextSteps(a, n, k - 1), n)
  }

  /** Without reaching the end, `k` Next steps simply add `k`. */
  lemma {:induction false} NextStepsNoWrap(a: nat, n: nat, k: nat)
    requires n >= 1 && a + k < n
    ensures NextSteps(a, n, k) == a + k
  {
    if k > 0 {
      NextStepsNoWrap(a, n, k - 1);
    }
  }

  /** `j` steps followed by `k` steps are `j + k` steps. */
  lemma {:induction false} NextStepsCompose(a: nat, n: nat, j: nat, k: nat)
    requires n >= 1
    ensures NextSteps(a, n, j + k) == NextSteps(NextSteps(a, n, j), n, k)
  {
    if k > 0 {
      NextStepsCompose(a, n, j, k - 1);
    }
  }

  /** Going round the whole slideshow, N steps, returns to the starting slide. */
  lemma FullCycle(a: nat, n: nat)
    requires n >= 1 && a < n
    ensures NextSteps(a, n, n) == a
  {
    var toEnd := n - 1 - a;
    NextStepsNoWrap(a, n, toEnd);
    NextStepsCompose(a, n, toEnd, 1);
    assert NextSteps(a, n, toEnd + 1) == 0;
    NextStepsNoWrap(0, n, a);
    NextStepsCompose(a, n, toEnd + 1, a);
  }

  /** What a finished touch does to the active slide. */
  datatype Swipe = NoSwipe | SwipeNext | SwipeBack

  /** The recogniser: a horizontal movement of more than 40 pixels to the
      left advances, one to the right goes back, anything shorter is ignored. */
  function Recognise(delta: int): (s: Swipe)
    ensures s == NoSwipe <==> -SwipeThreshold <= delta <= SwipeThreshold
    ensures s == SwipeNext <==> delta < -SwipeThreshold
    ensures s == SwipeBack <==> delta > SwipeThreshold
  {
    var magnitude := if delta < 0 then -delta else delta;
    if magnitude > SwipeThreshold then
      if delta < 0 then SwipeNext else SwipeBack
    else
      NoSwipe
  }

  /** The slide shown after a recognised gesture. */
  function AfterSwipe(a: nat, n: nat, s: Swipe): (r: nat)
    requires n >= 1
    ensures a < n ==> r < n
    ensures s == NoSwipe ==> r == a
    ensures s == SwipeNext ==> r == Next(a, n)
    ensures s == SwipeBack ==> r == Back(a, n)
  {
    match s
    case NoSwipe => a
    case SwipeNext => Next(a, n)
    case SwipeBack => Back(a, n)
  }

  /** One slideshow instance. `touchStart` is the x coordinate recorded by
      the last touch start, or None when no touch is in progress. */
  class Slideshow {
    const n: nat
    var active: nat
    var playing: bool
    var touchStart: Option<int>

    ghost predicate Valid()
      reads this
    {
      n >= 1 && active < n
    }

    /** A freshly mounted slideshow shows the first slide and plays iff
        autoplay is configured. */
    constructor (slideCount: nat, autoPlay: bool)
      requires slideCount >= 1
      ensures Valid()
      ensures n == slideCount && active == 0 && playing == autoPlay && touchStart == None
    {
      n := slideCount;
      active := 0;
      playing := autoPlay;
      touchStart := None;
    }

    /** A finger touches the slides at horizontal position `x`. */
    method OnTouchStart(x: int)
      requires Valid()
      modifies this
      ensures Valid()
      ensures touchStart == Some(x)
      ensures active == old(active) && playing == old(playing)
    {
      touchStart := Some(x);
    }

    /** The finger leaves at horizontal position `x`. Without a recorded
        start nothing happens; otherwise the gesture is recognised, the
        slide may change, the recorded start is forgotten, and the
        play state is left alone. */
    method OnTouchEnd(x: int)
      requires Valid()
      modifies this
      ensures Valid()
      ensures old(touchStart) == None ==>
        active == old(active) && playing == old(playing) && touchStart == None
      ensures old(touchStart).Some? ==>
        && active == AfterSwipe(old(active), n, Recognise(x - old(touchStart).value))
        && playing == old(playing)
        && touchStart == None
    {
      if touchStart == None {
        return;
      }
      var delta := x - touchStart.value;
      active := AfterSwipe(active, n, Recognise(delta));
      touchStart := None;
    }

    /** The right arrow: stops autoplay, then advances. */
    method ClickNextArrow()
      requires Valid()
      modifies this
      ensures Valid()
      ensures !playing && active == Next(old(active), n) && touchStart == old(touchStart)
    {
      playing := false;
      active := Next(active, n);
    }

    /** The left arrow: stops autoplay, then goes back. */
    method ClickBackArrow()
      requires Valid()
      modifies this
      ensures Valid()
      ensures !playing && active == Back(old(active), n) && touchStart == old(touchStart)
    {
      playing := false;
      active := Back(active, n);
    }

    /** The play/pause button flips `playing` and nothing else. */
    method TogglePlay()
      requires Valid()
      modifies this
      ensures Valid()
      ensures playing == !old(playing)
      ensures active == old(active) && touchStart == old(touchStart)
    {
      playing := !playing;
    }

    /** One firing of the autoplay interval. The interval exists only while
        `playing` holds, so a tick when paused changes nothing. */
    method AutoplayTick()
      requires Valid()
      modifies this
      ensures Valid()
      ensures active == (if old(playing) then Next(old(active), n) else old(active))
      ensures playing == old(playing) && touchStart == old(touchStart)
    {
      if playing {
        active := Next(active, n);
      }
    }
  }

  /** With the three default slides: a 55-pixel swipe to the left on the last
      slide wraps round to the first, and autoplay keeps its state. */
  method SwipeOnLastSlide()
  {
    var show := new Slideshow(3, true);
    show.ClickBackArrow();
    assert show.active == 2 && !show.playing;
    show.TogglePlay();
    show.OnTouchStart(100);
    show.OnTouchEnd(45);
    assert show.active == 0 && show.playing && show.touchStart == None;
    show.OnTouchEnd(0);
    assert show.active == 0;
  }
}
