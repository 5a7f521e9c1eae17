/** The project carousel of the "Featured Projects" section: a horizontally
    scrolling strip of project cards with previous/next buttons, dot buttons,
    mouse dragging, and a condensed tag list on narrow viewports.

    Widths are exact `real`s (the card width is a fraction of the viewport
    width); `window.innerWidth` is an integer. The DOM's `scrollTo` becomes an
    entry appended to the `scrollRequests` log, and the carousel element's live
    `scrollLeft` is a parameter of the handlers that read it. */
module Projects {
  import opened Wrappers

  /** Viewports narrower than this are "mobile" for the carousel. */
  const MobileBreakpoint := 768
  /** Viewports at least this wide use the desktop card width. */
  const DesktopBreakpoint := 1024
  /** Horizontal padding subtracted from the viewport width on mobile. */
  const MobilePadding := 48
  /** At most this many tags are shown per card on mobile. */
  const MobileTagLimit := 3

  /** `Math.max(0, Math.min(index, count - 1))`. */
  function Clamp(index: int, count: nat): (r: int)
    ensures 0 <= r
    ensures count > 0 ==> r < count
    ensures 0 <= index < count ==> r == index
    ensures index < 0 || count == 0 ==> r == 0
    ensures count > 0 && index >= count ==> r == count - 1
  {
    var upper := if index < count - 1 then index else count - 1;
    if upper < 0 then 0 else upper
  }

  /** The gap between cards: 16 px on mobile, 32 px otherwise. */
  function Gap(isMobile: bool): int {
    if isMobile then 16 else 32
  }

  /** The card width chosen by `handleResize` for a viewport `vw` pixels wide. */
  function CardWidth(vw: int): (w: real)
    ensures vw < MobileBreakpoint ==> w == (vw - MobilePadding) as real
    ensures MobileBreakpoint <= vw < DesktopBreakpoint ==> w == vw as real * 0.7
    ensures DesktopBreakpoint <= vw ==> w == vw as real * 0.6
    ensures MobileBreakpoint <= vw ==> 6.0 * vw as real <= 10.0 * w <= 7.0 * vw as real
    ensures 0 < vw ==> w < vw as real
    ensures MobilePadding < vw ==> 0.0 < w
  {
    if vw >= DesktopBreakpoint then vw as real * 0.6
    else if vw >= MobileBreakpoint then vw as real * 0.7
    else (vw - MobilePadding) as real
  }

  /** The horizontal scroll offset at which card `index` is in place. */
  function SlideOffset(index: int, cardWidth: real, isMobile: bool): real {
    index as real * (cardWidth + Gap(isMobile) as real)
  }

  /** JavaScript's `Math.round`: halves round up. */
  function Round(x: real): (r: int)
    ensures r as real - 0.5 <= x < r as real + 0.5
  {
    (x + 0.5).Floor
  }

  /** The index of the card nearest to scroll offset `scrollLeft`. */
  function NearestSlide(scrollLeft: real, cardWidth: real, isMobile: bool): int
    requires cardWidth + Gap(isMobile) as real != 0.0
  {
    Round(scrollLeft / (cardWidth + Gap(isMobile) as real))
  }

  /** The offset of card i maps back to card i: scrolling to a card and reading
      the position back gives the same index. */
  lemma NearestSlideOfOffset(index: int, cardWidth: real, isMobile: bool)
    requires cardWidth + Gap(isMobile) as real > 0.0
    ensures NearestSlide(SlideOffset(index, cardWidth, isMobile), cardWidth, isMobile) == index
  {
    var step := cardWidth + Gap(isMobile) as real;
    assert SlideOffset(index, cardWidth, isMobile) / step == index as real;
  }

  /** Offsets grow with the card index, so distinct cards have distinct offsets. */
  lemma SlideOffsetIncreasing(i: int, j: int, cardWidth: real, isMobile: bool)
    requires cardWidth + Gap(isMobile) as real > 0.0 && i < j
    ensures SlideOffset(i, cardWidth, isMobile) < SlideOffset(j, cardWidth, isMobile)
  {
    var step := cardWidth + Gap(isMobile) as real;
    assert SlideOffset(j, cardWidth, isMobile) - SlideOffset(i, cardWidth, isMobile) == (j - i) as real * step;
  }

  /** The previous button is disabled on the first card. */
  predicate PrevDisabled(currentIndex: int) {
    currentIndex == 0
  }

  /** The next button is disabled on the last card. */
  predicate NextDisabled(currentIndex: int, count: nat) {
    currentIndex == count - 1
  }

  /** Stepping past either end clamps back to the same card, so a disabled
      button's action would change nothing; an enabled one moves by exactly one. */
  lemma StepAtEnds(currentIndex: int, count: nat)
    requires 0 <= currentIndex < count
    ensures PrevDisabled(currentIndex) ==> Clamp(currentIndex - 1, count) == currentIndex
    ensures NextDisabled(currentIndex, count) ==> Clamp(currentIndex + 1, count) == currentIndex
    ensures !PrevDisabled(currentIndex) ==> Clamp(currentIndex - 1, count) == currentIndex - 1
    ensures !NextDisabled(currentIndex, count) ==> Clamp(currentIndex + 1, count) == currentIndex + 1
  {
  }

  /** The tags rendered on a card: `shown` as pills, then an optional "+k" badge. */
  datatype TagStrip = TagStrip(shown: seq<string>, badge: Option<nat>)

  function BadgeCount(b: Option<nat>): nat {
    match b
    case None => 0
    case Some(k) => k
  }

  /** The tag list of a card. On mobile at most three tags are shown, followed by
      a "+k" badge for the k hidden ones; otherwise every tag is shown. */
  function Tags(tags: seq<string>, isMobile: bool): (r: TagStrip)
    ensures r.shown <= tags
    ensures |r.shown| + BadgeCount(r.badge) == |tags|
    ensures isMobile ==> |r.shown| == if |tags| < MobileTagLimit then |tags| else MobileTagLimit
    ensures !isMobile ==> r.shown == tags
    ensures r.badge.Some? <==> isMobile && |tags| > MobileTagLimit
    ensures r.badge.Some? ==> r.badge.value > 0
  {
    var limit := if isMobile then MobileTagLimit else |tags|;
    var shown := if limit < |tags| then tags[..limit] else tags;
    TagStrip(shown, if isMobile && |tags| > MobileTagLimit then Some(|tags| - MobileTagLimit) else None)
  }

  /** The carousel's React state, updated in place by its handlers. */
  class ProjectsSection {
    /** Number of project cards (the source lists three). */
    const count: nat
    /** The carousel element is mounted (`carouselRef.current` is set). */
    const hasCarousel: bool
    var currentIndex: int
    var isDragging: bool
    var startX: real
    var scrollLeft: real
    var isMobile: bool
    var cardWidth: real
    ghost var scrollRequests: seq<real>

    /** The current card is a valid card index (0 when there are no cards). */
    ghost predicate Valid()
      reads this
    {
      0 <= currentIndex && (count > 0 ==> currentIndex < count)
    }

    /** The initial state, before the first resize has measured the viewport. */
    constructor (count: nat, hasCarousel: bool)
      ensures this.count == count && this.hasCarousel == hasCarousel
      ensures currentIndex == 0 && !isDragging && !isMobile && cardWidth == 0.0
      ensures startX == 0.0 && scrollLeft == 0.0 && scrollRequests == []
      ensures Valid()
    {
      this.count := count;
      this.hasCarousel := hasCarousel;
      currentIndex := 0;
      isDragging := false;
      startX := 0.0;
      scrollLeft := 0.0;
      isMobile := false;
      cardWidth := 0.0;
      scrollRequests := [];
    }

    method HandleResize(vw: int)
      modifies this
      ensures isMobile == (vw < MobileBreakpoint) && cardWidth == CardWidth(vw)
      ensures currentIndex == old(currentIndex) && isDragging == old(isDragging)
      ensures startX == old(startX) && scrollLeft == old(scrollLeft)
      ensures scrollRequests == old(scrollRequests)
    {
      isMobile := vw < MobileBreakpoint;
      var newCardWidth := (vw - MobilePadding) as real;
      if vw >= DesktopBreakpoint {
        newCardWidth := vw as real * 0.6;
      } else if vw >= MobileBreakpoint {
        newCardWidth := vw as real * 0.7;
      }
      cardWidth := newCardWidth;
    }

    /** `scrollToIndex`: clamp the requested index into the card range, make it
        current, and scroll the strip to that card's offset. */
    method ScrollToIndex(index: int)
      modifies this
      ensures !hasCarousel || cardWidth == 0.0 ==>
        currentIndex == old(currentIndex) && scrollRequests == old(scrollRequests)
      ensures hasCarousel && cardWidth != 0.0 ==>
        && currentIndex == Clamp(index, count)
        && scrollRequests == old(scrollRequests) + [SlideOffset(currentIndex, cardWidth, isMobile)]
      ensures old(Valid()) ==> Valid()
      ensures isDragging == old(isDragging) && isMobile == old(isMobile) && cardWidth == old(cardWidth)
      ensures startX == old(startX) && scrollLeft == old(scrollLeft)
    {
      if !hasCarousel || cardWidth == 0.0 {
        return;
      }
      var newIndex := Clamp(index, count);
      currentIndex := newIndex;
      var gap := Gap(isMobile);
      var left := newIndex as real * (cardWidth + gap as real);
      assert left == SlideOffset(newIndex, cardWidth, isMobile);
      scrollRequests := scrollRequests + [left];
    }

    method NextSlide()
      modifies this
      ensures !hasCarousel || cardWidth == 0.0 ==>
        currentIndex == old(currentIndex) && scrollRequests == old(scrollRequests)
      ensures hasCarousel && cardWidth != 0.0 ==>
        && currentIndex == Clamp(old(currentIndex) + 1, count)
        && scrollRequests == old(scrollRequests) + [SlideOffset(currentIndex, cardWidth, isMobile)]
      ensures NextDisabled(old(currentIndex), count) && old(Valid()) ==> currentIndex == old(currentIndex)
      ensures old(Valid()) ==> Valid()
      ensures isDragging == old(isDragging) && isMobile == old(isMobile) && cardWidth == old(cardWidth)
      ensures startX == old(startX) && scrollLeft == old(scrollLeft)
    {
      ScrollToIndex(currentIndex + 1);
    }

    method PrevSlide()
      modifies this
      ensures !hasCarousel || cardWidth == 0.0 ==>
        currentIndex == old(currentIndex) && scrollRequests == old(scrollRequests)
      ensures hasCarousel && cardWidth != 0.0 ==>
        && currentIndex == Clamp(old(currentIndex) - 1, count)
        && scrollRequests == old(scrollRequests) + [SlideOffset(currentIndex, cardWidth, isMobile)]
      ensures PrevDisabled(old(currentIndex)) ==> currentIndex == old(currentIndex)
      ensures old(Valid()) ==> Valid()
      ensures isDragging == old(isDragging) && isMobile == old(isMobile) && cardWidth == old(cardWidth)
      ensures startX == old(startX) && scrollLeft == old(scrollLeft)
    {
      ScrollToIndex(currentIndex - 1);
    }

    /** A drag starts: remember the pointer position (relative to the strip) and
        the strip's scroll offset. */
    method HandleMouseDown(pointerX: real, domScrollLeft: real)
      modifies this
      ensures hasCarousel ==> isDragging && startX == pointerX && scrollLeft == domScrollLeft
      ensures !hasCarousel ==> isDragging == old(isDragging) && startX == old(startX) && scrollLeft == old(scrollLeft)
      ensures currentIndex == old(currentIndex) && cardWidth == old(cardWidth) && isMobile == old(isMobile)
      ensures scrollRequests == old(scrollRequests)
    {
      if !hasCarousel {
        return;
      }
      isDragging := true;
      startX := pointerX;
      scrollLeft := domScrollLeft;
    }

    /** While dragging, the offset written to the strip: the pointer's travel
        since the drag began, amplified 1.5 times, in the opposite direction. */
    method HandleMouseMove(pointerX: real) returns (written: Option<real>)
      ensures written.Some? <==> isDragging && hasCarousel
      ensures written.Some? ==> scrollLeft - written.value == 1.5 * (pointerX - startX)
    {
      if !isDragging || !hasCarousel {
        return None;
      }
      var walk := (pointerX - startX) * 1.5;
      written := Some(scrollLeft - walk);
    }

    /** The drag ends (mouse up or leaving the strip, whether or not a drag was
        in progress): snap to the card nearest the strip's offset. */
    method HandleMouseUp(domScrollLeft: real)
      requires cardWidth + Gap(isMobile) as real != 0.0
      modifies this
      ensures cardWidth == old(cardWidth) && isMobile == old(isMobile)
      ensures startX == old(startX) && scrollLeft == old(scrollLeft)
      ensures !hasCarousel || cardWidth == 0.0 ==>
        currentIndex == old(currentIndex) && isDragging == old(isDragging) && scrollRequests == old(scrollRequests)
      ensures hasCarousel && cardWidth != 0.0 ==>
        && !isDragging
        && currentIndex == Clamp(NearestSlide(domScrollLeft, cardWidth, isMobile), count)
        && scrollRequests == old(scrollRequests) + [SlideOffset(currentIndex, cardWidth, isMobile)]
      ensures old(Valid()) ==> Valid()
    {
      if !hasCarousel || cardWidth == 0.0 {
        return;
      }
      isDragging := false;
      var newIndex := NearestSlide(domScrollLeft, cardWidth, isMobile);
      ScrollToIndex(newIndex);
    }

    /** The strip scrolled: unless a drag is in progress, follow the nearest card. */
    method HandleScroll(domScrollLeft: real)
      requires cardWidth + Gap(isMobile) as real != 0.0
      modifies this`currentIndex
      ensures !hasCarousel || isDragging || cardWidth == 0.0 ==> currentIndex == old(currentIndex)
      ensures hasCarousel && !isDragging && cardWidth != 0.0 ==>
        var nearest := NearestSlide(domScrollLeft, cardWidth, isMobile);
        currentIndex == if nearest == old(currentIndex) then old(currentIndex) else Clamp(nearest, count)
      ensures old(Valid()) ==> Valid()
    {
      if !hasCarousel || isDragging || cardWidth == 0.0 {
        return;
      }
      var newIndex := NearestSlide(domScrollLeft, cardWidth, isMobile);
      if newIndex != currentIndex {
        currentIndex := Clamp(newIndex, count);
      }
    }
  }

  /** After the strip settles at the offset `scrollToIndex` requested, the scroll
      handler finds the same card and leaves the current index alone. */
  method SettledScrollKeepsIndex(c: ProjectsSection, index: int)
    requires c.hasCarousel && !c.isDragging && c.cardWidth + Gap(c.isMobile) as real > 0.0 && c.cardWidth != 0.0
    modifies c
    ensures c.currentIndex == Clamp(index, c.count)
  {
    c.ScrollToIndex(index);
    NearestSlideOfOffset(c.currentIndex, c.cardWidth, c.isMobile);
    c.HandleScroll(SlideOffset(c.currentIndex, c.cardWidth, c.isMobile));
  }
}
