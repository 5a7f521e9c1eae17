/** The section-stepping scroll controller of the portfolio page.

    The page is a column of full-viewport sections (`section[id]` elements in
    document order). On wide viewports the controller turns wheel, keyboard and
    touch gestures into discrete "go to section i" requests; a request is
    accepted only when i is a valid section index and no programmatic scroll is
    in flight (the lock), and the gesture adapters add a 300 ms throttle.

    The browser is abstracted away: `Date.now()` becomes a `now` parameter, the
    300 ms `setTimeout` callback becomes the `Timer` event / `ReleaseLock`
    method, `scrollIntoView` becomes an entry appended to the `scrolls` log,
    and bounding rectangles are integer `Rect`s.

    `Snap` is the controller's state as a value and the `...Step` functions are
    its transitions; the class `ScrollSnapProvider` holds the same state in
    fields and each of its methods is proved to perform the matching step. */
module ScrollSnap {
  import opened Wrappers
  import opened Geometry

  /** Minimum time in ms between two accepted gestures, and the lock's release delay. */
  const Cooldown := 300
  /** A wheel event with |deltaY| below this is treated as noise. */
  const WheelNoise := 30
  /** A touch gesture must move strictly more than this many pixels to count as a swipe. */
  const SwipeThreshold := 50
  /** Viewports narrower than this are "mobile": the controller lets native scrolling through. */
  const MobileBreakpoint := 1024

  function Abs(x: int): nat { if x < 0 then -x else x }

  /** The rectangle contains the viewport's horizontal midline (rect.top <= h/2 <= rect.bottom,
      compared exactly by doubling both sides). */
  predicate StraddlesMiddle(r: Rect, windowHeight: int) {
    2 * r.top <= windowHeight && 2 * r.bottom >= windowHeight
  }

  /** Index of the first section whose rectangle straddles the viewport's midline. */
  function FirstStraddling(rects: seq<Rect>, windowHeight: int): (r: Option<nat>)
    ensures r.Some? ==> r.value < |rects| && StraddlesMiddle(rects[r.value], windowHeight)
    ensures r.Some? ==> forall j :: 0 <= j < r.value ==> !StraddlesMiddle(rects[j], windowHeight)
    ensures r.None? ==> forall j :: 0 <= j < |rects| ==> !StraddlesMiddle(rects[j], windowHeight)
  {
    if |rects| == 0 then None
    else if StraddlesMiddle(rects[0], windowHeight) then Some(0)
    else
      match FirstStraddling(rects[1..], windowHeight)
      case None => None
      case Some(k) => Some(k + 1)
  }

  /** The controller's state. */
  datatype Snap = Snap(
    count: nat,           // number of sections found on the page
    current: int,         // index of the section considered active
    locked: bool,         // a programmatic scroll is in flight
    lastScrollTime: int,  // time of the last accepted wheel or swipe gesture
    isMobile: bool,       // viewport narrower than MobileBreakpoint
    touchStartY: int,     // vertical position where the current touch began
    scrolls: seq<nat>)    // the sections scrolled into view, in order

  /** The active index is a valid section index (or 0 when there are no sections). */
  predicate InRange(s: Snap) {
    0 <= s.current && (s.count > 0 ==> s.current < s.count)
  }

  /** `scrollToSection(index)`: the single transition of the controller. */
  function ScrollToSpec(s: Snap, index: int): Snap {
    if index < 0 || index >= s.count then s
    else if s.locked then s
    else s.(locked := true, current := index, scrolls := s.scrolls + [index])
  }

  /** `findCurrentSection`: the first section straddling the midline becomes
      active; if there is none the active index is kept. */
  function FindCurrentSpec(s: Snap, rects: seq<Rect>, windowHeight: int): Snap {
    match FirstStraddling(rects, windowHeight)
    case None => s
    case Some(i) => s.(current := i)
  }

  /** The state once the page has mounted: sections queried, mobile flag set,
      active section found. */
  function Initial(rects: seq<Rect>, windowHeight: int, innerWidth: int): Snap {
    FindCurrentSpec(Snap(|rects|, 0, false, 0, innerWidth < MobileBreakpoint, 0, []), rects, windowHeight)
  }

  /** `handleWheel`. */
  function WheelStep(s: Snap, now: int, deltaY: int): Snap {
    if s.isMobile then s
    else if now - s.lastScrollTime < Cooldown then s
    else if Abs(deltaY) < WheelNoise then s
    else ScrollToSpec(s.(lastScrollTime := now), if deltaY > 0 then s.current + 1 else s.current - 1)
  }

  /** Whether `handleWheel` calls `preventDefault` on the event. */
  function WheelPrevented(s: Snap, now: int, deltaY: int): bool {
    if s.isMobile then false
    else if now - s.lastScrollTime < Cooldown then true
    else Abs(deltaY) >= WheelNoise
  }

  /** The index `handleKeyDown` asks for, or None for a key it ignores. */
  function KeyTarget(key: string, current: int, count: nat): Option<int> {
    if key == "ArrowDown" || key == "PageDown" then Some(current + 1)
    else if key == "ArrowUp" || key == "PageUp" then Some(current - 1)
    else if key == "Home" then Some(0)
    else if key == "End" then Some(count - 1)
    else None
  }

  /** `handleKeyDown`. */
  function KeyStep(s: Snap, key: string): Snap {
    if s.isMobile then s
    else match KeyTarget(key, s.current, s.count)
      case None => s
      case Some(i) => ScrollToSpec(s, i)
  }

  /** Whether `handleKeyDown` calls `preventDefault` on the event. */
  function KeyPrevented(s: Snap, key: string): bool {
    !s.isMobile && KeyTarget(key, s.current, s.count).Some?
  }

  /** `handleTouchEnd`: a swipe up (start below end) moves forward. */
  function TouchEndStep(s: Snap, now: int, endY: int): Snap {
    if s.isMobile then s
    else if now - s.lastScrollTime < Cooldown then s
    else
      var diff := s.touchStartY - endY;
      if Abs(diff) > SwipeThreshold then
        ScrollToSpec(s.(lastScrollTime := now), if diff > 0 then s.current + 1 else s.current - 1)
      else s
  }

  /** The `resize` listener (`checkMobile`). When the mobile flag changes the
      component re-renders and its effect runs again: the sections are queried
      anew, `findCurrentSection` runs, and the touch start position is reset. */
  function ResizeStep(s: Snap, innerWidth: int, rects: seq<Rect>, windowHeight: int): Snap {
    var mobile := innerWidth < MobileBreakpoint;
    if mobile == s.isMobile then s
    else FindCurrentSpec(s.(isMobile := mobile, count := |rects|, touchStartY := 0), rects, windowHeight)
  }

  /** The inputs the controller reacts to. `Timer` is the 300 ms timeout set by an
      accepted scroll; `Resize` carries the rectangles the sections would have
      if the effect ran again. */
  datatype Event =
    | Wheel(now: int, deltaY: int)
    | KeyDown(key: string)
    | TouchStart(y: int)
    | TouchEnd(now: int, y: int)
    | Timer
    | Resize(innerWidth: int, rects: seq<Rect>, windowHeight: int)

  function Handle(s: Snap, e: Event): Snap {
    match e
    case Wheel(now, deltaY) => WheelStep(s, now, deltaY)
    case KeyDown(key) => KeyStep(s, key)
    case TouchStart(y) => s.(touchStartY := y)
    case TouchEnd(now, y) => TouchEndStep(s, now, y)
    case Timer => s.(locked := false)
    case Resize(w, rects, h) => ResizeStep(s, w, rects, h)
  }

  function Run(s: Snap, es: seq<Event>): Snap
    decreases |es|
  {
    if es == [] then s else Run(Handle(s, es[0]), es[1..])
  }

  /** The event does not change the number of sections: the page's sections are
      static, so re-querying them on a resize finds as many as before. */
  predicate KeepsSections(count: nat, e: Event) {
    e.Resize? ==> |e.rects| == count
  }

  // ---------------------------------------------------------------------------
  // scrollToSection

  /** An out-of-range index or a held lock changes nothing; an accepted request
      sets the lock, makes `index` active and scrolls section `index` into view,
      and nothing else changes. */
  lemma ScrollToSectionRules(s: Snap, index: int)
    ensures index < 0 || index >= s.count ==> ScrollToSpec(s, index) == s
    ensures s.locked ==> ScrollToSpec(s, index) == s
    ensures 0 <= index < s.count && !s.locked ==>
      ScrollToSpec(s, index) == s.(locked := true, current := index, scrolls := s.scrolls + [index])
  {
  }

  /** Every accepted request targets a valid index, so the active index stays in range. */
  lemma ScrollToKeepsInRange(s: Snap, index: int)
    requires InRange(s)
    ensures InRange(ScrollToSpec(s, index))
    ensures ScrollToSpec(s, index).count == s.count
  {
  }

  // ---------------------------------------------------------------------------
  // findCurrentSection and mounting

  /** `findCurrentSection` makes the first section that straddles the midline
      current when there is one; otherwise it leaves the active index alone. */
  lemma FindCurrentRules(s: Snap, rects: seq<Rect>, windowHeight: int)
    requires |rects| == s.count
    ensures var t := FindCurrentSpec(s, rects, windowHeight);
      && t.(current := s.current) == s
      && (t.current != s.current ==> 0 <= t.current < s.count && StraddlesMiddle(rects[t.current], windowHeight))
      && (forall j :: 0 <= j < |rects| && StraddlesMiddle(rects[j], windowHeight) ==> 0 <= t.current <= j)
      && ((exists j :: 0 <= j < |rects| && StraddlesMiddle(rects[j], windowHeight)) ==>
            0 <= t.current < |rects| && StraddlesMiddle(rects[t.current], windowHeight))
      && ((forall j :: 0 <= j < |rects| ==> !StraddlesMiddle(rects[j], windowHeight)) ==> t == s)
      && (InRange(s) ==> InRange(t))
  {
  }

  /** The mounted controller is idle, has never scrolled, and its active index is in range. */
  lemma InitialRules(rects: seq<Rect>, windowHeight: int, innerWidth: int)
    ensures var s := Initial(rects, windowHeight, innerWidth);
      && InRange(s) && !s.locked && s.scrolls == [] && s.count == |rects|
      && s.isMobile == (innerWidth < MobileBreakpoint)
  {
  }

  // ---------------------------------------------------------------------------
  // Wheel

  /** A wheel event inside the 300 ms window is swallowed (default prevented) and
      changes nothing, not even the timestamp; outside it, an event below the
      noise threshold is neither prevented nor recorded. */
  lemma WheelFilters(s: Snap, now: int, deltaY: int)
    requires !s.isMobile
    ensures now - s.lastScrollTime < Cooldown ==>
      WheelStep(s, now, deltaY) == s && WheelPrevented(s, now, deltaY)
    ensures now - s.lastScrollTime >= Cooldown && Abs(deltaY) < WheelNoise ==>
      WheelStep(s, now, deltaY) == s && !WheelPrevented(s, now, deltaY)
  {
  }

  /** An accepted wheel event is prevented and records `now` even when the step it
      asks for is then refused by the bounds or the lock; it asks for the next
      section when deltaY > 0 and the previous one otherwise. */
  lemma WheelAccepted(s: Snap, now: int, deltaY: int)
    requires !s.isMobile && now - s.lastScrollTime >= Cooldown && Abs(deltaY) >= WheelNoise
    ensures WheelPrevented(s, now, deltaY)
    ensures WheelStep(s, now, deltaY).lastScrollTime == now
    ensures deltaY > 0 ==> WheelStep(s, now, deltaY) == ScrollToSpec(s.(lastScrollTime := now), s.current + 1)
    ensures deltaY <= 0 ==> WheelStep(s, now, deltaY) == ScrollToSpec(s.(lastScrollTime := now), s.current - 1)
  {
  }

  /** Two wheel events 50 ms apart: the second is dropped by the throttle. */
  lemma WheelBurst(s: Snap, t: int, d1: int, d2: int)
    requires !s.isMobile && t - s.lastScrollTime >= Cooldown && Abs(d1) >= WheelNoise
    ensures Run(s, [Wheel(t, d1), Wheel(t + 50, d2)]) == Handle(s, Wheel(t, d1))
  {
    var s1 := Handle(s, Wheel(t, d1));
    assert s1.lastScrollTime == t;
    assert Run(s1, [Wheel(t + 50, d2)]) == Run(Handle(s1, Wheel(t + 50, d2)), []);
  }

  // ---------------------------------------------------------------------------
  // Keyboard

  /** Arrow and page keys ask for the neighbouring section, Home for the first and
      End for the last; every one of them goes through `scrollToSection`, so the
      lock applies. Keys are not throttled and never touch the timestamp; any
      other key does nothing and is not prevented. */
  lemma KeyRules(s: Snap, key: string)
    requires !s.isMobile
    ensures key == "ArrowDown" || key == "PageDown" ==> KeyStep(s, key) == ScrollToSpec(s, s.current + 1)
    ensures key == "ArrowUp" || key == "PageUp" ==> KeyStep(s, key) == ScrollToSpec(s, s.current - 1)
    ensures key == "Home" ==> KeyStep(s, key) == ScrollToSpec(s, 0)
    ensures key == "End" ==> KeyStep(s, key) == ScrollToSpec(s, s.count - 1)
    ensures KeyPrevented(s, key) <==> key in {"ArrowDown", "PageDown", "ArrowUp", "PageUp", "Home", "End"}
    ensures !KeyPrevented(s, key) ==> KeyStep(s, key) == s
    ensures KeyStep(s, key).lastScrollTime == s.lastScrollTime
  {
  }

  /** Home and End reach the first / last section in a single accepted step, from
      any position, without visiting the sections in between. */
  lemma HomeEndJump(s: Snap)
    requires !s.isMobile && !s.locked && s.count > 0
    ensures KeyStep(s, "Home").current == 0 && KeyStep(s, "Home").scrolls == s.scrolls + [0]
    ensures KeyStep(s, "End").current == s.count - 1 && KeyStep(s, "End").scrolls == s.scrolls + [s.count - 1]
  {
  }

  /** With no sections every key is a no-op; in particular End asks for index -1. */
  lemma NoSectionsKeysNoOp(s: Snap, key: string)
    requires s.count == 0
    ensures KeyStep(s, key) == s
  {
  }

  // ---------------------------------------------------------------------------
  // Touch

  /** A touch end steps only outside the 300 ms window and for a displacement of
      more than 50 px; a swipe up (positive start - end) moves forward. */
  lemma TouchEndRules(s: Snap, now: int, endY: int)
    requires !s.isMobile
    ensures now - s.lastScrollTime < Cooldown ==> TouchEndStep(s, now, endY) == s
    ensures Abs(s.touchStartY - endY) <= SwipeThreshold ==> TouchEndStep(s, now, endY) == s
    ensures now - s.lastScrollTime >= Cooldown && s.touchStartY - endY > SwipeThreshold ==>
      TouchEndStep(s, now, endY) == ScrollToSpec(s.(lastScrollTime := now), s.current + 1)
    ensures now - s.lastScrollTime >= Cooldown && endY - s.touchStartY > SwipeThreshold ==>
      TouchEndStep(s, now, endY) == ScrollToSpec(s.(lastScrollTime := now), s.current - 1)
  {
  }

  /** In mobile mode the wheel, key and touch-end handlers return without effect. */
  lemma MobileDisables(s: Snap, e: Event)
    requires s.isMobile && (e.Wheel? || e.KeyDown? || e.TouchEnd?)
    ensures Handle(s, e) == s
    ensures e.Wheel? ==> !WheelPrevented(s, e.now, e.deltaY)
    ensures e.KeyDown? ==> !KeyPrevented(s, e.key)
  {
  }

  // ---------------------------------------------------------------------------
  // Invariants over every event and every run

  /** Every handler keeps the active index in range. */
  lemma HandleKeepsInRange(s: Snap, e: Event)
    requires InRange(s) && KeepsSections(s.count, e)
    ensures InRange(Handle(s, e)) && Handle(s, e).count == s.count
  {
    match e
    case Wheel(now, deltaY) =>
      if !s.isMobile && now - s.lastScrollTime >= Cooldown && Abs(deltaY) >= WheelNoise {
        ScrollToKeepsInRange(s.(lastScrollTime := now), if deltaY > 0 then s.current + 1 else s.current - 1);
      }
    case KeyDown(key) =>
    case TouchStart(y) =>
    case TouchEnd(now, y) =>
    case Timer =>
    case Resize(w, rects, h) =>
      if (w < MobileBreakpoint) != s.isMobile {
        FindCurrentRules(s.(isMobile := w < MobileBreakpoint, touchStartY := 0), rects, h);
      }
  }

  /** The active index stays in range over any sequence of events. */
  lemma {:induction false} RunKeepsInRange(s: Snap, es: seq<Event>)
    requires InRange(s)
    requires forall i :: 0 <= i < |es| ==> KeepsSections(s.count, es[i])
    ensures InRange(Run(s, es)) && Run(s, es).count == s.count
    decreases |es|
  {
    if es != [] {
      HandleKeepsInRange(s, es[0]);
      var t := Handle(s, es[0]);
      assert forall i :: 0 <= i < |es[1..]| ==> KeepsSections(t.count, es[1..][i]) by {
        forall i | 0 <= i < |es[1..]| ensures KeepsSections(t.count, es[1..][i]) {
          assert es[1..][i] == es[i + 1];
        }
      }
      RunKeepsInRange(t, es[1..]);
    }
  }

  /** Nothing but the timer releases the lock. */
  lemma OnlyTimerReleasesLock(s: Snap, e: Event)
    requires s.locked && !e.Timer?
    ensures Handle(s, e).locked
  {
  }

  /** While the lock is held, no event other than the timer (or a re-run of the
      effect on resize, which re-reads the position) changes the active index or
      scrolls anything, however many gestures arrive. */
  lemma {:induction false} LockedRunFreezesIndex(s: Snap, es: seq<Event>)
    requires s.locked
    requires forall i :: 0 <= i < |es| ==> !es[i].Timer? && !es[i].Resize?
    ensures Run(s, es).locked
    ensures Run(s, es).current == s.current && Run(s, es).scrolls == s.scrolls
    decreases |es|
  {
    if es != [] {
      var t := Handle(s, es[0]);
      assert t.locked && t.current == s.current && t.scrolls == s.scrolls;
      assert forall i :: 0 <= i < |es[1..]| ==> !es[1..][i].Timer? && !es[1..][i].Resize? by {
        forall i | 0 <= i < |es[1..]| ensures !es[1..][i].Timer? && !es[1..][i].Resize? {
          assert es[1..][i] == es[i + 1];
        }
      }
      LockedRunFreezesIndex(t, es[1..]);
    }
  }

  /** k presses of ArrowDown, each followed by the lock's timer. */
  function ArrowDownPresses(k: nat): (es: seq<Event>)
    ensures |es| == 2 * k
  {
    if k == 0 then [] else [KeyDown("ArrowDown"), Timer] + ArrowDownPresses(k - 1)
  }

  /** Forward requests issued while idle move the active index up by one each,
      and never past the last section. */
  lemma {:induction false} ForwardPresses(s: Snap, k: nat)
    requires InRange(s) && !s.locked && !s.isMobile && s.count > 0
    ensures var t := Run(s, ArrowDownPresses(k));
      t.current == if s.current + k < s.count then s.current + k else s.count - 1
    ensures !Run(s, ArrowDownPresses(k)).locked
    decreases k
  {
    if k > 0 {
      var es := ArrowDownPresses(k);
      var rest := ArrowDownPresses(k - 1);
      assert es[0] == KeyDown("ArrowDown");
      assert es[1..] == [Timer] + rest;
      assert es[1..][1..] == rest;
      var s1 := Handle(s, KeyDown("ArrowDown"));
      var s2 := Handle(s1, Timer);
      assert Run(s, es) == Run(s1, [Timer] + rest);
      assert Run(s1, [Timer] + rest) == Run(s2, rest);
      assert s2.current == if s.current + 1 < s.count then s.current + 1 else s.count - 1;
      ForwardPresses(s2, k - 1);
    }
  }

  /** Five sections, the third active: a forward gesture activates and aligns the
      fourth; with the first active a backward gesture changes nothing but the
      gesture timestamp. */
  lemma FiveSectionsScenario(s: Snap, now: int)
    requires s.count == 5 && !s.locked && !s.isMobile && now - s.lastScrollTime >= Cooldown
    ensures s.current == 2 ==>
      Handle(s, KeyDown("ArrowDown")).current == 3 && Handle(s, KeyDown("ArrowDown")).scrolls == s.scrolls + [3]
    ensures s.current == 2 ==>
      Handle(s, Wheel(now, 100)).current == 3 && Handle(s, Wheel(now, 100)).scrolls == s.scrolls + [3]
    ensures s.current == 0 ==> Handle(s, Wheel(now, -100)) == s.(lastScrollTime := now)
  {
  }

  // ---------------------------------------------------------------------------
  // The controller object

  /** The provider's refs and state, updated in place by its handlers. */
  class ScrollSnapProvider {
    var count: nat
    var current: int
    var locked: bool
    var lastScrollTime: int
    var isMobile: bool
    var touchStartY: int
    ghost var scrolls: seq<nat>

    ghost function State(): Snap
      reads this
    {
      Snap(count, current, locked, lastScrollTime, isMobile, touchStartY, scrolls)
    }

    /** Mounting: query the sections, set the mobile flag, find the active section. */
    constructor (rects: seq<Rect>, windowHeight: int, innerWidth: int)
      ensures State() == Initial(rects, windowHeight, innerWidth)
      ensures InRange(State()) && !locked && scrolls == []
    {
      count := |rects|;
      current := 0;
      locked := false;
      lastScrollTime := 0;
      isMobile := innerWidth < MobileBreakpoint;
      touchStartY := 0;
      scrolls := [];
      new;
      FindCurrentSection(rects, windowHeight);
      InitialRules(rects, windowHeight, innerWidth);
    }

    method ScrollToSection(index: int)
      modifies this
      ensures State() == ScrollToSpec(old(State()), index)
      ensures InRange(old(State())) ==> InRange(State())
      ensures old(locked) ==> locked && current == old(current) && scrolls == old(scrolls)
    {
      if index < 0 || index >= count {
        return;
      }
      if locked {
        return;
      }
      locked := true;
      current := index;
      scrolls := scrolls + [index];
    }

    /** The 300 ms timeout set by an accepted scroll. */
    method ReleaseLock()
      modifies this
      ensures State() == old(State()).(locked := false)
    {
      locked := false;
    }

    /** `findCurrentSection`; `rects[i]` is the bounding rectangle of section i. */
    method FindCurrentSection(rects: seq<Rect>, windowHeight: int)
      requires |rects| == count
      modifies this
      ensures State() == FindCurrentSpec(old(State()), rects, windowHeight)
    {
      var i := 0;
      while i < count
        invariant 0 <= i <= count
        invariant forall j :: 0 <= j < i ==> !StraddlesMiddle(rects[j], windowHeight)
        invariant State() == old(State())
      {
        if StraddlesMiddle(rects[i], windowHeight) {
          current := i;
          break;
        }
        i := i + 1;
      }
    }

    method CheckMobile(innerWidth: int, rects: seq<Rect>, windowHeight: int)
      modifies this
      ensures State() == ResizeStep(old(State()), innerWidth, rects, windowHeight)
    {
      var mobile := innerWidth < MobileBreakpoint;
      if mobile != isMobile {
        isMobile := mobile;
        count := |rects|;
        touchStartY := 0;
        FindCurrentSection(rects, windowHeight);
      }
    }

    method HandleWheel(now: int, deltaY: int) returns (prevented: bool)
      modifies this
      ensures State() == WheelStep(old(State()), now, deltaY)
      ensures InRange(old(State())) ==> InRange(State())
      ensures old(locked) ==> locked && current == old(current) && scrolls == old(scrolls)
      ensures prevented == WheelPrevented(old(State()), now, deltaY)
    {
      if isMobile {
        return false;
      }
      if now - lastScrollTime < Cooldown {
        return true;
      }
      if Abs(deltaY) < WheelNoise {
        return false;
      }
      prevented := true;
      lastScrollTime := now;
      if deltaY > 0 {
        ScrollToSection(current + 1);
      } else {
        ScrollToSection(current - 1);
      }
    }

    method HandleKeyDown(key: string) returns (prevented: bool)
      modifies this
      ensures State() == KeyStep(old(State()), key)
      ensures InRange(old(State())) ==> InRange(State())
      ensures old(locked) ==> locked && current == old(current) && scrolls == old(scrolls)
      ensures prevented == KeyPrevented(old(State()), key)
    {
      if isMobile {
        return false;
      }
      prevented := true;
      if key == "ArrowDown" || key == "PageDown" {
        ScrollToSection(current + 1);
      } else if key == "ArrowUp" || key == "PageUp" {
        ScrollToSection(current - 1);
      } else if key == "Home" {
        ScrollToSection(0);
      } else if key == "End" {
        ScrollToSection(count - 1);
      } else {
        prevented := false;
      }
    }

    method HandleTouchStart(y: int)
      modifies this
      ensures State() == old(State()).(touchStartY := y)
    {
      touchStartY := y;
    }

    method HandleTouchEnd(now: int, endY: int)
      modifies this
      ensures State() == TouchEndStep(old(State()), now, endY)
      ensures InRange(old(State())) ==> InRange(State())
      ensures old(locked) ==> locked && current == old(current) && scrolls == old(scrolls)
    {
      if isMobile {
        return;
      }
      if now - lastScrollTime < Cooldown {
        return;
      }
      var diff := touchStartY - endY;
      if Abs(diff) > SwipeThreshold {
        lastScrollTime := now;
        if diff > 0 {
          ScrollToSection(current + 1);
        } else {
          ScrollToSection(current - 1);
        }
      }
    }
  }
}
