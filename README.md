# Portfolio page navigation logic in Dafny

This project models the three stateful pieces of a single-page portfolio site
(a Next.js/React front end) and proves properties of them:

- **The section-stepping scroll controller** (`ScrollSnapProvider`). On wide
  viewports it turns wheel, keyboard and touch gestures into discrete
  "go to section i" requests. A request is accepted only when i is a valid
  section index and no programmatic scroll is in flight. The lock set by an
  accepted request is released by a 300 ms timer. Wheel and swipe gestures are
  further throttled to one per 300 ms, and small wheel deltas are ignored.
- **The project carousel** (`ProjectsSection`). It clamps the requested card
  index, scrolls the strip to that card's offset, and follows the strip's
  position when it scrolls. On mobile it shows at most three tags per card and
  a "+k" badge for the rest.
- **The navigation bar** (`Navigation`). It tracks the "scrolled" flag and the
  active section: the first tracked section, in a fixed order, whose element
  lies across the line 100 px below the top of the viewport. Its buttons scroll
  a section to 96 px below the top of the viewport.

Files: `common.dfy` (an `Option` type and the `Rect` of a bounding rectangle),
`scroll_snap.dfy` (module `ScrollSnap`), `projects.dfy` (module `Projects`),
`navigation.dfy` (module `Nav`).

How the browser is modelled:

- `Date.now()` and `window.innerWidth`/`innerHeight`/`scrollY` are parameters.
- A bounding rectangle is a `Rect(top, bottom)` of integers.
- `document.getElementById` is a map from element id to rectangle. An id that
  is not a key stands for a missing element.
- The 300 ms `setTimeout` callback is the `Timer` event and the `ReleaseLock`
  method.
- `scrollIntoView` and the carousel's `scrollTo` append to a ghost log
  (`scrolls`, `scrollRequests`), so "nothing was scrolled" is provable.

The controller is specified twice, on purpose. `Snap` is its state as a value,
and `ScrollToSpec`, `WheelStep`, `KeyStep`, `TouchEndStep`, `ResizeStep` and
`Handle` are its transitions; the lemmas are stated over these. The class
`ScrollSnapProvider` holds the same state in fields that its methods update in
place, and each method is proved to perform the matching transition.

Three behaviours of the code a reader might not expect, which the model keeps:

- Keyboard requests are not time-throttled and do not record a timestamp; only
  the lock applies to them.
- An accepted wheel or swipe records its timestamp before the step is tried, so
  it is recorded even when the bounds or the lock then refuse the step.
- The initial section is the first one whose rectangle contains the viewport's
  midline, not the one whose midpoint is closest to it. If none contains it,
  the index stays 0.

## Model

| member | source | states |
|---|---|---|
| ScrollSnap.FirstStraddling | components/scroll-snap-provider.tsx:45-53 | the result is the index of a section whose rectangle contains the viewport midline, and no earlier section's does; None only when no section's does |
| ScrollSnap.ScrollToSectionRules | components/scroll-snap-provider.tsx:14-29 | an out-of-range index or a held lock changes nothing (index, lock, scroll log); an accepted request sets the lock, makes exactly that index current, scrolls exactly that section, and changes nothing else |
| ScrollSnap.ScrollToKeepsInRange | components/scroll-snap-provider.tsx:15-19 | scrollToSection keeps the current index within [0, n-1] |
| ScrollSnap.FindCurrentRules | components/scroll-snap-provider.tsx:41-54 | findCurrentSection changes only the current index; when some section contains the midline, the first such section becomes current (it contains the midline and is at most any such section); the index is unchanged only when none does, or when it already is that section; the index stays in range |
| ScrollSnap.InitialRules | components/scroll-snap-provider.tsx:31-56 | after mounting, the controller is unlocked, has scrolled nothing, has one entry per queried section, is mobile iff the viewport is narrower than 1024 px, and its index is in range |
| ScrollSnap.WheelFilters | components/scroll-snap-provider.tsx:58-68 | a wheel event within 300 ms of the last accepted gesture is default-prevented and changes nothing, not even the timestamp; otherwise an event with abs(deltaY) < 30 is neither prevented nor recorded |
| ScrollSnap.WheelAccepted | components/scroll-snap-provider.tsx:70-77 | an accepted wheel event is prevented and sets lastScrollTime to now even if the step is then refused; it asks for current+1 when deltaY > 0 and current-1 otherwise |
| ScrollSnap.WheelBurst | components/scroll-snap-provider.tsx:61-66 | of two wheel events 50 ms apart, where the first passes the filters, the second is dropped |
| ScrollSnap.KeyRules | components/scroll-snap-provider.tsx:80-96 | ArrowDown/PageDown ask for current+1, ArrowUp/PageUp for current-1, Home for 0 and End for n-1, all through scrollToSection; exactly these six keys are prevented; other keys change nothing; no key touches lastScrollTime |
| ScrollSnap.HomeEndJump | components/scroll-snap-provider.tsx:89-95 | when idle, Home makes section 0 and End makes section n-1 current in one accepted step, scrolling only that section |
| ScrollSnap.NoSectionsKeysNoOp | components/scroll-snap-provider.tsx:92-94 | with zero sections every key is a no-op, including End, which asks for index -1 |
| ScrollSnap.TouchEndRules | components/scroll-snap-provider.tsx:104-121 | a touch end within 300 ms, or with a displacement of 50 px or less, changes nothing; a swipe up of more than 50 px records the time and asks for current+1; a swipe down asks for current-1 |
| ScrollSnap.MobileDisables | components/scroll-snap-provider.tsx:58-121 | in mobile mode the wheel, key and touch-end handlers change nothing and prevent nothing |
| ScrollSnap.HandleKeepsInRange | components/scroll-snap-provider.tsx:14-121 | every handler keeps the current index in [0, n-1], provided a resize finds the same number of sections |
| ScrollSnap.RunKeepsInRange | components/scroll-snap-provider.tsx:14-135 | over any sequence of events whose resizes find the same number of sections, the current index stays in range and the section count is unchanged (each step is `Handle`, folded by `Run`) |
| ScrollSnap.OnlyTimerReleasesLock | components/scroll-snap-provider.tsx:26-28 | no event but the timer clears a held lock |
| ScrollSnap.LockedRunFreezesIndex | components/scroll-snap-provider.tsx:16-28 | while the lock is held and the timer has not fired, any number of gestures leave the index unchanged, scroll nothing, and keep the lock |
| ScrollSnap.ForwardPresses | components/scroll-snap-provider.tsx:83-85 | k forward key presses, each while idle, move the index to min(current + k, n-1) |
| ScrollSnap.FiveSectionsScenario | components/scroll-snap-provider.tsx:70-88 | with 5 sections and index 2, a forward key or wheel gesture makes 3 current and scrolls section 3; with index 0 a backward wheel gesture changes only the timestamp |
| ScrollSnap.ScrollSnapProvider.constructor | components/scroll-snap-provider.tsx:31-56 | the mounted object is in the initial state: sections queried, mobile flag set, active section found |
| ScrollSnap.ScrollSnapProvider.ScrollToSection | components/scroll-snap-provider.tsx:14-29 | State() == ScrollToSpec(old(State()), index), the scrollToSection transition on the object's fields; keeps the index in range; while the lock is held it changes neither the index nor the scroll log |
| ScrollSnap.ScrollSnapProvider.ReleaseLock | components/scroll-snap-provider.tsx:26-28 | the timer callback clears the lock and changes nothing else |
| ScrollSnap.ScrollSnapProvider.FindCurrentSection | components/scroll-snap-provider.tsx:41-54 | State() == FindCurrentSpec(old(State()), …): the for loop with break sets the current index to the first section containing the midline (`FirstStraddling`), or leaves it unchanged |
| ScrollSnap.ScrollSnapProvider.CheckMobile | components/scroll-snap-provider.tsx:31-56 | State() == ResizeStep(old(State()), …): sets the mobile flag; when it changes, the effect runs again: sections are re-queried, the current section is found again, and the touch start is reset |
| ScrollSnap.ScrollSnapProvider.HandleWheel | components/scroll-snap-provider.tsx:58-78 | State() == WheelStep(old(State()), now, deltaY) and the result is WheelPrevented(old(State()), now, deltaY): the wheel transition and whether the event was default-prevented; keeps the index in range; while the lock is held the index and scroll log are unchanged |
| ScrollSnap.ScrollSnapProvider.HandleKeyDown | components/scroll-snap-provider.tsx:80-96 | State() == KeyStep(old(State()), key) and the result is KeyPrevented(old(State()), key): the key transition and whether the event was default-prevented; keeps the index in range; while the lock is held the index and scroll log are unchanged |
| ScrollSnap.ScrollSnapProvider.HandleTouchStart | components/scroll-snap-provider.tsx:100-102 | records the touch start position and changes nothing else |
| ScrollSnap.ScrollSnapProvider.HandleTouchEnd | components/scroll-snap-provider.tsx:104-121 | State() == TouchEndStep(old(State()), now, endY), the touch-end transition; keeps the index in range; while the lock is held the index and scroll log are unchanged |
| Projects.Clamp | components/projects-section.tsx:120 | the result is a valid card index when there are cards: the request itself when valid, 0 below the range, the last card above it |
| Projects.CardWidth | components/projects-section.tsx:101-111 | below 768 px the card is the viewport minus 48 px; from 768 px up to 1023 px it is exactly 70% of the viewport, and from 1024 px exactly 60%; the card is always narrower than a positive viewport, and positive when the viewport is wider than 48 px |
| Projects.Round | components/projects-section.tsx:151 | Math.round returns the integer within half a unit of its argument, halves rounding up |
| Projects.NearestSlideOfOffset | components/projects-section.tsx:122-125 | reading back the offset scrollToIndex scrolls to gives the same card index |
| Projects.SlideOffsetIncreasing | components/projects-section.tsx:122-125 | card offsets index * (cardWidth + gap) strictly increase with the index |
| Projects.StepAtEnds | components/projects-section.tsx:198-215 | at the first card prev (disabled) would clamp back to it, at the last card next (disabled) would too; an enabled button moves by exactly one |
| Projects.Tags | components/projects-section.tsx:307-320 | the shown tags are a prefix of the card's tags; on mobile exactly min(3, len) are shown, with a "+(len-3)" badge only when len > 3; otherwise all are shown; shown plus badge count equals the number of tags |
| Projects.ProjectsSection.constructor | components/projects-section.tsx:77-82 | the initial state: index 0, not dragging, not mobile, card width 0 |
| Projects.ProjectsSection.HandleResize | components/projects-section.tsx:101-111 | sets isMobile iff the viewport is narrower than 768 px, sets the card width from the breakpoint branch, and changes nothing else |
| Projects.ProjectsSection.ScrollToIndex | components/projects-section.tsx:118-127 | without a carousel or with card width 0, changes nothing; otherwise the index becomes max(0, min(i, len-1)) and the strip scrolls to index * (cardWidth + gap), gap 16 on mobile and 32 otherwise; the index stays valid |
| Projects.ProjectsSection.NextSlide | components/projects-section.tsx:129 | without a carousel or with card width 0, changes neither the index nor the scroll log; otherwise the index becomes the clamped next card and the strip scrolls to that card's offset (`SlideOffset`); at the last card the index is unchanged; the drag fields are untouched |
| Projects.ProjectsSection.PrevSlide | components/projects-section.tsx:130 | without a carousel or with card width 0, changes neither the index nor the scroll log; otherwise the index becomes the clamped previous card and the strip scrolls to that card's offset (`SlideOffset`); at card 0 the index is unchanged; the drag fields are untouched |
| Projects.ProjectsSection.HandleMouseDown | components/projects-section.tsx:132-137 | with a carousel, starts a drag and records the pointer position and the strip's offset |
| Projects.ProjectsSection.HandleMouseMove | components/projects-section.tsx:139-145 | while dragging, the written offset moves against the pointer by 1.5 times its travel; otherwise nothing is written |
| Projects.ProjectsSection.HandleMouseUp | components/projects-section.tsx:147-153 | never changes the recorded drag start (`startX`, `scrollLeft`), the card width or the mobile flag; without a carousel or with card width 0, changes nothing else either; otherwise ends the drag and snaps to the clamped nearest card (`NearestSlide`, Math.round of offset / (cardWidth + gap)), scrolling to its `SlideOffset` |
| Projects.ProjectsSection.HandleScroll | components/projects-section.tsx:155-162 | while dragging, without a carousel or with card width 0, changes nothing; otherwise updates the index to the clamped nearest card (`NearestSlide`) only when the nearest card differs from the current one |
| Projects.SettledScrollKeepsIndex | components/projects-section.tsx:118-162 | after scrollToIndex(i) and a scroll event at the requested offset, the current index is still the clamped i |
| Nav.FirstActive | components/navigation.tsx:15-25 | the result is the first id whose element exists and lies across the line y = 100; missing elements are skipped; None only when no present element does |
| Nav.ScrollTarget | components/navigation.tsx:32-44 | None iff the element is missing; otherwise scrolling to the target puts the element's top 96 px below the viewport top |
| Nav.ScrolledSectionCrossesLine | components/navigation.tsx:20-42 | a section scrolled into place by the bar lies across the active line iff it is at least 4 px tall |
| Nav.ToLower | components/navigation.tsx:70 | lower-casing keeps the length and maps each character through `LowerChar`, which sends each ASCII capital to a lower-case letter (32 code points up, by `Nav.LowerCharShift`) and keeps every other character |
| Nav.LowerCharShift | components/navigation.tsx:70 | each ASCII capital lower-cases to the character 32 code points above it (A to a, ..., Z to z) |
| Nav.NavItemTargets | components/navigation.tsx:46-75 | the five buttons lower-case to the five tracked sections after "hero", in order |
| Nav.Highlighting | components/navigation.tsx:46-70 | `IsActive` (the active section equals the lower-cased label): at most one button is highlighted; none while "hero" is active; the matching button for each other section |
| Nav.Navigation.constructor | components/navigation.tsx:7-8 | initially not scrolled, and "hero" is active |
| Nav.Navigation.HandleScroll | components/navigation.tsx:12-26 | isScrolled iff scrollY > 50; the active section is `ActiveAfter` of the old one: the first matching id (`FirstActive`) in the order hero, about, experience, skills, projects, contact, or the old one when none matches |

## Left out

- Rendering: JSX, CSS classes, animation delays, hover state (`hoveredItem`), and the `IntersectionObserver` visibility flags. They hold no logic that can be stated.
- Listener registration and removal, and the React render cycle. Handlers run one at a time on the current state. The one re-render with an effect is modelled: a change of the mobile flag re-runs the controller's effect (`CheckMobile`).
- Timer cancellation on unmount is not modelled. The source does not cancel the timer either.
- Browser scroll limits are not modelled: `scrollTo` and `scrollIntoView` past the ends of the document or of the carousel strip do not clamp here; `SettledScrollKeepsIndex` assumes the strip reaches the requested offset.
- Floating point: wheel deltas, touch positions, rectangles and `scrollY` are integers. Carousel widths and offsets are exact reals, so the rounding of `vw * 0.6` and `vw * 0.7` in IEEE doubles is not modelled.
- Projects.ProjectsSection.HandleMouseUp: requires `cardWidth + gap != 0`. This holds except for a viewport exactly 32 px wide, where JavaScript divides by zero and gets Infinity or NaN.
- Projects.ProjectsSection.HandleScroll: requires `cardWidth + gap != 0`, for the same reason.
- ScrollSnap.RunKeepsInRange: requires every `Resize` in the run to re-find as many sections as before (`KeepsSections`), for the same reason as the next line; a run whose resizes change the section count is not covered.
- ScrollSnap.HandleKeepsInRange: covers a resize only when the re-queried section list has the same length as before. The page's `section[id]` elements are static, so this always holds for this page.
- Nav.ToLower: lower-cases ASCII only. JavaScript's `toLowerCase` is Unicode-aware, but the bar's labels are ASCII.
- The other components: the hero tilt and glow, the parallax hook, the skills indicator, and the static about and experience content. They are floating-point presentation or fixed data.
- The contact form and the `/api/send` route. They are a wrapper around `fetch` and a pass-through to a third-party email client.
- `app/layout.tsx` (fonts and metadata) is not part of this model.
