/** The fixed navigation bar: a "scrolled" style once the page has moved, the
    highlighted item for the section under the bar, and buttons that scroll a
    section to just below the bar.

    `document.getElementById` becomes a map from element id to that element's
    bounding rectangle (an id that is not a key is a missing element), and
    `window.scrollY` is an integer parameter. */
module Nav {
  import opened Wrappers
  import opened Geometry

  /** The bar switches to its "scrolled" style once the page has scrolled past this. */
  const ScrolledThreshold := 50
  /** The horizontal line, in viewport pixels, that decides the active section. */
  const ActiveLine := 100
  /** Height reserved for the fixed bar when scrolling a section into place. */
  const HeaderOffset := 96

  /** The sections the bar tracks, in the order they are tried. */
  const SectionIds: seq<string> := ["hero", "about", "experience", "skills", "projects", "contact"]
  /** The labels of the bar's buttons. */
  const NavItems: seq<string> := ["About", "Experience", "Skills", "Projects", "Contact"]

  function IsScrolled(scrollY: int): bool {
    scrollY > ScrolledThreshold
  }

  /** The element exists and its rectangle contains the active line. */
  predicate Matches(id: string, elements: map<string, Rect>) {
    id in elements && elements[id].top <= ActiveLine && elements[id].bottom >= ActiveLine
  }

  /** Position in `ids` of the first present element containing the active line. */
  function FirstActive(ids: seq<string>, elements: map<string, Rect>): (r: Option<nat>)
    ensures r.Some? ==> r.value < |ids| && Matches(ids[r.value], elements)
    ensures r.Some? ==> forall j :: 0 <= j < r.value ==> !Matches(ids[j], elements)
    ensures r.None? ==> forall j :: 0 <= j < |ids| ==> !Matches(ids[j], elements)
  {
    if |ids| == 0 then None
    else if Matches(ids[0], elements) then Some(0)
    else
      match FirstActive(ids[1..], elements)
      case None => None
      case Some(k) => Some(k + 1)
  }

  /** The active section after a scroll event, given the one before it. */
  function ActiveAfter(active: string, elements: map<string, Rect>): string {
    match FirstActive(SectionIds, elements)
    case None => active
    case Some(k) => SectionIds[k]
  }

  /** The window offset `scrollToSection(id)` scrolls to, or None when the element
      is missing. Scrolling there puts the element's top exactly `HeaderOffset`
      pixels below the top of the viewport. */
  function ScrollTarget(id: string, elements: map<string, Rect>, scrollY: int): (r: Option<int>)
    ensures r.Some? <==> id in elements
    ensures r.Some? ==> elements[id].top - (r.value - scrollY) == HeaderOffset
  {
    if id in elements then Some(elements[id].top + scrollY - HeaderOffset) else None
  }

  /** A rectangle as seen after the window scrolls down by `dy` pixels. */
  function Shift(r: Rect, dy: int): Rect {
    Rect(r.top - dy, r.bottom - dy)
  }

  /** A section scrolled into place by the bar lies across the active line exactly
      when it is at least `ActiveLine - HeaderOffset` (4) pixels tall, so the
      scroll handler can then pick it. */
  lemma ScrolledSectionCrossesLine(id: string, elements: map<string, Rect>, scrollY: int)
    requires id in elements
    ensures var dy := ScrollTarget(id, elements, scrollY).value - scrollY;
      var moved := elements[id := Shift(elements[id], dy)];
      Matches(id, moved) <==> elements[id].bottom - elements[id].top >= ActiveLine - HeaderOffset
  {
  }

  function LowerChar(c: char): (d: char)
    ensures 'A' <= c <= 'Z' ==> 'a' <= d <= 'z'
    ensures !('A' <= c <= 'Z') ==> d == c
  {
    if 'A' <= c <= 'Z' then (c as int - 'A' as int + 'a' as int) as char else c
  }

  /** Each ASCII capital lower-cases to the letter 32 code points above it, which
      is its own lower-case form. */
  lemma LowerCharShift(c: char)
    requires 'A' <= c <= 'Z'
    ensures LowerChar(c) as int == c as int + 32
  {
  }

  /** ASCII lower-casing, enough for the bar's labels. */
  function ToLower(s: string): (r: string)
    ensures |r| == |s|
    ensures forall i :: 0 <= i < |s| ==> r[i] == LowerChar(s[i])
  {
    if s == [] then [] else [LowerChar(s[0])] + ToLower(s[1..])
  }

  /** Whether the button labelled `item` is highlighted. */
  predicate IsActive(item: string, activeSection: string) {
    activeSection == ToLower(item)
  }

  /** Each button scrolls to, and is highlighted for, one of the tracked sections
      after "hero", in the same order. */
  lemma NavItemTargets()
    ensures forall i :: 0 <= i < |NavItems| ==> ToLower(NavItems[i]) == SectionIds[i + 1]
  {
    forall i | 0 <= i < |NavItems| ensures ToLower(NavItems[i]) == SectionIds[i + 1] {
      if i == 0 {
        LowercaseInitial("About", "about");
      } else if i == 1 {
        LowercaseInitial("Experience", "experience");
      } else if i == 2 {
        LowercaseInitial("Skills", "skills");
      } else if i == 3 {
        LowercaseInitial("Projects", "projects");
      } else {
        LowercaseInitial("Contact", "contact");
      }
    }
  }

  /** A capitalised word with an otherwise lower-case tail lower-cases to `word`. */
  lemma LowercaseInitial(text: string, word: string)
    requires |text| == |word| > 0 && 'A' <= text[0] <= 'Z' && LowerChar(text[0]) == word[0]
    requires forall i :: 1 <= i < |text| ==> text[i] == word[i] && !('A' <= text[i] <= 'Z')
    ensures ToLower(text) == word
  {
  }

  /** At most one button is highlighted, whatever the active section; none is
      while "hero" is active, and the matching one is for every other section. */
  lemma Highlighting(activeSection: string)
    ensures forall i, j | 0 <= i < |NavItems| && 0 <= j < |NavItems| ::
      IsActive(NavItems[i], activeSection) && IsActive(NavItems[j], activeSection) ==> i == j
    ensures activeSection == "hero" ==> forall i :: 0 <= i < |NavItems| ==> !IsActive(NavItems[i], activeSection)
    ensures forall k :: 1 <= k < |SectionIds| && activeSection == SectionIds[k] ==> IsActive(NavItems[k - 1], activeSection)
  {
    NavItemTargets();
    forall i, j | 0 <= i < |NavItems| && 0 <= j < |NavItems| &&
      IsActive(NavItems[i], activeSection) && IsActive(NavItems[j], activeSection)
      ensures i == j
    {
      SectionIdsDistinct(i + 1, j + 1);
    }
    SectionIdLengths();
  }

  /** The tracked section ids have pairwise distinct lengths. */
  lemma SectionIdLengths()
    ensures forall k :: 0 <= k < |SectionIds| ==> |SectionIds[k]| == [4, 5, 10, 6, 8, 7][k]
  {
  }

  /** The tracked section ids are pairwise distinct. */
  lemma SectionIdsDistinct(i: nat, j: nat)
    requires i < |SectionIds| && j < |SectionIds| && SectionIds[i] == SectionIds[j]
    ensures i == j
  {
    SectionIdLengths();
  }

  /** The bar's React state, updated by its scroll listener. */
  class Navigation {
    var isScrolled: bool
    var activeSection: string

    constructor ()
      ensures !isScrolled && activeSection == "hero"
    {
      isScrolled := false;
      activeSection := "hero";
    }

    /** The scroll listener: the first tracked section, in order, whose element
        exists and lies across the active line becomes active; later matches are
        ignored, and if none matches the active section is kept. */
    method HandleScroll(scrollY: int, elements: map<string, Rect>)
      modifies this
      ensures isScrolled == IsScrolled(scrollY)
      ensures activeSection == ActiveAfter(old(activeSection), elements)
      ensures activeSection == old(activeSection) || activeSection in SectionIds
    {
      isScrolled := scrollY > ScrolledThreshold;
      var i := 0;
      while i < |SectionIds|
        invariant 0 <= i <= |SectionIds|
        invariant forall j :: 0 <= j < i ==> !Matches(SectionIds[j], elements)
        invariant activeSection == old(activeSection)
      {
        var id := SectionIds[i];
        if id in elements {
          var rect := elements[id];
          if rect.top <= ActiveLine && rect.bottom >= ActiveLine {
            activeSection := id;
            break;
          }
        }
        i := i + 1;
      }
    }
  }
}
