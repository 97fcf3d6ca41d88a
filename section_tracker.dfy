/**
 * Scroll-driven navigation state. On every scroll event the handler records
 * whether the page is scrolled past 50 px and makes active the first section,
 * in a fixed list order, whose element exists and whose top lies between
 * -100 px and 300 px of the viewport top; when no section qualifies the
 * active section is kept. Navigating to a section closes the mobile menu.
 *
 * The page geometry is abstracted as a map from element id to the element's
 * viewport-relative top offset: an id that is not a key has no element.
 */
module SectionTracker {
  import opened Wrappers

  type Layout = map<string, int>

  const WindowTop: int := -100
  const WindowBottom: int := 300
  const ScrolledThreshold: int := 50

  /** Section lists and initial active sections of the two component files. */
  const SrcSections: seq<string> := ["hero", "about", "skills", "experience", "projects", "contact"]
  const SrcInitialSection: string := "hero"
  const RootSections: seq<string> := ["about", "skills", "experience", "projects", "contact"]
  const RootInitialSection: string := "about"

  /** The top offset of the element with this id, if the element exists. */
  function TopOf(layout: Layout, id: string): (top: Option<int>)
  {
    if id in layout then Some(layout[id]) else None
  }

  /** A section is in view when its element exists and its top is inside the window. */
  predicate Qualifies(layout: Layout, id: string)
  {
    match TopOf(layout, id)
    case None => false
    case Some(top) => WindowTop <= top <= WindowBottom
  }

  /** `sections.find(...)`: the first section in list order that is in view. */
  function Find(sections: seq<string>, layout: Layout): (r: Option<string>)
    ensures r.Some? ==> r.value in sections && Qualifies(layout, r.value)
    ensures forall j :: 0 <= j < |sections| && Qualifies(layout, sections[j]) ==>
      r.Some? && r.value in sections[..j + 1]
  {
    if sections == [] then None
    else if Qualifies(layout, sections[0]) then Some(sections[0])
    else
      var r := Find(sections[1..], layout);
      assert forall j :: 1 <= j < |sections| ==> sections[..j + 1] == [sections[0]] + sections[1..][..j];
      r
  }

  /** Find's answer is the section at the first qualifying position. */
  lemma FindIsFirst(sections: seq<string>, layout: Layout, k: nat)
    requires k < |sections| && Qualifies(layout, sections[k])
    requires forall j :: 0 <= j < k ==> !Qualifies(layout, sections[j])
    ensures Find(sections, layout) == Some(sections[k])
  {
  }

  /** Nothing is found exactly when no section is in view. */
  lemma FindNone(sections: seq<string>, layout: Layout)
    ensures Find(sections, layout).None? <==>
      forall j :: 0 <= j < |sections| ==> !Qualifies(layout, sections[j])
  {
  }

  /** A section whose element is missing is never chosen. */
  lemma MissingNeverChosen(sections: seq<string>, layout: Layout, id: string)
    requires id !in layout
    ensures Find(sections, layout) != Some(id)
  {
  }

  /** The offsets about: -50, skills: 150, experience: 500 select about. */
  lemma FirstQualifyingWins()
    ensures Find(RootSections, map["about" := -50, "skills" := 150, "experience" := 500]) == Some("about")
  {
    FindIsFirst(RootSections, map["about" := -50, "skills" := 150, "experience" := 500], 0);
  }

  /** Both configurations start on a section of their own list, and no id is empty. */
  lemma ConfigurationsWellFormed()
    ensures SrcInitialSection in SrcSections && "" !in SrcSections
    ensures RootInitialSection in RootSections && "" !in RootSections
    ensures "hero" !in RootSections
  {
  }

  /** JavaScript truthiness of the value `find` returns: undefined and "" are falsy. */
  predicate Truthy(found: Option<string>)
  {
    found.Some? && found.value != ""
  }

  /** Navigation state of one mounted component. */
  class Navigation {
    const sections: seq<string>
    var activeSection: string
    var scrolled: bool
    var menuOpen: bool

    /** The active section is always one of the tracked sections, none of them "". */
    predicate Valid()
      reads this
    {
      activeSection in sections && "" !in sections
    }

    constructor (sections: seq<string>, initialSection: string)
      requires initialSection in sections && "" !in sections
      ensures Valid() && this.sections == sections
      ensures activeSection == initialSection && !scrolled && !menuOpen
    {
      this.sections := sections;
      activeSection := initialSection;
      scrolled, menuOpen := false, false;
    }

    /** The scroll handler. */
    method HandleScroll(scrollY: int, layout: Layout)
      requires Valid()
      modifies this
      ensures Valid()
      ensures scrolled == (scrollY > ScrolledThreshold)
      ensures Find(sections, layout).Some? ==> activeSection == Find(sections, layout).value
      ensures Find(sections, layout).None? ==> activeSection == old(activeSection)
      ensures menuOpen == old(menuOpen)
    {
      scrolled := scrollY > ScrolledThreshold;
      var current := Find(sections, layout);
      if Truthy(current) {
        activeSection := current.value;
      }
    }

    /** Smooth-scrolls to a section when its element exists and then closes the menu. */
    method ScrollToSection(id: string, layout: Layout) returns (scrolledIntoView: bool)
      requires Valid()
      modifies this
      ensures Valid()
      ensures scrolledIntoView == (id in layout)
      ensures menuOpen == (old(menuOpen) && id !in layout)
      ensures activeSection == old(activeSection) && scrolled == old(scrolled)
    {
      scrolledIntoView := false;
      var element := TopOf(layout, id);
      if element.Some? {
        scrolledIntoView := true;
        menuOpen := false;
      }
    }

    /** The menu button flips the mobile menu. */
    method ToggleMenu()
      requires Valid()
      modifies this
      ensures Valid()
      ensures menuOpen == !old(menuOpen)
      ensures activeSection == old(activeSection) && scrolled == old(scrolled)
    {
      menuOpen := !menuOpen;
    }
  }
}
