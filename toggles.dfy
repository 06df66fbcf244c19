/** The mobile navigation (hamburger) toggle and the collapsible sidebar toggle.
    The DOM state each click handler touches is kept as plain fields: the trigger's
    aria-expanded attribute as a string, CSS classes as booleans and the inner panel's
    inline display style as a string. */
module Toggles {

  /** How both handlers read aria-expanded: only the exact text "true" means expanded. */
  predicate IsTrue(attr: string) {
    attr == "true"
  }

  /** JavaScript's String(b) for a boolean. */
  function BoolText(b: bool): (r: string)
    ensures IsTrue(r) == b
    ensures r == "true" || r == "false"
  {
    if b then "true" else "false"
  }

  // ---------------------------------------------------------------------------
  // Navigation toggle
  // ---------------------------------------------------------------------------

  /** The hamburger's aria-expanded attribute and whether the list has the "open" class. */
  datatype NavState = NavState(ariaExpanded: string, open: bool)

  /** The attribute announces "expanded" exactly when the list is shown. */
  predicate NavSynced(s: NavState) {
    IsTrue(s.ariaExpanded) == s.open
  }

  /** A click on the hamburger: write back the negation of what the attribute said
      and toggle the "open" class. */
  function NavClick(s: NavState): (r: NavState)
    ensures r.ariaExpanded == "true" || r.ariaExpanded == "false"
    ensures IsTrue(r.ariaExpanded) != IsTrue(s.ariaExpanded)
    ensures r.open != s.open
    ensures NavSynced(r) <==> NavSynced(s)
  {
    NavState(BoolText(!IsTrue(s.ariaExpanded)), !s.open)
  }

  /** A click on a link inside the list: closes the menu, but only when it is open. */
  function NavLinkClick(s: NavState): (r: NavState)
    ensures !r.open
    ensures s.open ==> r.ariaExpanded == "false"
    ensures !s.open ==> r == s
    ensures NavSynced(s) ==> NavSynced(r)
  {
    if s.open then NavState("false", false) else s
  }

  /** Two hamburger clicks give back the class always, and the attribute exactly when
      it held one of the two texts the handler itself writes. */
  lemma NavClickTwice(s: NavState)
    ensures NavClick(NavClick(s)).open == s.open
    ensures NavClick(NavClick(s)).ariaExpanded == s.ariaExpanded
        <==> s.ariaExpanded == "true" || s.ariaExpanded == "false"
  {
  }

  /** The two kinds of click the navigation reacts to. */
  datatype Click = Hamburger | Link

  /** One click of either kind. */
  function NavStep(s: NavState, c: Click): NavState {
    match c
    case Hamburger => NavClick(s)
    case Link => NavLinkClick(s)
  }

  /** Replays clicks in order. */
  function NavRun(s: NavState, clicks: seq<Click>): NavState
    decreases |clicks|
  {
    if clicks == [] then s else NavRun(NavStep(s, clicks[0]), clicks[1..])
  }

  /** Starting from a synced state, any sequence of hamburger and link clicks keeps
      the attribute and the class in agreement. */
  lemma {:induction false} NavClicksKeepSync(s: NavState, clicks: seq<Click>)
    requires NavSynced(s)
    ensures NavSynced(NavRun(s, clicks))
    decreases |clicks|
  {
    if clicks != [] {
      NavClicksKeepSync(NavStep(s, clicks[0]), clicks[1..]);
    }
  }

  /** The navigation toggle with its state held in place. */
  class NavToggle {
    var ariaExpanded: string
    var open: bool

    function State(): NavState
      reads this
    {
      NavState(ariaExpanded, open)
    }

    constructor (aria: string, isOpen: bool)
      ensures State() == NavState(aria, isOpen)
    {
      ariaExpanded := aria;
      open := isOpen;
    }

    method Click()
      modifies this
      ensures State() == NavClick(old(State()))
    {
      var expanded := ariaExpanded == "true";
      ariaExpanded := BoolText(!expanded);
      open := !open;
    }

    method LinkClick()
      modifies this
      ensures State() == NavLinkClick(old(State()))
    {
      if open {
        open := false;
        ariaExpanded := "false";
      }
    }
  }

  // ---------------------------------------------------------------------------
  // Sidebar toggle
  // ---------------------------------------------------------------------------

  /** The toggle's aria-expanded attribute, whether the sidebar has the "collapsed"
      class, and the inner panel's inline display style. */
  datatype SidebarState = SidebarState(ariaExpanded: string, collapsed: bool, display: string)

  /** A click on the sidebar toggle: flip the attribute, toggle "collapsed", and hide the
      inner panel when it was expanded or show it ("block") when it was not. */
  function SidebarClick(s: SidebarState): (r: SidebarState)
    ensures r.display == "block" <==> IsTrue(r.ariaExpanded)
    ensures r.display == "block" || r.display == "none"
    ensures r.ariaExpanded == "true" || r.ariaExpanded == "false"
    ensures IsTrue(r.ariaExpanded) != IsTrue(s.ariaExpanded)
    ensures r.collapsed != s.collapsed
    ensures (r.collapsed == IsTrue(r.ariaExpanded)) <==> (s.collapsed == IsTrue(s.ariaExpanded))
  {
    var expanded := IsTrue(s.ariaExpanded);
    SidebarState(BoolText(!expanded), !s.collapsed, if expanded then "none" else "block")
  }

  /** Two clicks give back the class always, and the attribute exactly when it held
      "true" or "false"; the panel then shows exactly when it was expanded before. */
  lemma SidebarClickTwice(s: SidebarState)
    ensures SidebarClick(SidebarClick(s)).collapsed == s.collapsed
    ensures SidebarClick(SidebarClick(s)).ariaExpanded == s.ariaExpanded
        <==> s.ariaExpanded == "true" || s.ariaExpanded == "false"
    ensures SidebarClick(SidebarClick(s)).display == "block" <==> IsTrue(s.ariaExpanded)
  {
  }

  /** The sidebar toggle with its state held in place. */
  class SidebarToggle {
    var ariaExpanded: string
    var collapsed: bool
    var display: string

    function State(): SidebarState
      reads this
    {
      SidebarState(ariaExpanded, collapsed, display)
    }

    constructor (aria: string, isCollapsed: bool, innerDisplay: string)
      ensures State() == SidebarState(aria, isCollapsed, innerDisplay)
    {
      ariaExpanded := aria;
      collapsed := isCollapsed;
      display := innerDisplay;
    }

    method Click()
      modifies this
      ensures State() == SidebarClick(old(State()))
    {
      var expanded := ariaExpanded == "true";
      ariaExpanded := BoolText(!expanded);
      collapsed := !collapsed;
      if expanded {
        display := "none";
      } else {
        display := "block";
      }
    }
  }
}
