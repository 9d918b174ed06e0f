/** The navigation menu of main.js (`setupMenu`). A closure flag `isOpen`
    is flipped by the toggle button; each flip writes the flag into the
    body's `no-scroll` class, the `active` class of the toggle button and of
    the navigation element, and the toggle's `aria-expanded` attribute. A
    click on a link inside the navigation closes the menu if it is open. */
module MenuToggle {
  import opened Dom

  const NO_SCROLL: string := "no-scroll"
  const ACTIVE: string := "active"
  const ARIA_EXPANDED: string := "aria-expanded"

  /** The state `toggleMenu` reads and writes: the flag, the class lists of
      the body, the toggle button and the navigation, and the toggle
      button's attributes. */
  datatype MenuView = MenuView(
    isOpen: bool,
    body: set<string>,
    toggle: set<string>,
    nav: set<string>,
    toggleAttributes: map<string, string>)

  /** Every piece of document state the menu drives agrees with the flag. */
  predicate InStep(v: MenuView) {
    (NO_SCROLL in v.body <==> v.isOpen) &&
    (ACTIVE in v.toggle <==> v.isOpen) &&
    (ACTIVE in v.nav <==> v.isOpen) &&
    ARIA_EXPANDED in v.toggleAttributes &&
    v.toggleAttributes[ARIA_EXPANDED] == BoolText(v.isOpen)
  }

  /** `toggleMenu()`: flip the flag and write it everywhere; nothing else in
      the class lists or attributes changes. */
  function Toggled(v: MenuView): (r: MenuView)
    ensures r.isOpen == !v.isOpen && InStep(r)
    ensures r.body - {NO_SCROLL} == v.body - {NO_SCROLL}
    ensures r.toggle - {ACTIVE} == v.toggle - {ACTIVE}
    ensures r.nav - {ACTIVE} == v.nav - {ACTIVE}
    ensures r.toggleAttributes.Keys == v.toggleAttributes.Keys + {ARIA_EXPANDED}
    ensures forall a :: a in v.toggleAttributes && a != ARIA_EXPANDED ==>
      r.toggleAttributes[a] == v.toggleAttributes[a]
  {
    var open := !v.isOpen;
    MenuView(
      open,
      WithClass(v.body, NO_SCROLL, open),
      WithClass(v.toggle, ACTIVE, open),
      WithClass(v.nav, ACTIVE, open),
      v.toggleAttributes[ARIA_EXPANDED := BoolText(open)])
  }

  /** A click on a navigation link: toggle only if the menu is open. */
  function NavClicked(v: MenuView): (r: MenuView)
    ensures !r.isOpen
    ensures !v.isOpen ==> r == v
    ensures v.isOpen ==> InStep(r)
  {
    if v.isOpen then Toggled(v) else v
  }

  /** Toggling twice gives back exactly the state it started from if and
      only if that state was in step with the flag. Before the first toggle
      the markup need not be. */
  lemma ToggleTwice(v: MenuView)
    ensures Toggled(Toggled(v)) == v <==> InStep(v)
  {
  }

  /** Once the flag has been written everywhere, a nav-link click leaves
      every piece of state closed, whatever the flag was. */
  lemma NavClickCloses(v: MenuView)
    requires InStep(v)
    ensures var r := NavClicked(v);
      InStep(r) && !r.isOpen && NO_SCROLL !in r.body && ACTIVE !in r.toggle &&
      ACTIVE !in r.nav && r.toggleAttributes[ARIA_EXPANDED] == "false"
  {
  }

  /** The handlers `setupMenu` installs, bound to the body, the toggle
      button and the navigation element. */
  class Menu {
    const body: Element
    const menuToggle: Element
    const siteNav: Element
    var isOpen: bool

    ghost predicate Valid()
      reads this
    {
      body != menuToggle && body != siteNav
    }

    function View(): MenuView
      reads this, body, menuToggle, siteNav
    {
      MenuView(isOpen, body.classes, menuToggle.classes, siteNav.classes, menuToggle.attributes)
    }

    /** `let isOpen = false;` and the document as it is. */
    constructor (body: Element, menuToggle: Element, siteNav: Element)
      requires body != menuToggle && body != siteNav
      ensures Valid() && !isOpen
      ensures this.body == body && this.menuToggle == menuToggle && this.siteNav == siteNav
    {
      this.body := body;
      this.menuToggle := menuToggle;
      this.siteNav := siteNav;
      isOpen := false;
    }

    /** `toggleMenu()`, the toggle button's click handler. */
    method Toggle()
      requires Valid()
      modifies this`isOpen, body`classes, menuToggle`classes, siteNav`classes, menuToggle`attributes
      ensures View() == Toggled(old(View()))
    {
      isOpen := !isOpen;
      body.ToggleClass(NO_SCROLL, isOpen);
      menuToggle.ToggleClass(ACTIVE, isOpen);
      siteNav.ToggleClass(ACTIVE, isOpen);
      menuToggle.SetAttribute(ARIA_EXPANDED, isOpen);
    }

    /** A navigation link's click handler, without the smooth scroll. */
    method ClickNavLink()
      requires Valid()
      modifies this`isOpen, body`classes, menuToggle`classes, siteNav`classes, menuToggle`attributes
      ensures View() == NavClicked(old(View()))
    {
      if isOpen {
        Toggle();
      }
    }
  }

  /** `setupMenu()`: without a toggle button or a navigation element nothing
      is installed. */
  method SetupMenu(body: Element, menuToggle: Element?, siteNav: Element?) returns (menu: Menu?)
    requires body != menuToggle && body != siteNav
    ensures menu == null <==> menuToggle == null || siteNav == null
    ensures menu != null ==> fresh(menu) && menu.Valid() && !menu.isOpen
    ensures menu != null ==> menu.body == body && menu.menuToggle == menuToggle && menu.siteNav == siteNav
  {
    if menuToggle == null || siteNav == null {
      return null;
    }
    menu := new Menu(body, menuToggle, siteNav);
  }
}
