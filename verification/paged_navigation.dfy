/** The navigation bar of the page-routed site: the mobile menu flag, the
    scrolled flag, and the three page tokens it can ask the router for. */
module PagedNavigation {

  datatype Menu = Menu(isOpen: bool, scrolled: bool)

  const Initial: Menu := Menu(false, false)

  /** The scroll offset beyond which the bar is drawn opaque. */
  const ScrollThreshold: real := 10.0

  /** The three destinations; each appears as a desktop item, a mobile item,
      and (for home) as the logo. */
  datatype Item = HomeItem | PortfolioItem | AboutItem

  /** The page token an item asks the router for. */
  function Token(item: Item): (t: string)
    ensures t in {"home", "portfolio", "about-contact"}
  {
    match item
    case HomeItem => "home"
    case PortfolioItem => "portfolio"
    case AboutItem => "about-contact"
  }

  /** Different items ask for different pages. */
  lemma TokenInjective(a: Item, b: Item)
    requires Token(a) == Token(b)
    ensures a == b
  {
  }

  /** Every clickable control of the bar and the item each one navigates to. */
  datatype Control = Logo | Desktop(item: Item) | Mobile(item: Item)

  function Destination(c: Control): Item {
    match c
    case Logo => HomeItem
    case Desktop(i) => i
    case Mobile(i) => i
  }

  /** The menu button flips the menu and touches nothing else. */
  function Toggle(m: Menu): (r: Menu)
    ensures r.isOpen == !m.isOpen && r.scrolled == m.scrolled
  {
    m.(isOpen := !m.isOpen)
  }

  lemma ToggleTwice(m: Menu)
    ensures Toggle(Toggle(m)) == m
  {
  }

  /** `handleNavigation`: close the menu, then hand exactly the control's page
      token to the router. */
  function Navigate(m: Menu, c: Control): (r: (Menu, string))
    ensures !r.0.isOpen && r.0.scrolled == m.scrolled
    ensures r.1 == Token(Destination(c))
    ensures r.1 in {"home", "portfolio", "about-contact"}
  {
    (m.(isOpen := false), Token(Destination(c)))
  }

  /** Where a click inside the open mobile overlay lands. */
  datatype OverlayTarget = Backdrop | Panel

  /** A click on the dark backdrop closes the menu; the inner panel stops the
      click from propagating, so a click there changes nothing. */
  function OverlayClick(m: Menu, t: OverlayTarget): (r: Menu)
    ensures t == Backdrop ==> !r.isOpen && r.scrolled == m.scrolled
    ensures t == Panel ==> r == m
  {
    match t
    case Backdrop => m.(isOpen := false)
    case Panel => m
  }

  /** An item is highlighted when the router's page is its token. */
  predicate IsActive(currentPage: string, item: Item) {
    currentPage == Token(item)
  }

  /** At most one item is highlighted, and none on the detail page or any
      page token outside the three. */
  lemma AtMostOneActive(currentPage: string, a: Item, b: Item)
    ensures IsActive(currentPage, a) && IsActive(currentPage, b) ==> a == b
    ensures currentPage !in {"home", "portfolio", "about-contact"} ==> !IsActive(currentPage, a)
  {
  }

  /** The scroll listener: `scrolled` becomes `scrollY > 10`; the state is
      written only when that value differs from the current one. */
  function OnScroll(m: Menu, scrollY: real): (r: (Menu, bool))
    ensures r.0.scrolled <==> scrollY > ScrollThreshold
    ensures r.0.isOpen == m.isOpen
    ensures r.1 <==> r.0.scrolled != m.scrolled
  {
    var isScrolled := scrollY > ScrollThreshold;
    if isScrolled != m.scrolled then (m.(scrolled := isScrolled), true) else (m, false)
  }

  /** Skipping the write when nothing changed loses nothing: a repeated
      scroll to the same side of the threshold writes nothing. */
  lemma ScrollWriteIdempotent(m: Menu, y1: real, y2: real)
    requires (y1 > ScrollThreshold) == (y2 > ScrollThreshold)
    ensures !OnScroll(OnScroll(m, y1).0, y2).1
    ensures OnScroll(OnScroll(m, y1).0, y2).0 == OnScroll(m, y1).0
  {
  }
}
