/** The navigation bar of the single-page site: the mobile menu flag, the
    scrolled flag, and the fixed list of in-page links. */
module ModalNavigation {

  datatype Menu = Menu(isOpen: bool, scrolled: bool)

  const Initial: Menu := Menu(false, false)

  /** The scroll offset beyond which the bar is drawn opaque. */
  const ScrollThreshold: real := 50.0

  datatype Link = Link(name: string, href: string)

  /** The one link list; the desktop bar and the mobile menu both draw it. */
  function Links(): seq<Link> {
    [Link("Home", "#"), Link("About", "#about"), Link("Projects", "#portfolio"),
     Link("Skills", "#skills"), Link("Contact", "#contact")]
  }

  /** Five links, with distinct names and distinct targets. */
  lemma LinksWellFormed()
    ensures |Links()| == 5
    ensures forall i, j :: 0 <= i < j < |Links()| ==>
      Links()[i].name != Links()[j].name && Links()[i].href != Links()[j].href
  {
  }

  /** The menu button flips the menu and touches nothing else. */
  function Toggle(m: Menu): (r: Menu)
    ensures r.isOpen == !m.isOpen && r.scrolled == m.scrolled
  {
    m.(isOpen := !m.isOpen)
  }

  /** Following any mobile link closes the menu. */
  function FollowLink(m: Menu): (r: Menu)
    ensures !r.isOpen && r.scrolled == m.scrolled
  {
    m.(isOpen := false)
  }

  /** The scroll listener: `scrolled` holds exactly when the offset is past 50. */
  function OnScroll(m: Menu, offset: real): (r: Menu)
    ensures r.scrolled <==> offset > ScrollThreshold
    ensures r.isOpen == m.isOpen
  {
    if offset > ScrollThreshold then m.(scrolled := true) else m.(scrolled := false)
  }

  /** The menu button's accessible name. */
  function AriaLabel(m: Menu): (r: string)
    ensures m.isOpen ==> r == "Close menu"
    ensures !m.isOpen ==> r == "Open menu"
  {
    if m.isOpen then "Close menu" else "Open menu"
  }

  /** The label always names the action the button performs: pressing it
      flips the label, and twice restores it. */
  lemma ToggleFlipsLabel(m: Menu)
    ensures AriaLabel(Toggle(m)) != AriaLabel(m)
    ensures Toggle(Toggle(m)) == m
    ensures AriaLabel(m) == "Close menu" <==> m.isOpen
  {
  }
}
