/** The page-routed shell: one `currentPage` token and one remembered
    project, switched by the navigation bar, the project cards and the
    detail page's back button. */
module PagedApp {
  import opened Optional
  import opened Projects
  import PagedPortfolio
  import PagedNavigation

  /** Every page token the shell can be asked for. */
  const Pages: set<string> := {"home", "portfolio", "about-contact", "projectDetail"}

  datatype App = App(page: string, selection: Option<Project>)

  const Initial: App := App("home", None)

  /** `navigateTo`: always switch page; replace the remembered project only
      when one is passed, so a plain navigation keeps the old one. */
  function NavigateTo(a: App, page: string, data: Option<Project>): (r: App)
    ensures r.page == page
    ensures data.Some? ==> r.selection == data
    ensures data.None? ==> r.selection == a.selection
  {
    if data.Some? then App(page, data) else a.(page := page)
  }

  /** The page-dependent part of the screen (particles, bar and footer are
      always drawn and are not listed). */
  datatype Section =
    | HeroSection
    | TechStackSection
    | PortfolioSection
    | AboutContactSection
    | DetailSection(project: Project)

  predicate ShowsDetail(ss: seq<Section>) {
    exists i :: 0 <= i < |ss| && ss[i].DetailSection?
  }

  predicate ShowsPortfolio(ss: seq<Section>) {
    exists i :: 0 <= i < |ss| && ss[i] == PortfolioSection
  }

  function Sections(a: App): (r: seq<Section>)
    ensures ShowsDetail(r) <==> a.page == "projectDetail" && a.selection.Some?
    ensures forall i :: 0 <= i < |r| && r[i].DetailSection? ==> Some(r[i].project) == a.selection
    ensures ShowsPortfolio(r) <==> a.page in {"home", "portfolio"}
    ensures HeroSection in r <==> a.page == "home"
    ensures TechStackSection in r <==> a.page == "home"
    ensures AboutContactSection in r <==> a.page == "about-contact"
    ensures a.page == "home" ==> r[0] == HeroSection && r[1] == TechStackSection && r[2] == PortfolioSection
    ensures r == [] <==> a.page !in Pages || (a.page == "projectDetail" && a.selection.None?)
  {
    var r :=
      if a.page == "home" then [HeroSection, TechStackSection, PortfolioSection]
      else if a.page == "portfolio" then [PortfolioSection]
      else if a.page == "about-contact" then [AboutContactSection]
      else if a.page == "projectDetail" && a.selection.Some? then [DetailSection(a.selection.value)]
      else [];
    assert a.page == "home" ==> r[2] == PortfolioSection;
    assert a.page == "portfolio" ==> r[0] == PortfolioSection;
    assert a.page == "projectDetail" && a.selection.Some? ==> r[0].DetailSection?;
    r
  }

  /** What a user can do: press a bar control, press the card at `index` of
      the grid filtered by `filter`, or press the detail page's back button. */
  datatype Event = Nav(control: PagedNavigation.Control) | OpenCard(filter: string, index: nat) | Back

  /** An event changes nothing when the control it names is not on screen. */
  function Step(a: App, e: Event): App {
    match e
    case Nav(c) => NavigateTo(a, PagedNavigation.Token(PagedNavigation.Destination(c)), None)
    case OpenCard(filter, index) =>
      if ShowsPortfolio(Sections(a)) && index < |PagedPortfolio.Visible(filter)| then
        var req := PagedPortfolio.CardClick(PagedPortfolio.Visible(filter)[index]);
        NavigateTo(a, req.page, req.project)
      else a
    case Back =>
      if ShowsDetail(Sections(a)) then NavigateTo(a, "home", None) else a
  }

  function Run(a: App, es: seq<Event>): App
    decreases |es|
  {
    if es == [] then a else Run(Step(a, es[0]), es[1..])
  }

  /** The shell's invariant: a known page, a detail page always has its
      project, and every remembered project is one of the catalog's. */
  predicate Inv(a: App) {
    && a.page in Pages
    && (a.page == "projectDetail" ==> a.selection.Some?)
    && (a.selection.Some? ==> a.selection.value in PagedPortfolio.Catalog())
  }

  lemma InitialInv()
    ensures Inv(Initial)
    ensures Sections(Initial) == [HeroSection, TechStackSection, PortfolioSection]
  {
  }

  /** A chosen card is a catalog record. */
  lemma VisibleFromCatalog(filter: string, index: nat)
    requires index < |PagedPortfolio.Visible(filter)|
    ensures PagedPortfolio.Visible(filter)[index] in PagedPortfolio.Catalog()
  {
    FilterSpec(PagedPortfolio.Catalog(), filter);
  }

  lemma StepPreservesInv(a: App, e: Event)
    requires Inv(a)
    ensures Inv(Step(a, e))
    ensures Step(a, e).page == "projectDetail" <==> ShowsDetail(Sections(Step(a, e)))
  {
    match e
    case Nav(c) =>
    case OpenCard(filter, index) =>
      if ShowsPortfolio(Sections(a)) && index < |PagedPortfolio.Visible(filter)| {
        VisibleFromCatalog(filter, index);
      }
    case Back =>
  }

  lemma {:induction false} RunPreservesInv(a: App, es: seq<Event>)
    requires Inv(a)
    ensures Inv(Run(a, es))
    ensures Run(a, es).page == "projectDetail" <==> ShowsDetail(Sections(Run(a, es)))
    decreases |es|
  {
    if es == [] {
      assert Run(a, es) == a;
    } else {
      StepPreservesInv(a, es[0]);
      RunPreservesInv(Step(a, es[0]), es[1..]);
    }
  }

  /** Pressing a card shows the detail page for exactly that record. */
  lemma CardOpensItsDetail(a: App, filter: string, index: nat)
    requires a.page in {"home", "portfolio"}
    requires index < |PagedPortfolio.Visible(filter)|
    ensures Sections(Step(a, OpenCard(filter, index))) ==
      [DetailSection(PagedPortfolio.Visible(filter)[index])]
  {
  }

  /** The back button returns home but keeps the remembered project, so the
      selection outlives the page that showed it. */
  lemma BackKeepsStaleSelection(a: App)
    requires Inv(a) && a.page == "projectDetail"
    ensures Step(a, Back).page == "home"
    ensures Step(a, Back).selection == a.selection && a.selection.Some?
  {
  }

  /** The bar never leads to the detail page and never changes the project. */
  lemma NavNeverOpensDetail(a: App, c: PagedNavigation.Control)
    ensures Step(a, Nav(c)).page != "projectDetail"
    ensures !ShowsDetail(Sections(Step(a, Nav(c))))
    ensures Step(a, Nav(c)).selection == a.selection
  {
  }

  /** A click on a card that is not on screen is dropped. */
  lemma HiddenCardIgnored(a: App, filter: string, index: nat)
    requires a.page !in {"home", "portfolio"}
    ensures Step(a, OpenCard(filter, index)) == a
  {
  }
}
