/** The gallery of the page-routed site: its six-record catalog, the filter
    buttons, the card subtitles and the hand-off to the detail page. */
module PagedPortfolio {
  import opened Optional
  import opened Projects

  /** A file under the site's project image folder. */
  function ProjectImage(file: string): string { "/images/projects/" + file }

  /** A file on the external video host. */
  function Hosted(file: string): string { "https://example.com/" + file }

  // The long texts of the records below are split into concatenated
  // literals, each spelling exactly the text the site shows.

  function Img(url: string): Media { Media("image", url, None) }

  function Clip(url: string, caption: string): Media { Media("video", url, Some(caption)) }

  function SpaceExplorer(): Project {
    Project(1, "Space Explorer", "game", ProjectImage("space-explorer.jpg"),
      Some("Unity"), Some("3D Adventure"), Some("PC, Console"), Some("Lead Developer"),
      Some("2023-2024"), Some(Headcount(5)),
      Some("A space exploration " + "game where players " + "discover new " + "planets and alien " + "civilizations."),
      Some([Img(ProjectImage("space-explorer-1.jpg")),
            Img(ProjectImage("space-explorer-2.jpg")),
            Clip(Hosted("space-explorer-video.mp4"), "Gameplay Trailer")]),
      None, None)
  }

  function FantasyCharacters(): Project {
    Project(2, "Fantasy RPG Characters", "3d", ProjectImage("fantasy-characters.jpg"),
      None, None, None, Some("3D Character Artist"), Some("2022"), None,
      Some("A collection of " + "high-quality 3D " + "character models " + "for fantasy RPG " + "games."),
      Some([Img(ProjectImage("fantasy-character-1.jpg")),
            Img(ProjectImage("fantasy-character-2.jpg"))]),
      None, None)
  }

  function PuzzleQuest(): Project {
    Project(3, "Puzzle Quest", "game", ProjectImage("puzzle-quest.jpg"),
      Some("Unreal Engine"), Some("Puzzle"), Some("Mobile"), Some("Game Designer & Developer"),
      Some("2021-2022"), Some(Headcount(3)),
      Some("A challenging " + "puzzle game with " + "unique mechanics " + "and beautiful " + "visuals."),
      Some([Img(ProjectImage("puzzle-quest-1.jpg")),
            Media("gif", ProjectImage("puzzle-quest-gameplay.gif"), None)]),
      None, None)
  }

  function SciFiEnvironment(): Project {
    Project(4, "Sci-Fi Environment", "3d", ProjectImage("scifi-environment.jpg"),
      None, None, None, Some("Environment Artist"), Some("2021"), None,
      Some("A detailed sci-fi " + "environment " + "designed for next-" + "gen games."),
      Some([Img(ProjectImage("scifi-environment-1.jpg")),
            Img(ProjectImage("scifi-environment-2.jpg"))]),
      None, None)
  }

  function MedievalAdventure(): Project {
    Project(5, "Medieval Adventure", "game", ProjectImage("medieval-adventure.jpg"),
      Some("Unity"), Some("Action RPG"), Some("PC"), Some("Technical Artist & Developer"),
      Some("2020-2021"), Some(Headcount(4)),
      Some("An immersive " + "medieval adventure " + "game with realistic " + "combat and " + "exploration."),
      Some([Img(ProjectImage("medieval-adventure-1.jpg")),
            Clip(Hosted("medieval-adventure-video.mp4"), "Combat Demo")]),
      None, None)
  }

  function AnimationReel(): Project {
    Project(6, "Character Animation Reel", "animation", ProjectImage("animation-reel.jpg"),
      None, None, None, Some("Animator"), Some("2020"), None,
      Some("A showcase of " + "character " + "animations for " + "various game " + "projects."),
      Some([Clip(Hosted("animation-reel.mp4"), "Animation Reel")]),
      None, None)
  }

  /** The hard-coded catalog, in display order. */
  function Catalog(): seq<Project> {
    [SpaceExplorer(), FantasyCharacters(), PuzzleQuest(), SciFiEnvironment(),
     MedievalAdventure(), AnimationReel()]
  }

  /** The filter the gallery starts with. */
  const InitialFilter: string := AllFilter

  /** A filter button: the token it sets and the text it shows. */
  datatype Button = Button(token: string, text: string)

  function Buttons(): seq<Button> {
    [Button("all", "All Projects"), Button("game", "Games"),
     Button("3d", "3D Models"), Button("animation", "Animations")]
  }

  /** A button is drawn highlighted exactly when it holds the current filter. */
  predicate Highlighted(filter: string, b: Button) {
    filter == b.token
  }

  /** The gallery opens on 'All Projects', and any filter highlights at
      most one button, exactly one when it is a button's token. */
  lemma OneButtonHighlighted(filter: string)
    ensures Highlighted(InitialFilter, Buttons()[0]) && Buttons()[0].text == "All Projects"
    ensures forall i, j :: 0 <= i < j < |Buttons()| ==>
      !(Highlighted(filter, Buttons()[i]) && Highlighted(filter, Buttons()[j]))
    ensures (exists i :: 0 <= i < |Buttons()| && Highlighted(filter, Buttons()[i])) <==>
      filter in {"all", "game", "3d", "animation"}
  {
    if filter in {"all", "game", "3d", "animation"} {
      var i := if filter == "all" then 0 else if filter == "game" then 1 else if filter == "3d" then 2 else 3;
      assert Highlighted(filter, Buttons()[i]);
    }
  }

  /** The cards the gallery shows under `filter`. */
  function Visible(filter: string): seq<Project> {
    Filter(Catalog(), filter)
  }

  /** The catalog's shape: ids 1..6 in order, only the three categories the
      buttons offer, media kinds from the declared union, no links. */
  lemma CatalogWellFormed()
    ensures Ids(Catalog()) == [1, 2, 3, 4, 5, 6]
    ensures UniqueIds(Catalog())
    ensures forall p :: p in Catalog() ==> p.category in {"game", "3d", "animation"}
    ensures forall p :: p in Catalog() ==> p.github.None? && p.demo.None?
  {
  }

  /** The media kinds the declared type allows. */
  predicate KnownKinds(ms: seq<Media>) {
    forall j :: 0 <= j < |ms| ==> ms[j].kind in {"image", "video", "gif", "link"}
  }

  /** Every record of the catalog carries media, each of a declared kind. */
  lemma CatalogMediaKinds()
    ensures forall i :: 0 <= i < |Catalog()| ==>
      Catalog()[i].media.Some? && KnownKinds(Catalog()[i].media.value)
  {
    assert KnownKinds(SpaceExplorer().media.value);
    assert KnownKinds(FantasyCharacters().media.value);
    assert KnownKinds(PuzzleQuest().media.value);
    assert KnownKinds(SciFiEnvironment().media.value);
    assert KnownKinds(MedievalAdventure().media.value);
    assert KnownKinds(AnimationReel().media.value);
  }

  /** The 'game' button shows records 1, 3 and 5, in that order. */
  lemma GameButton()
    ensures Visible("game") == [SpaceExplorer(), PuzzleQuest(), MedievalAdventure()]
    ensures Ids(Visible("game")) == [1, 3, 5]
  {
    assert Select(Catalog(), "game") == [SpaceExplorer(), PuzzleQuest(), MedievalAdventure()];
  }

  /** The '3d' button shows records 2 and 4. */
  lemma ModelsButton()
    ensures Visible("3d") == [FantasyCharacters(), SciFiEnvironment()]
    ensures Ids(Visible("3d")) == [2, 4]
  {
    assert Select(Catalog(), "3d") == [FantasyCharacters(), SciFiEnvironment()];
  }

  /** The 'animation' button shows record 6 alone. */
  lemma AnimationButton()
    ensures Visible("animation") == [AnimationReel()]
    ensures Ids(Visible("animation")) == [6]
  {
    assert Select(Catalog(), "animation") == [AnimationReel()];
  }

  /** Every button has cards behind it, and 'all' shows the catalog as it is. */
  lemma EveryButtonNonEmpty()
    ensures Visible("all") == Catalog()
    ensures forall i :: 0 <= i < |Buttons()| ==> |Visible(Buttons()[i].token)| > 0
  {
    GameButton();
    ModelsButton();
    AnimationButton();
  }

  /** A token with no records, such as 'design', gives an empty gallery. */
  lemma UnknownFilterIsEmpty(filter: string)
    requires filter !in {"all", "game", "3d", "animation"}
    ensures Visible(filter) == []
  {
    CatalogWellFormed();
    SelectNoMatch(Catalog(), filter);
  }

  /** A template literal renders a missing field as the text 'undefined'. */
  function TemplateText(o: Option<string>): string {
    o.GetOr("undefined")
  }

  /** A JSX child renders a missing field as nothing. */
  function JsxText(o: Option<string>): string {
    o.GetOr("")
  }

  /** The hover overlay line: `engine | type` for games, the role otherwise. */
  function OverlaySubtitle(p: Project): (r: string)
    ensures p.category == "game" && p.engine.Some? && p.projectType.Some? ==>
      r == p.engine.value + " | " + p.projectType.value
    ensures p.category == "game" ==> r == TemplateText(p.engine) + " | " + TemplateText(p.projectType)
    ensures p.category == "game" && p.engine.None? ==> r == "undefined | " + TemplateText(p.projectType)
    ensures p.category != "game" ==> r == JsxText(p.role)
  {
    if p.category == "game" then TemplateText(p.engine) + " | " + TemplateText(p.projectType)
    else JsxText(p.role)
  }

  /** The line under the card title: the type for games, the role otherwise. */
  function CardSubtitle(p: Project): (r: string)
    ensures p.category == "game" ==> r == JsxText(p.projectType)
    ensures p.category != "game" ==> r == JsxText(p.role)
  {
    if p.category == "game" then JsxText(p.projectType) else JsxText(p.role)
  }

  /** Every game in the catalog has an engine and a type, and every record a
      subtitle, so no card ever shows 'undefined' or an empty subtitle. */
  lemma SubtitlesComplete()
    ensures forall i :: 0 <= i < |Catalog()| && Catalog()[i].category == "game" ==>
      Catalog()[i].engine.Some? && Catalog()[i].projectType.Some?
    ensures forall i :: 0 <= i < |Catalog()| ==> CardSubtitle(Catalog()[i]) != ""
  {
  }

  /** What a card click asks of the page router: go to the detail page with
      this exact record. */
  datatype Request = Request(page: string, project: Option<Project>)

  function CardClick(p: Project): (r: Request)
    ensures r.page == "projectDetail" && r.project == Some(p)
  {
    Request("projectDetail", Some(p))
  }
}
