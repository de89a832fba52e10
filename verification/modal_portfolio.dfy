/** The gallery of the single-page site: its six-record catalog, the filter
    buttons with capitalised labels, the detail chips and the hand-off to the
    detail modal. */
module ModalPortfolio {
  import opened Optional
  import opened Projects
  import opened Text

  /** A placehold.co image url: `size` pixels, background colour `colour`,
      white caption `text`. */
  function Placehold(size: string, colour: string, text: string): string {
    "https://placehold.co/" + size + "/" + colour + "/ffffff?text=" + text
  }

  // The long texts of the records below are split into concatenated
  // literals, each spelling exactly the text the site shows.

  function Shot(url: string): Media { Media("image", url, None) }

  function ProjectAlpha(): Project {
    Project(1, "Project Alpha", "game", Placehold("600x400", "3b0764", "Game+Project"),
      Some("Unity"), Some("3D Adventure"), Some("PC, Console"), Some("Lead Developer"),
      Some("2023-2024"), Some(Headcount(5)),
      Some("A captivating " + "adventure game with " + "innovative " + "mechanics and " + "stunning visuals."),
      Some([Shot(Placehold("800x600", "3b0764", "Screenshot+1")),
            Shot(Placehold("800x600", "3b0764", "Screenshot+2")),
            Media("video", "#", Some("Gameplay Trailer"))]),
      Some("https://github.com/" + "username/project-" + "alpha"),
      Some("https://demo-link." + "com/project-alpha"))
  }

  function CharacterPack(): Project {
    Project(2, "3D Character Pack", "3d", Placehold("600x400", "4c1d95", "3D+Models"),
      None, None, None, Some("3D Character Artist"), Some("2022"), None,
      Some("A collection of " + "high-quality 3D " + "character models " + "for games and " + "animations."),
      Some([Shot(Placehold("800x600", "4c1d95", "Character+1")),
            Shot(Placehold("800x600", "4c1d95", "Character+2"))]),
      None, None)
  }

  function PuzzleQuest(): Project {
    Project(3, "Puzzle Quest", "game", Placehold("600x400", "5b21b6", "Puzzle+Game"),
      Some("Unreal Engine"), Some("Puzzle"), Some("Mobile"), Some("Game Designer & Developer"),
      Some("2021-2022"), Some(Headcount(3)),
      Some("A challenging " + "puzzle game with " + "unique mechanics " + "and beautiful " + "visuals."),
      Some([Shot(Placehold("800x600", "5b21b6", "Puzzle+Screenshot+1")),
            Shot(Placehold("800x600", "5b21b6", "Puzzle+Screenshot+2"))]),
      None, None)
  }

  function SciFiEnvironment(): Project {
    Project(4, "Sci-Fi Environment", "3d", Placehold("600x400", "6d28d9", "Environment"),
      None, None, None, Some("Environment Artist"), Some("2021"), None,
      Some("A detailed sci-fi " + "environment " + "designed for next-" + "gen games."),
      Some([Shot(Placehold("800x600", "6d28d9", "Environment+1")),
            Shot(Placehold("800x600", "6d28d9", "Environment+2"))]),
      None, None)
  }

  function FantasyRpg(): Project {
    Project(5, "Fantasy RPG", "game", Placehold("600x400", "7c3aed", "RPG+Game"),
      Some("Unity"), Some("Action RPG"), Some("PC"), Some("Technical Artist & Developer"),
      Some("2020-2021"), Some(Headcount(4)),
      Some("An immersive " + "fantasy RPG with " + "rich storytelling " + "and dynamic combat."),
      Some([Shot(Placehold("800x600", "7c3aed", "RPG+Screenshot+1")),
            Shot(Placehold("800x600", "7c3aed", "RPG+Screenshot+2"))]),
      None, None)
  }

  function AnimationReel(): Project {
    Project(6, "Animation Reel", "animation", Placehold("600x400", "8b5cf6", "Animation"),
      None, None, None, Some("Animator"), Some("2020"), None,
      Some("A showcase of " + "character " + "animations for " + "various game " + "projects."),
      Some([Media("video", "#", Some("Animation Reel"))]),
      None, None)
  }

  /** The hard-coded catalog, in display order. */
  function Catalog(): seq<Project> {
    [ProjectAlpha(), CharacterPack(), PuzzleQuest(), SciFiEnvironment(),
     FantasyRpg(), AnimationReel()]
  }

  /** The filter the gallery starts with. */
  const InitialFilter: string := AllFilter

  /** The filter buttons, in display order. */
  function Buttons(): seq<string> {
    ["all", "web", "game", "mobile", "design"]
  }

  /** A button's text: its token with the first character upper-cased. */
  function ButtonLabel(token: string): (r: string)
    ensures |r| == |token|
    ensures |token| > 0 ==> r[0] == ToUpper(token[0]) && r[1..] == token[1..]
  {
    Capitalize(token)
  }

  /** A button is drawn highlighted exactly when it holds the current filter. */
  predicate Highlighted(filter: string, token: string) {
    filter == token
  }

  /** The gallery opens on 'all', and any filter highlights at most one
      button, exactly one when it is a button's token. */
  lemma OneButtonHighlighted(filter: string)
    ensures Highlighted(InitialFilter, Buttons()[0])
    ensures forall i, j :: 0 <= i < j < |Buttons()| ==>
      !(Highlighted(filter, Buttons()[i]) && Highlighted(filter, Buttons()[j]))
    ensures (exists i :: 0 <= i < |Buttons()| && Highlighted(filter, Buttons()[i])) <==>
      filter in {"all", "web", "game", "mobile", "design"}
  {
    if filter in {"all", "web", "game", "mobile", "design"} {
      var i := if filter == "all" then 0 else if filter == "web" then 1
        else if filter == "game" then 2 else if filter == "mobile" then 3 else 4;
      assert Highlighted(filter, Buttons()[i]);
    }
  }

  /** The cards the gallery shows under `filter`. */
  function Visible(filter: string): seq<Project> {
    Filter(Catalog(), filter)
  }

  /** The button texts are 'All', 'Web', 'Game', 'Mobile' and 'Design', and
      lower-casing their first letter gives each token back. */
  lemma ButtonLabels()
    ensures ButtonLabel("all") == "All" && ButtonLabel("web") == "Web"
    ensures ButtonLabel("game") == "Game" && ButtonLabel("mobile") == "Mobile"
    ensures ButtonLabel("design") == "Design"
    ensures forall i :: 0 <= i < |Buttons()| ==> Uncapitalize(ButtonLabel(Buttons()[i])) == Buttons()[i]
  {
    assert ButtonLabel("all") == ['A'] + "ll";
    assert ButtonLabel("web") == ['W'] + "eb";
    assert ButtonLabel("game") == ['G'] + "ame";
    assert ButtonLabel("mobile") == ['M'] + "obile";
    assert ButtonLabel("design") == ['D'] + "esign";
    forall i | 0 <= i < |Buttons()|
      ensures Uncapitalize(ButtonLabel(Buttons()[i])) == Buttons()[i]
    {
      CapitalizeRoundTrip(Buttons()[i]);
    }
  }

  /** The catalog's shape: ids 1..6 in order and the categories game, 3d, game,
      3d, game, animation. */
  lemma CatalogWellFormed()
    ensures Ids(Catalog()) == [1, 2, 3, 4, 5, 6]
    ensures UniqueIds(Catalog())
    ensures seq(6, i requires 0 <= i < 6 => Catalog()[i].category)
      == ["game", "3d", "game", "3d", "game", "animation"]
  {
  }

  /** The 'game' button shows records 1, 3 and 5, in that order. */
  lemma GameButton()
    ensures Visible("game") == [ProjectAlpha(), PuzzleQuest(), FantasyRpg()]
    ensures Ids(Visible("game")) == [1, 3, 5]
  {
    assert Select(Catalog(), "game") == [ProjectAlpha(), PuzzleQuest(), FantasyRpg()];
  }

  /** A token no record carries gives an empty gallery, not an error. */
  lemma UnknownFilterIsEmpty(filter: string)
    requires filter !in {"all", "game", "3d", "animation"}
    ensures Visible(filter) == []
  {
    CatalogWellFormed();
    assert forall i :: 0 <= i < |Catalog()| ==> Catalog()[i].category in {"game", "3d", "animation"};
    SelectNoMatch(Catalog(), filter);
  }

  /** Among the buttons other than 'all' only 'game' matches any record:
      'web', 'mobile' and 'design' show nothing, so the 3D and animation
      records appear only under 'all'. */
  lemma DeadButtons()
    ensures forall i :: 1 <= i < |Buttons()| && Buttons()[i] != "game" ==>
      Visible(Buttons()[i]) == []
    ensures Visible("all") == Catalog()
  {
    UnknownFilterIsEmpty("web");
    UnknownFilterIsEmpty("mobile");
    UnknownFilterIsEmpty("design");
  }

  /** The category line of a card's hover overlay, upper-cased. */
  function Badge(p: Project): (r: string)
    ensures r == UpperCase(p.category)
    ensures forall i :: 0 <= i < |r| ==> !IsLowerAscii(r[i])
  {
    UpperCaseIdempotent(p.category);
    UpperCase(p.category)
  }

  /** The catalog's overlays read GAME, 3D, GAME, 3D, GAME, ANIMATION. */
  lemma CatalogBadges()
    ensures seq(6, i requires 0 <= i < 6 => Badge(Catalog()[i]))
      == ["GAME", "3D", "GAME", "3D", "GAME", "ANIMATION"]
  {
    assert UpperCase("game") == "GAME";
    assert UpperCase("3d") == "3D";
    assert UpperCase("animation") == "ANIMATION";
    CatalogWellFormed();
  }

  /** A chip under a card. */
  datatype Chip = EngineChip(text: string) | TypeChip(text: string) | PlatformChip(text: string)

  /** `field && <span>`: a missing field and an empty string are both falsy. */
  predicate Truthy(field: Option<string>) {
    field.Some? && field.value != ""
  }

  /** A chip's place in the row: engine first, then type, then platform. */
  function Rank(c: Chip): nat {
    match c
    case EngineChip(_) => 0
    case TypeChip(_) => 1
    case PlatformChip(_) => 2
  }

  predicate HasEngineChip(cs: seq<Chip>) { exists i :: 0 <= i < |cs| && cs[i].EngineChip? }

  predicate HasTypeChip(cs: seq<Chip>) { exists i :: 0 <= i < |cs| && cs[i].TypeChip? }

  predicate HasPlatformChip(cs: seq<Chip>) { exists i :: 0 <= i < |cs| && cs[i].PlatformChip? }

  /** The chips of a card: engine, type, platform, in that order, each shown
      exactly when its field is truthy, and carrying that field's text. */
  function Chips(p: Project): (r: seq<Chip>)
    ensures HasEngineChip(r) <==> Truthy(p.engine)
    ensures HasTypeChip(r) <==> Truthy(p.projectType)
    ensures HasPlatformChip(r) <==> Truthy(p.platform)
    ensures forall i :: 0 <= i < |r| ==>
      (r[i].EngineChip? ==> Some(r[i].text) == p.engine) &&
      (r[i].TypeChip? ==> Some(r[i].text) == p.projectType) &&
      (r[i].PlatformChip? ==> Some(r[i].text) == p.platform)
    ensures forall i, j :: 0 <= i < j < |r| ==> Rank(r[i]) < Rank(r[j])
    ensures |r| <= 3
  {
    var e := if Truthy(p.engine) then [EngineChip(p.engine.value)] else [];
    var t := if Truthy(p.projectType) then [TypeChip(p.projectType.value)] else [];
    var f := if Truthy(p.platform) then [PlatformChip(p.platform.value)] else [];
    var r := e + t + f;
    assert Truthy(p.engine) ==> r[0].EngineChip?;
    assert Truthy(p.projectType) ==> r[|e|].TypeChip?;
    assert Truthy(p.platform) ==> r[|e| + |t|].PlatformChip?;
    r
  }

  /** The text a chip row shows for the chip of rank `rank`, if it has one. */
  function ChipText(cs: seq<Chip>, rank: nat): Option<string>
    decreases |cs|
  {
    if cs == [] then None
    else if Rank(cs[0]) == rank then Some(cs[0].text)
    else ChipText(cs[1..], rank)
  }

  /** A row has text for a rank exactly when it holds a chip of that rank, and
      the text is that of such a chip. */
  lemma {:induction false} ChipTextFound(cs: seq<Chip>, rank: nat)
    ensures ChipText(cs, rank).None? <==> forall i :: 0 <= i < |cs| ==> Rank(cs[i]) != rank
    ensures ChipText(cs, rank).Some? ==>
      exists i :: 0 <= i < |cs| && Rank(cs[i]) == rank && ChipText(cs, rank).value == cs[i].text
    decreases |cs|
  {
    if cs != [] && Rank(cs[0]) != rank {
      ChipTextFound(cs[1..], rank);
      if ChipText(cs, rank).Some? {
        var i :| 0 <= i < |cs[1..]| && Rank(cs[1..][i]) == rank && ChipText(cs, rank).value == cs[1..][i].text;
        assert Rank(cs[i + 1]) == rank;
      } else {
        forall i | 0 <= i < |cs| ensures Rank(cs[i]) != rank {
          if i > 0 { assert cs[i] == cs[1..][i - 1]; }
        }
      }
    }
  }

  /** The chip row loses nothing: reading it back gives each truthy field and
      no text for a falsy one. */
  lemma ChipsReadBack(p: Project)
    ensures ChipText(Chips(p), 0) == (if Truthy(p.engine) then p.engine else None)
    ensures ChipText(Chips(p), 1) == (if Truthy(p.projectType) then p.projectType else None)
    ensures ChipText(Chips(p), 2) == (if Truthy(p.platform) then p.platform else None)
  {
    var r := Chips(p);
    ChipTextFound(r, 0);
    ChipTextFound(r, 1);
    ChipTextFound(r, 2);
  }

  /** "View Details" hands this exact record to the selection callback. */
  function ViewDetails(p: Project): (r: Option<Project>)
    ensures r.Some? && r.value == p
  {
    Some(p)
  }
}
