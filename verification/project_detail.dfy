/** The project detail view: every optional field of the record is resolved to
    a string before anything is drawn, so the view is total on any record. */
module ProjectDetail {
  import opened Optional
  import opened Projects
  import opened Text

  const DefaultEngine: string := "Generic Engine"
  const DefaultType: string := "Generic Type"
  const DefaultPlatform: string := "Generic Platform"
  const DefaultRole: string := "Generic Role"
  const DefaultTimeframe: string := "Generic Timeframe"
  const DefaultTeamSize: string := "Generic Team Size"
  const DefaultDescription: string := "A detailed " + "description of this " + "project is coming " + "soon."
  const DefaultLink: string := "#"
  const PlaceholderUrl: string := "https://via." + "placeholder.com/" + "800x450?text=" + "Project+Image"

  /** The media list used when a record has none at all. */
  function DefaultMedia(): seq<Media> {
    [Media("image", PlaceholderUrl, None)]
  }

  /** A record with every optional field filled in. */
  datatype Resolved = Resolved(
    title: string,
    category: string,
    engine: string,
    projectType: string,
    platform: string,
    role: string,
    timeframe: string,
    teamSize: TeamSize,
    description: string,
    media: seq<Media>,
    github: string,
    demo: string)

  /** The destructuring with defaults: a present field is kept exactly, even an
      empty string or an empty media list; only an absent one is replaced. */
  function Resolve(p: Project): (r: Resolved)
    ensures r.title == p.title && r.category == p.category
    ensures p.engine.Some? ==> r.engine == p.engine.value
    ensures p.engine.None? ==> r.engine == DefaultEngine
    ensures p.projectType.Some? ==> r.projectType == p.projectType.value
    ensures p.projectType.None? ==> r.projectType == DefaultType
    ensures p.platform.Some? ==> r.platform == p.platform.value
    ensures p.platform.None? ==> r.platform == DefaultPlatform
    ensures p.role.Some? ==> r.role == p.role.value
    ensures p.role.None? ==> r.role == DefaultRole
    ensures p.timeframe.Some? ==> r.timeframe == p.timeframe.value
    ensures p.timeframe.None? ==> r.timeframe == DefaultTimeframe
    ensures p.teamSize.Some? ==> r.teamSize == p.teamSize.value
    ensures p.teamSize.None? ==> r.teamSize == Described(DefaultTeamSize)
    ensures p.description.Some? ==> r.description == p.description.value
    ensures p.description.None? ==> r.description == DefaultDescription
    ensures p.media.Some? ==> r.media == p.media.value
    ensures p.media.None? ==> r.media == DefaultMedia()
    ensures p.github.Some? ==> r.github == p.github.value
    ensures p.github.None? ==> r.github == DefaultLink
    ensures p.demo.Some? ==> r.demo == p.demo.value
    ensures p.demo.None? ==> r.demo == DefaultLink
  {
    Resolved(
      p.title, p.category,
      p.engine.GetOr(DefaultEngine),
      p.projectType.GetOr(DefaultType),
      p.platform.GetOr(DefaultPlatform),
      p.role.GetOr(DefaultRole),
      p.timeframe.GetOr(DefaultTimeframe),
      p.teamSize.GetOr(Described(DefaultTeamSize)),
      p.description.GetOr(DefaultDescription),
      p.media.GetOr(DefaultMedia()),
      p.github.GetOr(DefaultLink),
      p.demo.GetOr(DefaultLink))
  }

  /** The record a resolved record came from if every field had been given. */
  function Complete(id: int, image: string, r: Resolved): (p: Project)
    ensures p.id == id && p.image == image
    ensures p.title == r.title && p.category == r.category
    ensures p.engine == Some(r.engine) && p.projectType == Some(r.projectType)
    ensures p.platform == Some(r.platform) && p.role == Some(r.role)
    ensures p.timeframe == Some(r.timeframe) && p.teamSize == Some(r.teamSize)
    ensures p.description == Some(r.description) && p.media == Some(r.media)
    ensures p.github == Some(r.github) && p.demo == Some(r.demo)
  {
    Project(id, r.title, r.category, image, Some(r.engine), Some(r.projectType),
      Some(r.platform), Some(r.role), Some(r.timeframe), Some(r.teamSize),
      Some(r.description), Some(r.media), Some(r.github), Some(r.demo))
  }

  /** Resolving is idempotent: a record whose fields are all present resolves
      to itself, so defaults are applied once and never stack. */
  lemma ResolveIdempotent(p: Project)
    ensures Resolve(Complete(p.id, p.image, Resolve(p))) == Resolve(p)
  {
  }

  /** The subtle point of the media default: the resolved list is empty
      exactly when the record carries an empty list; an absent list becomes
      one placeholder image. */
  lemma EmptyMediaOnlyWhenGivenEmpty(p: Project)
    ensures Resolve(p).media == [] <==> p.media == Some([])
    ensures p.media.None? ==> |Resolve(p).media| == 1 && Resolve(p).media[0].kind == "image"
  {
  }

  /** `media[0]?.url || placeholder`: the first item's url when there is a
      first item and its url is not the empty string. */
  function HeaderUrl(media: seq<Media>): (r: string)
    ensures r != ""
    ensures |media| > 0 && media[0].url != "" ==> r == media[0].url
    ensures |media| == 0 || media[0].url == "" ==> r == PlaceholderUrl
  {
    if |media| > 0 && media[0].url != "" then media[0].url else PlaceholderUrl
  }

  /** The header image of a record: the placeholder exactly when the record has
      no media, an empty list, or a first item with an empty url (or the
      placeholder url itself); otherwise the first item's url. */
  lemma HeaderOfRecord(p: Project)
    ensures var h := HeaderUrl(Resolve(p).media);
      (h == PlaceholderUrl) <==>
        (p.media.None? || |p.media.value| == 0 || p.media.value[0].url in {"", PlaceholderUrl})
  {
  }

  /** A gallery tile: an image, or the grey "Media placeholder" box. */
  datatype Tile = Picture(url: string, alt: string) | Placeholder

  /** The alt text of the tile at 0-based position `index`. */
  function AltText(index: nat): string {
    "Project media " + NatToDecimal(index + 1)
  }

  /** One tile per media item, in order; a tile is a picture exactly when the
      item's kind is 'image', and then shows that item's url. */
  function Gallery(media: seq<Media>): (r: seq<Tile>)
    ensures |r| == |media|
    ensures forall i :: 0 <= i < |media| ==> (r[i].Picture? <==> media[i].kind == "image")
    ensures forall i :: 0 <= i < |media| && r[i].Picture? ==>
      r[i].url == media[i].url && r[i].alt == AltText(i)
  {
    seq(|media|, i requires 0 <= i < |media| =>
      if media[i].kind == "image" then Picture(media[i].url, AltText(i)) else Placeholder)
  }

  /** Picture tiles have distinct alt texts "Project media 1", "... 2", ... */
  lemma AltTextsDistinct(i: nat, j: nat)
    requires i != j
    ensures AltText(i) != AltText(j)
  {
    var pre := "Project media ";
    if AltText(i) == AltText(j) {
      assert AltText(i)[|pre|..] == NatToDecimal(i + 1);
      assert AltText(j)[|pre|..] == NatToDecimal(j + 1);
      ParseNatToDecimal(i + 1);
      ParseNatToDecimal(j + 1);
    }
  }

  /** `teamSize.toString()`: a number in decimal, a string unchanged. */
  function TeamSizeText(t: TeamSize): (r: string)
    ensures t.Headcount? ==>
              && |r| >= 1
              && (r[0] == '-' ==> AllDigits(r[1..]))
              && (r[0] != '-' ==> AllDigits(r))
              && ParseInt(r) == t.n
              && (r[0] == '-' <==> t.n < 0)
              && (r[0] == '0' ==> r == "0")
              && (r[0] == '-' ==> r[1] != '0')
    ensures t.Described? ==> r == t.text
  {
    match t
    case Headcount(n) => IntToDecimalRoundTrip(n); IntToDecimal(n)
    case Described(s) => s
  }

  /** A row of the "Project Details" panel. */
  datatype Row = Row(caption: string, value: string)

  /** The six detail rows, in display order. */
  function DetailRows(r: Resolved): (rows: seq<Row>)
    ensures |rows| == 6
    ensures rows[0] == Row("Type", r.projectType) && rows[1] == Row("Platform", r.platform)
    ensures rows[2] == Row("Engine/Framework", r.engine) && rows[3] == Row("Role", r.role)
    ensures rows[4] == Row("Timeframe", r.timeframe)
    ensures rows[5] == Row("Team Size", TeamSizeText(r.teamSize))
  {
    [Row("Type", r.projectType), Row("Platform", r.platform),
     Row("Engine/Framework", r.engine), Row("Role", r.role),
     Row("Timeframe", r.timeframe), Row("Team Size", TeamSizeText(r.teamSize))]
  }

  /** Totality: whatever the record, all six rows have a value, and a row is
      blank only when the record itself holds an empty string there; a
      missing field always shows its non-empty default. */
  lemma RowsBlankOnlyWhenGivenBlank(p: Project)
    ensures var rows := DetailRows(Resolve(p));
      (rows[0].value == "" <==> p.projectType == Some("")) &&
      (rows[1].value == "" <==> p.platform == Some("")) &&
      (rows[2].value == "" <==> p.engine == Some("")) &&
      (rows[3].value == "" <==> p.role == Some("")) &&
      (rows[4].value == "" <==> p.timeframe == Some("")) &&
      (rows[5].value == "" <==> p.teamSize == Some(Described("")))
  {
  }
}
