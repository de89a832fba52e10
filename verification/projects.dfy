/** The project record both portfolio variants share, and the category filter
    behind their gallery. */
module Projects {
  import opened Optional

  /** One entry of a project's media list (`caption` is the source's `label`); `kind` is 'image', 'video', 'gif' or
      'link' in the catalogs, and any string in the declared type. */
  datatype Media = Media(kind: string, url: string, caption: Option<string>)

  /** `teamSize?: number | string`; numbers in the catalogs are integral. */
  datatype TeamSize = Headcount(n: int) | Described(text: string)

  /** A project record; every `?` field of the source is an `Option`.
      `projectType` is the source's `type` field. `github` and `demo` exist
      only in the modal variant and are `None` in the paged catalog. */
  datatype Project = Project(
    id: int,
    title: string,
    category: string,
    image: string,
    engine: Option<string>,
    projectType: Option<string>,
    platform: Option<string>,
    role: Option<string>,
    timeframe: Option<string>,
    teamSize: Option<TeamSize>,
    description: Option<string>,
    media: Option<seq<Media>>,
    github: Option<string>,
    demo: Option<string>)

  /** The filter token that shows every record. */
  const AllFilter: string := "all"

  /** `a` is `b` with some elements removed and the rest in their order. */
  predicate IsSubsequence<T(==)>(a: seq<T>, b: seq<T>)
    decreases |b|
  {
    if |a| == 0 then true
    else if |b| == 0 then false
    else if a[0] == b[0] && IsSubsequence(a[1..], b[1..]) then true
    else IsSubsequence(a, b[1..])
  }

  /** `projects.filter(project => project.category === c)`. What it computes
      is stated by `SelectSpec`. */
  function Select(ps: seq<Project>, c: string): seq<Project>
    decreases |ps|
  {
    if |ps| == 0 then []
    else if ps[0].category == c then [ps[0]] + Select(ps[1..], c)
    else Select(ps[1..], c)
  }

  /** The selection holds the records of category `c`, each as often as in
      `ps`, in catalog order: a subsequence of `ps` with exactly the matching
      multiset, so nothing else and nothing reordered. */
  lemma {:induction false} SelectSpec(ps: seq<Project>, c: string)
    ensures IsSubsequence(Select(ps, c), ps)
    ensures forall i :: 0 <= i < |Select(ps, c)| ==> Select(ps, c)[i].category == c
    ensures forall p :: multiset(Select(ps, c))[p] == if p.category == c then multiset(ps)[p] else 0
    decreases |ps|
  {
    if |ps| > 0 {
      var rest := Select(ps[1..], c);
      SelectSpec(ps[1..], c);
      assert ps == [ps[0]] + ps[1..];
      if ps[0].category == c {
        assert ([ps[0]] + rest)[1..] == rest;
      }
    }
  }

  /** The gallery's `filteredProjects`: the whole catalog for 'all', the
      records of one category otherwise. Stated by `FilterSpec`. */
  function Filter(ps: seq<Project>, filter: string): seq<Project> {
    if filter == AllFilter then ps else Select(ps, filter)
  }

  /** 'all' is the identity; any other token keeps, in catalog order, exactly
      the records whose category equals it. */
  lemma FilterSpec(ps: seq<Project>, filter: string)
    ensures filter == AllFilter ==> Filter(ps, filter) == ps
    ensures filter != AllFilter ==> IsSubsequence(Filter(ps, filter), ps)
    ensures filter != AllFilter ==> forall p ::
      p in Filter(ps, filter) <==> p in ps && p.category == filter
    ensures forall p :: p in Filter(ps, filter) ==> p in ps
  {
    if filter != AllFilter {
      SelectSpec(ps, filter);
      var r := Select(ps, filter);
      assert forall p :: p in r <==> multiset(r)[p] > 0;
    }
  }

  /** A filter that every record matches keeps the catalog as it is. */
  lemma {:induction false} SelectEveryMatch(ps: seq<Project>, c: string)
    requires forall i :: 0 <= i < |ps| ==> ps[i].category == c
    ensures Select(ps, c) == ps
    decreases |ps|
  {
    if |ps| > 0 {
      SelectEveryMatch(ps[1..], c);
      assert ps == [ps[0]] + ps[1..];
    }
  }

  /** A filter that no record matches gives the empty gallery, not an error. */
  lemma {:induction false} SelectNoMatch(ps: seq<Project>, c: string)
    requires forall i :: 0 <= i < |ps| ==> ps[i].category != c
    ensures Select(ps, c) == []
    decreases |ps|
  {
    if |ps| > 0 {
      SelectNoMatch(ps[1..], c);
    }
  }

  /** Filtering twice by the same token is filtering once. */
  lemma FilterIdempotent(ps: seq<Project>, filter: string)
    ensures Filter(Filter(ps, filter), filter) == Filter(ps, filter)
  {
    if filter != AllFilter {
      SelectSpec(ps, filter);
      SelectEveryMatch(Select(ps, filter), filter);
    }
  }

  /** The ids of a sequence of records, in order. */
  function Ids(ps: seq<Project>): (r: seq<int>)
    ensures |r| == |ps|
    ensures forall i :: 0 <= i < |ps| ==> r[i] == ps[i].id
  {
    seq(|ps|, i requires 0 <= i < |ps| => ps[i].id)
  }

  /** No two records share an id. */
  predicate UniqueIds(ps: seq<Project>) {
    forall i, j :: 0 <= i < j < |ps| ==> ps[i].id != ps[j].id
  }
}
