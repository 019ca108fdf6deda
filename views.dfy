/**
 * `ProjectViewSet`: the read-only project endpoint. The list reads its
 * filters from the query string; the detail looks a project up by slug in
 * the same filtered queryset.
 */
module ProjectViews {
  import opened Wrappers
  import opened Text
  import opened QuerySets
  import opened FilterService
  import ProjectFilters

  /** The query string as its `(name, value)` pairs, in order; a name may repeat. */
  type QueryDict = seq<(string, string)>

  /** `query_params.getlist(name)`: every value given for the name, in order. */
  function GetList(q: QueryDict, name: string): (r: seq<string>)
    ensures |r| <= |q|
    ensures forall v :: v in r <==> (name, v) in q
  {
    if |q| == 0 then []
    else (if q[0].0 == name then [q[0].1] else []) + GetList(q[1..], name)
  }

  /** The values are collected pair by pair, so they keep the query string's order and repetitions. */
  lemma {:induction false} GetListAppend(a: QueryDict, b: QueryDict, name: string)
    ensures GetList(a + b, name) == GetList(a, name) + GetList(b, name)
  {
    if |a| > 0 {
      assert (a + b)[0] == a[0] && (a + b)[1..] == a[1..] + b;
      GetListAppend(a[1..], b, name);
    } else {
      assert a + b == b;
    }
  }

  /** `query_params.get(name, default)`: the last value given for the name. */
  function GetLast(q: QueryDict, name: string, default: string): (r: string)
    ensures GetList(q, name) == [] ==> r == default
    ensures GetList(q, name) != [] ==> r == GetList(q, name)[|GetList(q, name)| - 1]
  {
    if |q| == 0 then default
    else
      var rest := GetLast(q[1..], name, default);
      if GetList(q[1..], name) != [] then rest
      else if q[0].0 == name then q[0].1
      else default
  }

  /** The arguments `get_queryset` hands to the filter service. */
  datatype ListArguments = ListArguments(status: seq<string>, technologySlugs: Option<seq<string>>, ordering: string)

  /** The `technologies` parameter: `None` when empty, otherwise the trimmed non-empty comma-separated tokens. */
  function TechnologySlugs(param: string): (r: Option<seq<string>>)
    ensures r.None? <==> param == ""
    ensures r.Some? ==> forall i :: 0 <= i < |r.value| ==> r.value[i] != "" && IsTrimmed(r.value[i]) && ',' !in r.value[i]
  {
    if param == "" then None else Some(NonBlankTokens(Split(param, ',')))
  }

  /** The parameter parsing of `get_queryset`. */
  function ListArgumentsOf(q: QueryDict): (r: ListArguments)
    ensures r.status == GetList(q, "status")
    ensures r.technologySlugs == TechnologySlugs(GetLast(q, "technologies", ""))
    ensures r.ordering == GetLast(q, "ordering", DefaultOrdering)
    ensures GetList(q, "ordering") == [] ==> r.ordering == DefaultOrdering
  {
    ListArguments(
      GetList(q, "status"),
      TechnologySlugs(GetLast(q, "technologies", "")),
      GetLast(q, "ordering", DefaultOrdering))
  }

  /** `ProjectViewSet.get_queryset()` over the project table. */
  function ViewQueryset(table: seq<Row>, q: QueryDict): seq<Row> {
    var a := ListArgumentsOf(q);
    GetQueryset(table, a.status, a.technologySlugs, Some(a.ordering))
  }

  /**
   * A slug is in the list exactly when it is non-empty and some
   * comma-separated piece of the parameter trims to it.
   */
  lemma TechnologySlugsMembers(param: string, x: string)
    requires param != ""
    ensures x in TechnologySlugs(param).value <==> x != "" && exists i :: 0 <= i < |Split(param, ',')| && Trim(Split(param, ',')[i]) == x
  {
    var parts := Split(param, ',');
    assert TechnologySlugs(param).value == NonBlankTokens(parts);
    NonBlankTokensMembers(parts, x);
    if x in TechnologySlugs(param).value {
      var i :| 0 <= i < |parts| && Trim(parts[i]) == x;
      assert Trim(Split(param, ',')[i]) == x;
    }
  }

  /**
   * Over the whitespace both languages share (the six characters of
   * `Text.IsSpace`), the server reads a non-empty `technologies` parameter
   * as the client's `parseTechnologies` would. The programs differ beyond
   * it: `str.strip` also removes U+001C-U+001F and U+0085, which `trim`
   * keeps, and `trim` removes U+FEFF, which `strip` keeps.
   */
  lemma TechnologySlugsAsClient(param: string)
    ensures param != "" ==> TechnologySlugs(param) == Some(ProjectFilters.ParseTechnologies(Some(param)))
    ensures param == "" ==> TechnologySlugs(param) == None && ProjectFilters.ParseTechnologies(Some(param)) == []
  {
  }

  /** Parts made only of blanks yield no token. */
  lemma {:induction false} BlankTokens(parts: seq<string>)
    requires forall i :: 0 <= i < |parts| ==> forall j :: 0 <= j < |parts[i]| ==> IsSpace(parts[i][j])
    ensures NonBlankTokens(parts) == []
  {
    if |parts| > 0 {
      TrimBlank(parts[0]);
      BlankTokens(parts[1..]);
    }
  }

  /**
   * A `technologies` parameter made of commas and blanks gives `[]`, not
   * `None`, and so no technology filter: the same queryset as no parameter.
   */
  lemma CommasOnlyIsNoFilter(table: seq<Row>, q: QueryDict, param: string)
    requires param != "" && forall i :: 0 <= i < |param| ==> param[i] == ',' || IsSpace(param[i])
    ensures TechnologySlugs(param) == Some([])
    ensures GetQueryset(table, GetList(q, "status"), TechnologySlugs(param), Some(GetLast(q, "ordering", DefaultOrdering))) ==
            GetQueryset(table, GetList(q, "status"), None, Some(GetLast(q, "ordering", DefaultOrdering)))
  {
    var parts := Split(param, ',');
    forall i, j | 0 <= i < |parts| && 0 <= j < |parts[i]| ensures IsSpace(parts[i][j]) {
      var c := parts[i][j];
      assert c in parts[i];
      SplitChars(param, ',', i, c);
      var k :| 0 <= k < |param| && param[k] == c;
    }
    BlankTokens(parts);
  }

  /** Repeated `status` parameters are all kept, and a comma inside one is not a separator. */
  lemma StatusIsNotSplit(v: string)
    ensures ListArgumentsOf([("status", v)]).status == [v]
  {
  }

  /** Which serializer renders the response. */
  datatype SerializerClass = ListSerializer | DetailSerializer

  /** `get_serializer_class()`. */
  function SerializerFor(action: string): (r: SerializerClass)
    ensures r == DetailSerializer <==> action == "retrieve"
  {
    if action == "retrieve" then DetailSerializer else ListSerializer
  }

  /** The outcome of `get_object()` on the slug of the address. */
  datatype Lookup = Found(row: Row) | NotFound | MultipleFound

  /** `retrieve`: the rows of the filtered queryset with the slug (`lookup_field = "slug"`). */
  function Retrieve(table: seq<Row>, q: QueryDict, slug: string): (r: Lookup)
    ensures r.Found? ==> r.row.slug == slug
  {
    var matches := Keep(ViewQueryset(table, q), SlugIs(slug));
    if |matches| == 0 then NotFound
    else if |matches| == 1 then
      KeepMember(ViewQueryset(table, q), SlugIs(slug), matches[0]);
      Found(matches[0])
    else MultipleFound
  }

  /**
   * The detail finds the project with the slug exactly when it passes the
   * list filters of the same query string, and answers "not found"
   * otherwise, an unknown slug included.
   */
  lemma RetrieveSpec(table: seq<Row>, q: QueryDict, slug: string)
    requires NoDuplicates(table) && UniqueSlugs(table)
    ensures var a := ListArgumentsOf(q);
            forall x :: Retrieve(table, q, slug) == Found(x) <==>
                          x in table && x.slug == slug && Passes(x, a.status, a.technologySlugs)
    ensures var a := ListArgumentsOf(q);
            Retrieve(table, q, slug) == NotFound <==>
            forall x :: x in table && x.slug == slug ==> !Passes(x, a.status, a.technologySlugs)
  {
    var a := ListArgumentsOf(q);
    if exists x :: x in table && x.slug == slug && Passes(x, a.status, a.technologySlugs) {
      var x :| x in table && x.slug == slug && Passes(x, a.status, a.technologySlugs);
      MatchesOfPassing(table, q, slug, x);
    } else {
      MatchesNone(table, q, slug);
    }
  }

  /** How often a row is in the view's queryset. */
  lemma ViewCount(table: seq<Row>, q: QueryDict, y: Row)
    requires NoDuplicates(table)
    ensures var a := ListArgumentsOf(q);
            multiset(ViewQueryset(table, q))[y] == if Passes(y, a.status, a.technologySlugs) then multiset(table)[y] else 0
  {
    var a := ListArgumentsOf(q);
    FilteredCount(table, a.status, a.technologySlugs, y);
  }

  lemma MatchesOfPassing(table: seq<Row>, q: QueryDict, slug: string, x: Row)
    requires NoDuplicates(table) && UniqueSlugs(table)
    requires x in table && x.slug == slug && Passes(x, ListArgumentsOf(q).status, ListArgumentsOf(q).technologySlugs)
    ensures Keep(ViewQueryset(table, q), SlugIs(slug)) == [x]
  {
    var qs := ViewQueryset(table, q);
    forall y: Row ensures multiset(qs)[y] <= multiset(table)[y] {
      ViewCount(table, q, y);
    }
    ViewCount(table, q, x);
    UniqueMatch(qs, table, slug, x);
  }

  lemma MatchesNone(table: seq<Row>, q: QueryDict, slug: string)
    requires NoDuplicates(table)
    requires forall x :: x in table && x.slug == slug ==> !Passes(x, ListArgumentsOf(q).status, ListArgumentsOf(q).technologySlugs)
    ensures Keep(ViewQueryset(table, q), SlugIs(slug)) == []
  {
    var qs := ViewQueryset(table, q);
    var m := Keep(qs, SlugIs(slug));
    forall y: Row ensures multiset(m)[y] == 0 {
      ViewCount(table, q, y);
      KeepCount(qs, SlugIs(slug), y);
    }
    assert multiset(m) == multiset{};
  }

  /** An unknown slug is not found, whatever the query string. */
  lemma UnknownSlugNotFound(table: seq<Row>, q: QueryDict, slug: string)
    requires NoDuplicates(table) && UniqueSlugs(table)
    requires forall x :: x in table ==> x.slug != slug
    ensures Retrieve(table, q, slug) == NotFound
  {
    RetrieveSpec(table, q, slug);
  }
}
