/**
 * The three query hooks of the projects feature: which key each query is
 * cached under, what it fetches, when it is enabled, and which page the
 * infinite list asks for next. The query library itself is not modelled.
 */
module ProjectsQuery {
  import opened Wrappers
  import opened ProjectTypes
  import opened QueryKeys

  const PageSize: nat := 12

  /** `initialPageParam`. */
  const InitialPageParam: nat := 1

  /** The call a query's `queryFn` makes: `list(filters, page)` or `getBySlug(slug)`. */
  datatype Fetch = FetchList(filters: Filters, page: int) | FetchDetail(slug: Option<string>)

  /** What a hook hands to the query library. */
  datatype QueryConfig = QueryConfig(key: Key, fetch: Fetch, enabled: bool, keepPreviousData: bool)

  /** JavaScript truthiness of `string | null`: non-null and non-empty. */
  predicate Truthy(s: Option<string>) {
    s.Some? && s.value != ""
  }

  /** `getNextPageParam`: the page after the loaded ones, unless the last page was the final one. */
  function NextPageParam(last: ProjectsListResponse, allPages: seq<ProjectsListResponse>): (r: Option<nat>)
    ensures r.Some? <==> Truthy(last.next) && |last.results| >= PageSize
    ensures r.Some? ==> r.value == |allPages| + 1
  {
    if Truthy(last.next) && |last.results| >= PageSize then Some(|allPages| + 1) else None
  }

  /** A page without a `next` link, or shorter than a full page, ends the list. */
  lemma NoNextPage(last: ProjectsListResponse, allPages: seq<ProjectsListResponse>)
    requires last.next.None? || |last.results| < PageSize
    ensures NextPageParam(last, allPages) == None
  {
  }

  /** Pages are requested as 1, 2, 3, ...: after `k` loaded pages the next one is `k + 1`, at least 2. */
  lemma NextPageFollowsLoaded(last: ProjectsListResponse, allPages: seq<ProjectsListResponse>)
    requires |allPages| >= InitialPageParam
    requires NextPageParam(last, allPages).Some?
    ensures NextPageParam(last, allPages).value >= InitialPageParam + 1
  {
  }

  /** `useProjectsQuery(filters, page)`. */
  function ListQuery(filters: Filters, page: int): (c: QueryConfig)
    ensures c.key == ListKey(filters, page) && c.fetch == FetchList(filters, page)
  {
    QueryConfig(ListKey(filters, page), FetchList(filters, page), true, true)
  }

  /** Equal list keys always fetch the same thing: the cache never serves another selection's data. */
  lemma ListQueryKeyDeterminesFetch(f1: Filters, p1: int, f2: Filters, p2: int)
    ensures ListQuery(f1, p1).key == ListQuery(f2, p2).key <==> ListQuery(f1, p1).fetch == ListQuery(f2, p2).fetch
  {
    ListKeyInjective(f1, p1, f2, p2);
  }

  /** The key of `useProjectsInfiniteQuery(filters)`. */
  function InfiniteKey(filters: Filters): Key {
    All + [Word("infinite"), FilterPart(filters)]
  }

  /** The infinite list shares the `all` prefix but never the key of a page or detail query. */
  lemma InfiniteKeyDistinct(filters: Filters, f: Filters, page: int, slug: string)
    ensures All <= InfiniteKey(filters)
    ensures InfiniteKey(filters) != ListKey(f, page) && InfiniteKey(filters) != DetailKey(slug)
  {
    assert InfiniteKey(filters)[1] == Word("infinite");
    assert ListKey(f, page)[1] == Word("list");
    assert DetailKey(slug)[1] == Word("detail");
  }

  /** `useProjectDetailQuery(slug)`: a null slug is keyed as `""`; only a non-empty slug is fetched. */
  function DetailQuery(slug: Option<string>): (c: QueryConfig)
    ensures c.enabled <==> Truthy(slug)
    ensures c.key == DetailKey(slug.GetOr(""))
  {
    QueryConfig(DetailKey(slug.GetOr("")), FetchDetail(slug), slug.Some? && slug.value != "", false)
  }

  /** An enabled detail query fetches exactly the slug it is keyed by. */
  lemma DetailQueryEnabledFetch(slug: Option<string>)
    requires DetailQuery(slug).enabled
    ensures DetailQuery(slug).fetch == FetchDetail(Some(slug.value))
    ensures DetailQuery(slug).key == DetailKey(slug.value) && slug.value != ""
  {
  }
}
