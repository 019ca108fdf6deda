/**
 * `ProjectFilterService.get_queryset`: the list endpoint's pipeline of
 * the display-ordered table, an optional status filter, an optional
 * technology filter and a normalised ordering.
 */
module FilterService {
  import opened Wrappers
  import opened Text
  import opened ProjectTypes
  import opened QuerySets

  const DefaultOrdering: string := "display"
  const OrderingChoices: set<string> := {"display", "newest", "oldest"}

  /** `(ordering or DEFAULT_ORDERING).strip().lower()`, replaced by the default when it is not a choice. */
  function NormaliseOrdering(ordering: Option<string>): (r: string)
    ensures r in OrderingChoices
    ensures ordering.None? || ordering == Some("") ==> r == DefaultOrdering
    ensures ordering.Some? && ordering.value != "" ==>
              r == if Lower(Trim(ordering.value)) in OrderingChoices then Lower(Trim(ordering.value)) else DefaultOrdering
  {
    var raw := if ordering.None? || ordering.value == "" then DefaultOrdering else ordering.value;
    var order := Lower(Trim(raw));
    if order in OrderingChoices then order else DefaultOrdering
  }

  /** The `order_by` each normalised ordering selects. */
  function OrderFor(order: string): OrderBy {
    if order == "newest" then CreatedDesc
    else if order == "oldest" then CreatedAsc
    else DisplayOrder
  }

  /**
   * `get_queryset(status, technology_slugs, ordering)`. An empty `status`
   * stands for both of its falsy values; `technology_slugs` keeps `None`
   * apart from `[]`, as the view passes either.
   */
  function GetQueryset(table: seq<Row>, status: seq<string>, technologySlugs: Option<seq<string>>, ordering: Option<string>): seq<Row> {
    Sort(OrderFor(NormaliseOrdering(ordering)), Filtered(table, status, technologySlugs))
  }

  /** `for_list()` narrowed by `by_status` when `status` is truthy. */
  function StatusStage(table: seq<Row>, status: seq<string>): seq<Row> {
    var qs := ForList(table);
    if status != [] then ByStatus(qs, status) else qs
  }

  /** The status stage narrowed by `by_technologies` when the slug list is truthy. */
  function Filtered(table: seq<Row>, status: seq<string>, technologySlugs: Option<seq<string>>): seq<Row> {
    var qs1 := StatusStage(table, status);
    if technologySlugs.Some? && technologySlugs.value != [] then ByTechnologies(qs1, technologySlugs.value) else qs1
  }

  /** A project passes the filters the arguments switch on. */
  predicate Passes(x: Row, status: seq<string>, technologySlugs: Option<seq<string>>) {
    (status == [] || (x.status in status && x.status in StatusValues)) &&
    (technologySlugs.None? || technologySlugs.value == [] ||
     exists t :: t in x.technologySlugs && t in technologySlugs.value)
  }

  lemma IsSpaceOfLower(c: char)
    ensures IsSpace(LowerChar(c)) == IsSpace(c)
  {
  }

  /** Lower-casing and trimming commute with a second pass: the normalised text is canonical. */
  lemma LowerTrimCanonical(s: string)
    ensures Lower(Trim(Lower(Trim(s)))) == Lower(Trim(s))
  {
    var u := Trim(s);
    TrimSpec(s);
    var t := Lower(u);
    if |u| > 0 {
      IsSpaceOfLower(u[0]);
      IsSpaceOfLower(u[|u| - 1]);
      assert t[0] == LowerChar(u[0]) && t[|t| - 1] == LowerChar(u[|u| - 1]);
    }
    TrimOfTrimmed(t);
    assert HasNoUpper(t);
    LowerOfLower(t);
  }

  /** Only the stripped, lower-cased text of the ordering matters. */
  lemma NormaliseOrderingIgnoresCaseAndSpace(s: string)
    ensures NormaliseOrdering(Some(s)) == NormaliseOrdering(Some(Lower(Trim(s))))
  {
    LowerTrimCanonical(s);
  }

  /**
   * The result holds each project of the table that passes both filters,
   * once, and no other project, sorted by the normalised ordering.
   */
  lemma GetQuerysetSpec(table: seq<Row>, status: seq<string>, technologySlugs: Option<seq<string>>, ordering: Option<string>)
    requires NoDuplicates(table)
    ensures Sorted(OrderFor(NormaliseOrdering(ordering)), GetQueryset(table, status, technologySlugs, ordering))
    ensures forall x :: multiset(GetQueryset(table, status, technologySlugs, ordering))[x] ==
                        if Passes(x, status, technologySlugs) then multiset(table)[x] else 0
  {
    forall x: Row ensures multiset(GetQueryset(table, status, technologySlugs, ordering))[x] ==
                          if Passes(x, status, technologySlugs) then multiset(table)[x] else 0 {
      FilteredCount(table, status, technologySlugs, x);
    }
  }

  lemma StatusStageCount(table: seq<Row>, status: seq<string>, x: Row)
    ensures multiset(StatusStage(table, status))[x] ==
            if status == [] || (x.status in status && x.status in StatusValues) then multiset(table)[x] else 0
  {
    ByStatusCount(ForList(table), status, x);
  }

  lemma StatusStageNoDuplicates(table: seq<Row>, status: seq<string>)
    requires NoDuplicates(table)
    ensures NoDuplicates(StatusStage(table, status))
  {
    forall x: Row ensures multiset(StatusStage(table, status))[x] <= 1 {
      StatusStageCount(table, status, x);
    }
  }

  lemma FilteredCount(table: seq<Row>, status: seq<string>, technologySlugs: Option<seq<string>>, x: Row)
    requires NoDuplicates(table)
    ensures multiset(Filtered(table, status, technologySlugs))[x] ==
            if Passes(x, status, technologySlugs) then multiset(table)[x] else 0
  {
    var qs1 := StatusStage(table, status);
    StatusStageCount(table, status, x);
    if technologySlugs.Some? && technologySlugs.value != [] {
      StatusStageNoDuplicates(table, status);
      ByTechnologiesIsFilter(qs1, technologySlugs.value);
      KeepCount(qs1, AnyTechnologyIn(technologySlugs.value), x);
    }
  }

  /** With no arguments, the whole table comes back in display order. */
  lemma NoArgumentsIsForList(table: seq<Row>)
    ensures GetQueryset(table, [], None, None) == ForList(table)
  {
    SortOfSorted(DisplayOrder, ForList(table));
  }

  /** An empty technology list filters as little as a missing one. */
  lemma EmptyTechnologiesIsNoFilter(table: seq<Row>, status: seq<string>, ordering: Option<string>)
    ensures GetQueryset(table, status, Some([]), ordering) == GetQueryset(table, status, None, ordering)
  {
  }

  // ---------------------------------------------------------------------
  // The three projects of the service tests: created in this order, with
  // display orders 0, 1 and 2.
  // ---------------------------------------------------------------------

  const Fixture: seq<Row> := [
    Row(1, "done", "Done", "Done project", "completed", ["react"], 0, 1),
    Row(2, "planned", "Planned", "Planned project", "planned", ["django"], 1, 2),
    Row(3, "wip", "WIP", "Work in progress", "in_progress", ["react", "django"], 2, 3)]

  /** An ordering that needs no stripping or lower-casing is kept when it is a choice. */
  lemma NormaliseCanonicalOrdering(s: string)
    requires s != "" && IsTrimmed(s) && HasNoUpper(s)
    ensures NormaliseOrdering(Some(s)) == if s in OrderingChoices then s else DefaultOrdering
  {
    TrimOfTrimmed(s);
    LowerOfLower(s);
  }

  /** Without filters the result is the display-ordered table, sorted again by the chosen ordering. */
  lemma UnfilteredSortsForList(table: seq<Row>, ordering: Option<string>)
    ensures GetQueryset(table, [], None, ordering) == Sort(OrderFor(NormaliseOrdering(ordering)), ForList(table))
  {
    assert Filtered(table, [], None) == ForList(table);
  }

  /** A table already in display order comes back unchanged when the ordering normalises to the default. */
  lemma DisplaySortedTableUnchanged(table: seq<Row>, ordering: Option<string>)
    requires Sorted(DisplayOrder, table) && NormaliseOrdering(ordering) == DefaultOrdering
    ensures GetQueryset(table, [], None, ordering) == table
  {
    UnfilteredSortsForList(table, ordering);
    SortOfSorted(DisplayOrder, table);
  }

  /** Under `newest`, a row created after every other row of the table comes first. */
  lemma NewestComesFirst(table: seq<Row>, x: Row)
    requires x in table && forall y :: y in table && y != x ==> y.createdAt < x.createdAt
    ensures GetQueryset(table, [], None, Some("newest")) != []
    ensures GetQueryset(table, [], None, Some("newest"))[0] == x
  {
    NormaliseCanonicalOrdering("newest");
    UnfilteredSortsForList(table, Some("newest"));
    var r := Sort(CreatedDesc, ForList(table));
    assert multiset(r) == multiset(table);
    forall y | y in r && y != x ensures y.createdAt < x.createdAt {
      assert y in multiset(r);
    }
    assert x in multiset(r);
    LatestFirst(r, x);
  }

  lemma FixtureSorted()
    ensures Sorted(DisplayOrder, Fixture)
  {
  }

  /** `ordering="display"` lists the projects by display order. */
  lemma FixtureDisplayOrder()
    ensures GetQueryset(Fixture, [], None, Some("display")) == Fixture
  {
    NormaliseCanonicalOrdering("display");
    FixtureSorted();
    DisplaySortedTableUnchanged(Fixture, Some("display"));
  }

  /** The ordering of the fallback test is no choice and normalises to the default. */
  lemma InvalidOrderingIsDefault()
    ensures NormaliseOrdering(Some("invalid_or_malicious")) == DefaultOrdering
  {
    var s := "invalid_or_malicious";
    assert IsTrimmed(s);
    assert HasNoUpper(s);
    NormaliseCanonicalOrdering(s);
  }

  /** An unknown ordering falls back to display order. */
  lemma FixtureInvalidOrdering()
    ensures GetQueryset(Fixture, [], None, Some("invalid_or_malicious")) == Fixture
  {
    InvalidOrderingIsDefault();
    FixtureSorted();
    DisplaySortedTableUnchanged(Fixture, Some("invalid_or_malicious"));
  }

  /** `ordering="newest"` puts the last created project first. */
  lemma FixtureNewestFirst()
    ensures var r := GetQueryset(Fixture, [], None, Some("newest")); r != [] && r[0] == Fixture[2]
  {
    NewestComesFirst(Fixture, Fixture[2]);
  }

  /** The status of the invalid-status test is no status, so no project passes, whatever the other arguments. */
  lemma InvalidStatusGivesNothing(table: seq<Row>, technologySlugs: Option<seq<string>>, ordering: Option<string>)
    ensures GetQueryset(table, ["invalid-status"], technologySlugs, ordering) == []
  {
    var values := ["invalid-status"];
    assert values[0] !in StatusValues;
    ByInvalidStatusIsEmpty(ForList(table), values);
    assert StatusStage(table, values) == [];
    if technologySlugs.Some? && technologySlugs.value != [] {
      assert JoinTechnologies([], technologySlugs.value) == [];
    }
    assert Filtered(table, values, technologySlugs) == [];
  }
}
