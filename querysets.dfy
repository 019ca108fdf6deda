/**
 * The project queryset: the rows of the project table as a sequence, with
 * the filters and orderings the manager offers. Each queryset method
 * returns a new queryset, so each is a function here.
 */
module QuerySets {
  import opened ProjectTypes

  /** The columns of a project row the filters, orderings and views read. */
  datatype Row = Row(
    id: nat,
    slug: string,
    title: string,
    description: string,
    status: string,
    technologySlugs: seq<string>,
    displayOrder: nat,
    createdAt: int)

  // ---------------------------------------------------------------------
  // Filtering
  // ---------------------------------------------------------------------

  /** The `WHERE` conditions the queryset uses. */
  datatype Criterion =
    | StatusIn(allowed: set<string>)
    | AnyTechnologyIn(slugs: seq<string>)
    | SlugIs(slug: string)

  predicate Holds(c: Criterion, x: Row) {
    match c
    case StatusIn(allowed) => x.status in allowed
    case AnyTechnologyIn(slugs) => exists t :: t in x.technologySlugs && t in slugs
    case SlugIs(slug) => x.slug == slug
  }

  /** `filter(...)`: the rows meeting the condition, in their order. */
  function Keep(s: seq<Row>, c: Criterion): (r: seq<Row>)
    ensures |r| <= |s|
  {
    if |s| == 0 then []
    else (if Holds(c, s[0]) then [s[0]] else []) + Keep(s[1..], c)
  }

  /** A row occurs in the result as often as in the input when it meets the condition, and not at all otherwise. */
  lemma {:induction false} KeepCount(s: seq<Row>, c: Criterion, x: Row)
    ensures multiset(Keep(s, c))[x] == if Holds(c, x) then multiset(s)[x] else 0
  {
    if |s| > 0 {
      KeepCount(s[1..], c, x);
      assert s == [s[0]] + s[1..];
    }
  }

  /** Every row of the result is a row of the input meeting the condition. */
  lemma KeepMember(s: seq<Row>, c: Criterion, x: Row)
    requires x in Keep(s, c)
    ensures x in s && Holds(c, x)
  {
    KeepCount(s, c, x);
    assert x in multiset(Keep(s, c));
  }

  /** Filtering keeps the order of the rows: it works piece by piece. */
  lemma {:induction false} KeepAppend(a: seq<Row>, b: seq<Row>, c: Criterion)
    ensures Keep(a + b, c) == Keep(a, c) + Keep(b, c)
  {
    if |a| > 0 {
      assert (a + b)[1..] == a[1..] + b;
      KeepAppend(a[1..], b, c);
    } else {
      assert a + b == b;
    }
  }

  /** The slug column is unique. */
  ghost predicate UniqueSlugs(table: seq<Row>) {
    forall y, z :: y in table && z in table && y.slug == z.slug ==> y == z
  }

  /** A sequence whose multiset is `{x}` is `[x]`. */
  lemma SingletonMultiset(m: seq<Row>, x: Row)
    requires multiset(m) == multiset{x}
    ensures m == [x]
  {
    assert |m| == 1;
    assert m[0] in multiset(m);
  }

  /**
   * Drawn from a table with unique slugs, without repeats, a queryset that
   * keeps the table's row `x` has `x` as its only row with `x`'s slug.
   */
  lemma UniqueMatch(qs: seq<Row>, table: seq<Row>, slug: string, x: Row)
    requires NoDuplicates(table) && UniqueSlugs(table)
    requires x in table && x.slug == slug && multiset(qs)[x] == multiset(table)[x]
    requires forall y :: multiset(qs)[y] <= multiset(table)[y]
    ensures Keep(qs, SlugIs(slug)) == [x]
  {
    var m := Keep(qs, SlugIs(slug));
    forall y: Row ensures multiset(m)[y] == multiset{x}[y] {
      KeepCount(qs, SlugIs(slug), y);
      assert multiset(table)[x] == 1;
      if y in table && y.slug == slug {
        assert y == x;
      }
    }
    SingletonMultiset(m, x);
  }

  /** A condition no row can meet gives the empty queryset. */
  lemma {:induction false} KeepNothing(s: seq<Row>)
    ensures Keep(s, StatusIn({})) == []
  {
    if |s| > 0 {
      KeepNothing(s[1..]);
    }
  }

  /** The given values that are project statuses. */
  function ValidStatuses(values: seq<string>): (r: set<string>)
    ensures forall v :: v in r <==> v in values && v in StatusValues
  {
    set v | v in values && v in StatusValues
  }

  /** `by_status(values)`; an empty list stands for both falsy arguments. */
  function ByStatus(qs: seq<Row>, values: seq<string>): seq<Row> {
    if |values| == 0 then qs
    else
      var allowed := ValidStatuses(values);
      if allowed == {} then [] else Keep(qs, StatusIn(allowed))
  }

  /** With values given, `by_status` is the filter on the valid ones: the early `none()` agrees with it. */
  lemma ByStatusIsFilter(qs: seq<Row>, values: seq<string>)
    requires values != []
    ensures ByStatus(qs, values) == Keep(qs, StatusIn(ValidStatuses(values)))
  {
    if ValidStatuses(values) == {} {
      KeepNothing(qs);
    }
  }

  /** The rows of `by_status(values)` are exactly those whose status is a valid given value. */
  lemma ByStatusCount(qs: seq<Row>, values: seq<string>, x: Row)
    ensures values == [] ==> ByStatus(qs, values) == qs
    ensures values != [] ==>
              multiset(ByStatus(qs, values))[x] ==
              if x.status in values && x.status in StatusValues then multiset(qs)[x] else 0
  {
    if values != [] {
      ByStatusIsFilter(qs, values);
      KeepCount(qs, StatusIn(ValidStatuses(values)), x);
    }
  }

  /** Values none of which is a status give the empty queryset. */
  lemma ByInvalidStatusIsEmpty(qs: seq<Row>, values: seq<string>)
    requires values != [] && forall i :: 0 <= i < |values| ==> values[i] !in StatusValues
    ensures ByStatus(qs, values) == []
  {
    assert ValidStatuses(values) == {};
  }

  /** How many of a project's technologies have one of the slugs. */
  function MatchCount(techs: seq<string>, slugs: seq<string>): (n: nat)
    ensures n <= |techs|
  {
    if |techs| == 0 then 0
    else (if techs[0] in slugs then 1 else 0) + MatchCount(techs[1..], slugs)
  }

  lemma {:induction false} MatchCountPositive(techs: seq<string>, slugs: seq<string>)
    ensures MatchCount(techs, slugs) > 0 <==> exists t :: t in techs && t in slugs
  {
    if |techs| > 0 {
      MatchCountPositive(techs[1..], slugs);
      assert forall t :: t in techs <==> t == techs[0] || t in techs[1..];
    }
  }

  function Repeat(x: Row, n: nat): (r: seq<Row>)
    ensures |r| == n
  {
    if n == 0 then [] else [x] + Repeat(x, n - 1)
  }

  /** `filter(technologies__slug__in=slugs)`: the join yields one row per matching technology. */
  function JoinTechnologies(qs: seq<Row>, slugs: seq<string>): seq<Row> {
    if |qs| == 0 then []
    else Repeat(qs[0], MatchCount(qs[0].technologySlugs, slugs)) + JoinTechnologies(qs[1..], slugs)
  }

  /** `distinct()`: the first occurrence of each row, skipping the rows in `seen`. */
  function DistinctFrom(s: seq<Row>, seen: set<Row>): (r: seq<Row>)
    ensures |r| <= |s|
  {
    if |s| == 0 then []
    else if s[0] in seen then DistinctFrom(s[1..], seen)
    else [s[0]] + DistinctFrom(s[1..], seen + {s[0]})
  }

  /** `by_technologies(slugs)`; an empty list stands for both falsy arguments. */
  function ByTechnologies(qs: seq<Row>, slugs: seq<string>): seq<Row> {
    if |slugs| == 0 then qs else DistinctFrom(JoinTechnologies(qs, slugs), {})
  }

  /** Every row at most once: the table has one row per project. */
  ghost predicate NoDuplicates(s: seq<Row>) {
    forall x :: multiset(s)[x] <= 1
  }

  lemma {:induction false} DistinctSkipsSeen(x: Row, n: nat, t: seq<Row>, seen: set<Row>)
    requires x in seen
    ensures DistinctFrom(Repeat(x, n) + t, seen) == DistinctFrom(t, seen)
  {
    if n > 0 {
      assert (Repeat(x, n) + t)[1..] == Repeat(x, n - 1) + t;
      DistinctSkipsSeen(x, n - 1, t, seen);
    } else {
      assert Repeat(x, n) + t == t;
    }
  }

  /** The tail of a list without repeats has none, does not hold the head, and holds only rows of the list. */
  lemma NoDuplicatesTail(qs: seq<Row>)
    requires NoDuplicates(qs) && |qs| > 0
    ensures NoDuplicates(qs[1..]) && qs[0] !in qs[1..]
    ensures forall x :: x in qs[1..] ==> x in qs
  {
    var q, rest := qs[0], qs[1..];
    assert qs == [q] + rest;
    assert multiset(qs) == multiset{q} + multiset(rest);
    forall x ensures multiset(rest)[x] <= 1 {
      assert multiset(rest)[x] <= multiset(qs)[x];
    }
    assert multiset(qs)[q] == 1 + multiset(rest)[q];
  }

  /** De-duplicating a run of copies of an unseen row keeps one copy and then skips the rest. */
  lemma DistinctHead(q: Row, k: nat, j: seq<Row>, seen: set<Row>)
    requires q !in seen
    ensures DistinctFrom(Repeat(q, k) + j, seen) ==
            if k == 0 then DistinctFrom(j, seen) else [q] + DistinctFrom(j, seen + {q})
  {
    var u := Repeat(q, k) + j;
    if k == 0 {
      assert u == j;
    } else {
      assert u[0] == q;
      assert u[1..] == Repeat(q, k - 1) + j;
      DistinctSkipsSeen(q, k - 1, j, seen + {q});
    }
  }

  lemma {:induction false} DistinctJoin(qs: seq<Row>, slugs: seq<string>, seen: set<Row>)
    requires NoDuplicates(qs)
    requires forall x :: x in qs ==> x !in seen
    ensures DistinctFrom(JoinTechnologies(qs, slugs), seen) == Keep(qs, AnyTechnologyIn(slugs))
  {
    if |qs| > 0 {
      var q, rest, c := qs[0], qs[1..], AnyTechnologyIn(slugs);
      NoDuplicatesTail(qs);
      var k := MatchCount(q.technologySlugs, slugs);
      MatchCountPositive(q.technologySlugs, slugs);
      var j := JoinTechnologies(rest, slugs);
      assert JoinTechnologies(qs, slugs) == Repeat(q, k) + j;
      assert Keep(qs, c) == (if Holds(c, q) then [q] else []) + Keep(rest, c);
      assert q in qs;
      DistinctHead(q, k, j, seen);
      var seen' := if k == 0 then seen else seen + {q};
      DistinctJoin(rest, slugs, seen');
    }
  }

  /**
   * On a queryset without repeated rows, `by_technologies` is the filter
   * "has at least one of the slugs": the join's copies are folded back into
   * one row per project, in the queryset's order.
   */
  lemma ByTechnologiesIsFilter(qs: seq<Row>, slugs: seq<string>)
    requires NoDuplicates(qs) && slugs != []
    ensures ByTechnologies(qs, slugs) == Keep(qs, AnyTechnologyIn(slugs))
  {
    DistinctJoin(qs, slugs, {});
  }

  // ---------------------------------------------------------------------
  // Ordering
  // ---------------------------------------------------------------------

  /** The three `order_by` argument lists the code uses. */
  datatype OrderBy =
    | CreatedDesc      // order_by("-created_at")
    | CreatedAsc       // order_by("created_at")
    | DisplayOrder     // order_by("display_order", "-created_at")

  /** `a` may come before `b`. */
  predicate Before(o: OrderBy, a: Row, b: Row) {
    match o
    case CreatedDesc => a.createdAt >= b.createdAt
    case CreatedAsc => a.createdAt <= b.createdAt
    case DisplayOrder =>
      a.displayOrder < b.displayOrder || (a.displayOrder == b.displayOrder && a.createdAt >= b.createdAt)
  }

  predicate Sorted(o: OrderBy, s: seq<Row>) {
    forall i, j :: 0 <= i < j < |s| ==> Before(o, s[i], s[j])
  }

  function Insert(o: OrderBy, x: Row, s: seq<Row>): (r: seq<Row>)
    requires Sorted(o, s)
    ensures Sorted(o, r)
    ensures multiset(r) == multiset(s) + multiset{x}
  {
    if |s| == 0 then [x]
    else if Before(o, x, s[0]) then
      SortedCons(o, x, s);
      [x] + s
    else
      var t := Insert(o, x, s[1..]);
      InsertTailBounded(o, x, s, t);
      assert |t| > 0 ==> t[0] in t;
      SortedCons(o, s[0], t);
      assert s == [s[0]] + s[1..];
      [s[0]] + t
  }

  /** The head of a sorted list may come before every row of its tail, and before a row that may not come before it. */
  lemma InsertTailBounded(o: OrderBy, x: Row, s: seq<Row>, t: seq<Row>)
    requires Sorted(o, s) && |s| > 0 && !Before(o, x, s[0])
    requires multiset(t) == multiset(s[1..]) + multiset{x}
    ensures forall y :: y in t ==> Before(o, s[0], y)
  {
    forall y | y in t ensures Before(o, s[0], y) {
      assert y in multiset(t);
      if y != x {
        assert y in multiset(s[1..]);
        var k :| 0 <= k < |s[1..]| && s[1..][k] == y;
        assert s[k + 1] == y;
      }
    }
  }

  /** A row that may come before the first row of a sorted list may come before all of them. */
  lemma SortedCons(o: OrderBy, a: Row, t: seq<Row>)
    requires Sorted(o, t) && (|t| == 0 || Before(o, a, t[0]))
    ensures Sorted(o, [a] + t)
  {
    var r := [a] + t;
    forall i, j | 0 <= i < j < |r| ensures Before(o, r[i], r[j]) {
      assert r[j] == t[j - 1];
      if i > 0 {
        assert r[i] == t[i - 1];
      } else if j > 1 {
        assert Before(o, t[0], t[j - 1]);
      }
    }
  }

  /** `order_by(...)`: the same rows, sorted; rows that tie keep their order. */
  function Sort(o: OrderBy, s: seq<Row>): (r: seq<Row>)
    ensures Sorted(o, r)
    ensures multiset(r) == multiset(s)
  {
    if |s| == 0 then []
    else
      assert s == [s[0]] + s[1..];
      Insert(o, s[0], Sort(o, s[1..]))
  }

  lemma SortedTail(o: OrderBy, s: seq<Row>)
    requires Sorted(o, s) && |s| > 0
    ensures Sorted(o, s[1..])
  {
    var t := s[1..];
    forall i, j | 0 <= i < j < |t| ensures Before(o, t[i], t[j]) {
      assert t[i] == s[i + 1] && t[j] == s[j + 1];
    }
  }

  /** Sorting an already sorted queryset changes nothing. */
  lemma {:induction false} SortOfSorted(o: OrderBy, s: seq<Row>)
    requires Sorted(o, s)
    ensures Sort(o, s) == s
  {
    if |s| > 0 {
      SortedTail(o, s);
      SortOfSorted(o, s[1..]);
      InsertAtFront(o, s[0], s[1..]);
      assert s == [s[0]] + s[1..];
    }
  }

  lemma InsertAtFront(o: OrderBy, x: Row, s: seq<Row>)
    requires Sorted(o, s) && (|s| == 0 || Before(o, x, s[0]))
    ensures Insert(o, x, s) == [x] + s
  {
  }

  /** Newest first, a row created after all the others leads. */
  lemma LatestFirst(r: seq<Row>, x: Row)
    requires Sorted(CreatedDesc, r) && x in r
    requires forall y :: y in r && y != x ==> y.createdAt < x.createdAt
    ensures r[0] == x
  {
    var k :| 0 <= k < |r| && r[k] == x;
    assert r[0] in r;
    assert r[0].createdAt >= r[k].createdAt;
  }

  /** `ordered_by_newest()`. */
  function OrderedByNewest(qs: seq<Row>): (r: seq<Row>)
    ensures multiset(r) == multiset(qs)
    ensures forall i, j :: 0 <= i < j < |r| ==> r[i].createdAt >= r[j].createdAt
  {
    Sort(CreatedDesc, qs)
  }

  /** `ordered_by_display()`. */
  function OrderedByDisplay(qs: seq<Row>): (r: seq<Row>)
    ensures multiset(r) == multiset(qs)
    ensures forall i, j :: 0 <= i < j < |r| ==>
              r[i].displayOrder <= r[j].displayOrder &&
              (r[i].displayOrder == r[j].displayOrder ==> r[i].createdAt >= r[j].createdAt)
  {
    Sort(DisplayOrder, qs)
  }

  /** `ProjectManager.for_list()`: every project, in display order. */
  function ForList(table: seq<Row>): (r: seq<Row>)
    ensures multiset(r) == multiset(table)
    ensures Sorted(DisplayOrder, r)
  {
    OrderedByDisplay(table)
  }
}
