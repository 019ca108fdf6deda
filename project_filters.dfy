/**
 * The filter hook of the projects page: the address bar's `status`, `tech`
 * and `ordering` query parameters are decoded into a `Filters` value, and
 * every change is written back by editing a copy of the query parameters
 * and replacing the address.
 */
module ProjectFilters {
  import opened Wrappers
  import opened Text
  import opened ProjectTypes

  // ---------------------------------------------------------------------
  // Query parameters (the `URLSearchParams` object the hook edits)
  // ---------------------------------------------------------------------

  /** One `name=value` pair of a query string. */
  type Param = (string, string)

  /** The value of the first pair called `name`, as `URLSearchParams.get` gives it. */
  function GetFirst(e: seq<Param>, name: string): (r: Option<string>)
    ensures r.None? <==> forall i :: 0 <= i < |e| ==> e[i].0 != name
    ensures r.Some? ==> exists i :: 0 <= i < |e| && e[i] == (name, r.value) && forall j :: 0 <= j < i ==> e[j].0 != name
  {
    if |e| == 0 then None
    else if e[0].0 == name then Some(e[0].1)
    else GetFirst(e[1..], name)
  }

  /** The pairs called `name`, in order. */
  function Named(e: seq<Param>, name: string): (r: seq<Param>)
    ensures |r| <= |e|
  {
    if |e| == 0 then []
    else if e[0].0 == name then [e[0]] + Named(e[1..], name)
    else Named(e[1..], name)
  }

  /** `params.delete(name)`: every pair called `name` is removed. */
  function DeleteEntry(e: seq<Param>, name: string): (r: seq<Param>)
    ensures |r| <= |e|
  {
    if |e| == 0 then []
    else if e[0].0 == name then DeleteEntry(e[1..], name)
    else [e[0]] + DeleteEntry(e[1..], name)
  }

  /** The first pair called `name` takes the value; later pairs of that name are dropped. */
  function ReplaceFirst(e: seq<Param>, name: string, value: string): seq<Param> {
    if |e| == 0 then []
    else if e[0].0 == name then [(name, value)] + DeleteEntry(e[1..], name)
    else [e[0]] + ReplaceFirst(e[1..], name, value)
  }

  /** `params.set(name, value)`: replace the first pair of that name, or append one. */
  function SetEntry(e: seq<Param>, name: string, value: string): seq<Param> {
    if GetFirst(e, name).Some? then ReplaceFirst(e, name, value) else e + [(name, value)]
  }

  /** `params.toString()`: the pairs as `name=value`, joined by `&`. */
  function Serialize(e: seq<Param>): string {
    if |e| == 0 then ""
    else if |e| == 1 then e[0].0 + "=" + e[0].1
    else e[0].0 + "=" + e[0].1 + "&" + Serialize(e[1..])
  }

  /** A mutable list of query parameters. */
  class SearchParams {
    var entries: seq<Param>

    constructor (init: seq<Param>)
      ensures entries == init
    {
      entries := init;
    }

    function Get(name: string): Option<string>
      reads this
    {
      GetFirst(entries, name)
    }

    method Set(name: string, value: string)
      modifies this
      ensures entries == SetEntry(old(entries), name, value)
    {
      entries := SetEntry(entries, name, value);
    }

    method Delete(name: string)
      modifies this
      ensures entries == DeleteEntry(old(entries), name)
    {
      entries := DeleteEntry(entries, name);
    }

    function ToString(): string
      reads this
    {
      Serialize(entries)
    }
  }

  lemma {:induction false} GetFirstDelete(e: seq<Param>, name: string)
    ensures GetFirst(DeleteEntry(e, name), name) == None
  {
    if |e| > 0 { GetFirstDelete(e[1..], name); }
  }

  lemma {:induction false} GetFirstReplace(e: seq<Param>, name: string, value: string)
    requires GetFirst(e, name).Some?
    ensures GetFirst(ReplaceFirst(e, name, value), name) == Some(value)
  {
    if e[0].0 != name { GetFirstReplace(e[1..], name, value); }
  }

  lemma {:induction false} GetFirstAppend(e: seq<Param>, name: string, value: string)
    requires GetFirst(e, name).None?
    ensures GetFirst(e + [(name, value)], name) == Some(value)
  {
    if |e| > 0 {
      assert (e + [(name, value)])[1..] == e[1..] + [(name, value)];
      GetFirstAppend(e[1..], name, value);
    }
  }

  /** After `set`, `get` gives the value just set. */
  lemma GetFirstSet(e: seq<Param>, name: string, value: string)
    ensures GetFirst(SetEntry(e, name, value), name) == Some(value)
  {
    if GetFirst(e, name).Some? { GetFirstReplace(e, name, value); } else { GetFirstAppend(e, name, value); }
  }

  lemma {:induction false} NamedDeleteSame(e: seq<Param>, name: string)
    ensures Named(DeleteEntry(e, name), name) == []
  {
    if |e| > 0 { NamedDeleteSame(e[1..], name); }
  }

  lemma {:induction false} NamedDeleteOther(e: seq<Param>, name: string, other: string)
    requires other != name
    ensures Named(DeleteEntry(e, name), other) == Named(e, other)
  {
    if |e| > 0 { NamedDeleteOther(e[1..], name, other); }
  }

  lemma {:induction false} NamedReplaceSame(e: seq<Param>, name: string, value: string)
    requires GetFirst(e, name).Some?
    ensures Named(ReplaceFirst(e, name, value), name) == [(name, value)]
  {
    if e[0].0 == name { NamedDeleteSame(e[1..], name); }
    else { NamedReplaceSame(e[1..], name, value); }
  }

  lemma {:induction false} NamedReplaceOther(e: seq<Param>, name: string, value: string, other: string)
    requires other != name
    ensures Named(ReplaceFirst(e, name, value), other) == Named(e, other)
  {
    if |e| > 0 {
      if e[0].0 == name { NamedDeleteOther(e[1..], name, other); }
      else { NamedReplaceOther(e[1..], name, value, other); }
    }
  }

  lemma {:induction false} NamedAppend(e: seq<Param>, p: Param, other: string)
    ensures Named(e + [p], other) == Named(e, other) + Named([p], other)
  {
    if |e| > 0 {
      assert (e + [p])[1..] == e[1..] + [p];
      NamedAppend(e[1..], p, other);
    }
  }

  lemma {:induction false} NamedAbsent(e: seq<Param>, name: string)
    requires GetFirst(e, name).None?
    ensures Named(e, name) == []
  {
    if |e| > 0 { NamedAbsent(e[1..], name); }
  }

  /** `set` leaves exactly one pair of that name, holding the value. */
  lemma NamedSetSame(e: seq<Param>, name: string, value: string)
    ensures Named(SetEntry(e, name, value), name) == [(name, value)]
  {
    if GetFirst(e, name).Some? { NamedReplaceSame(e, name, value); }
    else { NamedAppend(e, (name, value), name); NamedAbsent(e, name); }
  }

  /** `set` and `delete` of one name leave the pairs of every other name as they were. */
  lemma NamedSetOther(e: seq<Param>, name: string, value: string, other: string)
    requires other != name
    ensures Named(SetEntry(e, name, value), other) == Named(e, other)
  {
    if GetFirst(e, name).Some? { NamedReplaceOther(e, name, value, other); }
    else { NamedAppend(e, (name, value), other); }
  }

  lemma {:induction false} GetFirstFromNamed(e: seq<Param>, name: string)
    ensures GetFirst(e, name) == GetFirst(Named(e, name), name)
  {
    if |e| > 0 { GetFirstFromNamed(e[1..], name); }
  }

  /** The serialised query string is empty exactly when there are no parameters. */
  lemma SerializeEmpty(e: seq<Param>)
    ensures Serialize(e) == "" <==> e == []
  {
    if |e| > 0 {
      var s := Serialize(e);
      assert s[|e[0].0|] == '=';
    }
  }

  // ---------------------------------------------------------------------
  // Decoding
  // ---------------------------------------------------------------------

  /** The statuses named by comma-separated parts, after trimming and lower-casing each. */
  function StatusesOf(parts: seq<string>): seq<Status> {
    if |parts| == 0 then []
    else match StatusFromTag(Lower(Trim(parts[0])))
      case Some(x) => [x] + StatusesOf(parts[1..])
      case None => StatusesOf(parts[1..])
  }

  /** Tokens are read one at a time, so the statuses come in the order of their tokens. */
  lemma {:induction false} StatusesOfAppend(a: seq<string>, b: seq<string>)
    ensures StatusesOf(a + b) == StatusesOf(a) + StatusesOf(b)
  {
    if |a| > 0 {
      assert (a + b)[1..] == a[1..] + b;
      StatusesOfAppend(a[1..], b);
    } else {
      assert a + b == b;
    }
  }

  /** `parseStatus`: unknown tokens are dropped; order and repetitions are kept. */
  function ParseStatus(s: Option<string>): (r: seq<Status>)
    ensures s.None? || s == Some("") ==> r == []
  {
    if s.None? || s.value == "" then [] else StatusesOf(Split(s.value, ','))
  }

  /** `parseTechnologies`: comma-separated, trimmed, empty tokens dropped. */
  function ParseTechnologies(s: Option<string>): (r: seq<string>)
    ensures s.None? || s == Some("") ==> r == []
    ensures forall i :: 0 <= i < |r| ==> r[i] != "" && IsTrimmed(r[i]) && ',' !in r[i]
  {
    if s.None? || s.value == "" then [] else NonBlankTokens(Split(s.value, ','))
  }

  /** `parseOrdering`: trimmed and lower-cased; `display` when missing or unknown. */
  function ParseOrdering(s: Option<string>): (r: Ordering)
    ensures s.None? || s == Some("") ==> r == Display
    ensures s.Some? && Lower(Trim(s.value)) !in OrderingValues ==> r == Display
    ensures s.Some? && Lower(Trim(s.value)) in OrderingValues ==> r.Tag() == Lower(Trim(s.value))
  {
    if s.None? || s.value == "" then Display
    else OrderingFromTag(Lower(Trim(s.value))).GetOr(Display)
  }

  /** The hook's `filters`: the three parameters decoded from the current address. */
  function ReadFilters(e: seq<Param>): Filters {
    Filters(
      ParseStatus(GetFirst(e, "status")),
      ParseTechnologies(GetFirst(e, "tech")),
      ParseOrdering(GetFirst(e, "ordering")))
  }

  // ---------------------------------------------------------------------
  // Encoding
  // ---------------------------------------------------------------------

  function Tags(xs: seq<Status>): (r: seq<string>)
    ensures |r| == |xs|
    ensures forall i :: 0 <= i < |xs| ==> r[i] == xs[i].Tag()
  {
    if |xs| == 0 then [] else [xs[0].Tag()] + Tags(xs[1..])
  }

  /** The parameters `setFilters` writes for `next` over the current parameters `e`. */
  function EncodeEntries(e: seq<Param>, next: Filters): seq<Param> {
    var e1 := if |next.status| > 0 then SetEntry(e, "status", Join(Tags(next.status), ',')) else DeleteEntry(e, "status");
    var e2 := if |next.technologies| > 0 then SetEntry(e1, "tech", Join(next.technologies, ',')) else DeleteEntry(e1, "tech");
    if next.ordering != Display then SetEntry(e2, "ordering", next.ordering.Tag()) else DeleteEntry(e2, "ordering")
  }

  /** The address handed to `router.replace`: the bare path when no parameter is left. */
  function Href(pathname: string, e: seq<Param>): string {
    var q := Serialize(e);
    if q != "" then pathname + "?" + q else pathname
  }

  /** Filters that the address can carry: technology slugs without commas or surrounding space. */
  predicate WellFormed(f: Filters) {
    forall i :: 0 <= i < |f.technologies| ==> f.technologies[i] != "" && IsTrimmed(f.technologies[i]) && ',' !in f.technologies[i]
  }

  /** `setFilters`: apply the updater to the decoded filters and rewrite the three parameters. */
  method SetFilters(pathname: string, current: seq<Param>, updater: Filters -> Filters) returns (href: string)
    ensures href == Href(pathname, EncodeEntries(current, updater(ReadFilters(current))))
  {
    var next := updater(ReadFilters(current));
    var params := new SearchParams(current);
    if |next.status| > 0 {
      params.Set("status", Join(Tags(next.status), ','));
    } else {
      params.Delete("status");
    }
    if |next.technologies| > 0 {
      params.Set("tech", Join(next.technologies, ','));
    } else {
      params.Delete("tech");
    }
    if next.ordering != Display {
      params.Set("ordering", next.ordering.Tag());
    } else {
      params.Delete("ordering");
    }
    var q := params.ToString();
    href := if q != "" then pathname + "?" + q else pathname;
  }

  // ---------------------------------------------------------------------
  // Updaters
  // ---------------------------------------------------------------------

  /** `xs.filter((y) => y !== x)`. */
  function Without<T(==)>(xs: seq<T>, x: T): (r: seq<T>)
    ensures |r| <= |xs|
  {
    if |xs| == 0 then [] else if xs[0] == x then Without(xs[1..], x) else [xs[0]] + Without(xs[1..], x)
  }

  /** Remove every `x` when present, append one `x` at the end when absent. */
  function Toggle<T(==)>(xs: seq<T>, x: T): seq<T> {
    if x in xs then Without(xs, x) else xs + [x]
  }

  function ToggledStatus(f: Filters, x: Status): Filters {
    f.(status := Toggle(f.status, x))
  }

  function ToggledTechnology(f: Filters, slug: string): Filters {
    f.(technologies := Toggle(f.technologies, slug))
  }

  function WithOrdering(f: Filters, o: Ordering): Filters {
    f.(ordering := o)
  }

  /** `toggleStatus`. */
  method ToggleStatus(pathname: string, current: seq<Param>, x: Status) returns (href: string)
    ensures href == Href(pathname, EncodeEntries(current, ToggledStatus(ReadFilters(current), x)))
  {
    href := SetFilters(pathname, current, f => ToggledStatus(f, x));
  }

  /** `toggleTechnology`. */
  method ToggleTechnology(pathname: string, current: seq<Param>, slug: string) returns (href: string)
    ensures href == Href(pathname, EncodeEntries(current, ToggledTechnology(ReadFilters(current), slug)))
  {
    href := SetFilters(pathname, current, f => ToggledTechnology(f, slug));
  }

  /** `setOrdering`. */
  method SetOrdering(pathname: string, current: seq<Param>, o: Ordering) returns (href: string)
    ensures href == Href(pathname, EncodeEntries(current, WithOrdering(ReadFilters(current), o)))
  {
    href := SetFilters(pathname, current, f => WithOrdering(f, o));
  }

  // ---------------------------------------------------------------------
  // Properties
  // ---------------------------------------------------------------------

  /** The pairs called `n` after encoding: one pair per non-default filter part, the rest untouched. */
  lemma EncodeNamed(e: seq<Param>, f: Filters, n: string)
    ensures n == "status" ==>
              Named(EncodeEntries(e, f), n) == (if |f.status| > 0 then [("status", Join(Tags(f.status), ','))] else [])
    ensures n == "tech" ==>
              Named(EncodeEntries(e, f), n) == (if |f.technologies| > 0 then [("tech", Join(f.technologies, ','))] else [])
    ensures n == "ordering" ==>
              Named(EncodeEntries(e, f), n) == (if f.ordering != Display then [("ordering", f.ordering.Tag())] else [])
    ensures n !in {"status", "tech", "ordering"} ==> Named(EncodeEntries(e, f), n) == Named(e, n)
  {
    var e1 := if |f.status| > 0 then SetEntry(e, "status", Join(Tags(f.status), ',')) else DeleteEntry(e, "status");
    var e2 := if |f.technologies| > 0 then SetEntry(e1, "tech", Join(f.technologies, ',')) else DeleteEntry(e1, "tech");
    var e3 := EncodeEntries(e, f);
    // Step 1: status.
    if n == "status" {
      if |f.status| > 0 { NamedSetSame(e, "status", Join(Tags(f.status), ',')); } else { NamedDeleteSame(e, "status"); }
    } else {
      if |f.status| > 0 { NamedSetOther(e, "status", Join(Tags(f.status), ','), n); } else { NamedDeleteOther(e, "status", n); }
    }
    // Step 2: tech.
    if n == "tech" {
      if |f.technologies| > 0 { NamedSetSame(e1, "tech", Join(f.technologies, ',')); } else { NamedDeleteSame(e1, "tech"); }
    } else {
      if |f.technologies| > 0 { NamedSetOther(e1, "tech", Join(f.technologies, ','), n); } else { NamedDeleteOther(e1, "tech", n); }
    }
    // Step 3: ordering.
    if n == "ordering" {
      if f.ordering != Display { NamedSetSame(e2, "ordering", f.ordering.Tag()); } else { NamedDeleteSame(e2, "ordering"); }
    } else {
      if f.ordering != Display { NamedSetOther(e2, "ordering", f.ordering.Tag(), n); } else { NamedDeleteOther(e2, "ordering", n); }
    }
  }

  /** What `get` reads back after encoding. */
  lemma EncodeGet(e: seq<Param>, f: Filters)
    ensures GetFirst(EncodeEntries(e, f), "status") ==
      (if |f.status| > 0 then Some(Join(Tags(f.status), ',')) else None)
    ensures GetFirst(EncodeEntries(e, f), "tech") ==
      (if |f.technologies| > 0 then Some(Join(f.technologies, ',')) else None)
    ensures GetFirst(EncodeEntries(e, f), "ordering") ==
      (if f.ordering != Display then Some(f.ordering.Tag()) else None)
  {
    var r := EncodeEntries(e, f);
    EncodeNamed(e, f, "status");
    EncodeNamed(e, f, "tech");
    EncodeNamed(e, f, "ordering");
    GetFirstFromNamed(r, "status");
    GetFirstFromNamed(r, "tech");
    GetFirstFromNamed(r, "ordering");
  }

  lemma {:induction false} StatusesOfTags(xs: seq<Status>)
    ensures StatusesOf(Tags(xs)) == xs
  {
    if |xs| > 0 {
      var t := xs[0].Tag();
      TrimOfTrimmed(t);
      LowerOfLower(t);
      assert Tags(xs)[1..] == Tags(xs[1..]);
      StatusesOfTags(xs[1..]);
    }
  }

  lemma JoinNonEmpty(xs: seq<string>, sep: char)
    requires |xs| > 0 && xs[0] != ""
    ensures Join(xs, sep) != ""
  {
    if |xs| > 1 {
      assert Join(xs, sep)[0] == xs[0][0];
    }
  }

  /** Decoding the encoded statuses gives the statuses back, in order and with repetitions. */
  lemma ParseStatusOfJoin(xs: seq<Status>)
    requires |xs| > 0
    ensures ParseStatus(Some(Join(Tags(xs), ','))) == xs
  {
    var tags := Tags(xs);
    JoinNonEmpty(tags, ',');
    SplitJoin(tags, ',');
    StatusesOfTags(xs);
  }

  /** Decoding the encoded technology slugs gives them back. */
  lemma ParseTechnologiesOfJoin(ts: seq<string>)
    requires |ts| > 0
    requires forall i :: 0 <= i < |ts| ==> ts[i] != "" && IsTrimmed(ts[i]) && ',' !in ts[i]
    ensures ParseTechnologies(Some(Join(ts, ','))) == ts
  {
    JoinNonEmpty(ts, ',');
    SplitJoin(ts, ',');
    NonBlankTokensOfTrimmed(ts);
  }

  lemma ParseOrderingOfTag(o: Ordering)
    ensures ParseOrdering(Some(o.Tag())) == o
  {
    TrimOfTrimmed(o.Tag());
    LowerOfLower(o.Tag());
  }

  /** Round trip: the address written for `f` decodes to `f`, whatever other parameters it carries. */
  lemma ReadEncodeRoundTrip(e: seq<Param>, f: Filters)
    requires WellFormed(f)
    ensures ReadFilters(EncodeEntries(e, f)) == f
  {
    EncodeGet(e, f);
    if |f.status| > 0 { ParseStatusOfJoin(f.status); }
    if |f.technologies| > 0 { ParseTechnologiesOfJoin(f.technologies); }
    if f.ordering != Display { ParseOrderingOfTag(f.ordering); }
  }

  /** Whatever the address holds, the decoded filters can be written back faithfully. */
  lemma ReadFiltersWellFormed(e: seq<Param>)
    ensures WellFormed(ReadFilters(e))
  {
  }

  /** Every pair of `e` has one of the given names. */
  predicate NamesIn(e: seq<Param>, names: set<string>) {
    |e| == 0 || (e[0].0 in names && NamesIn(e[1..], names))
  }

  lemma {:induction false} DeleteNarrowsNames(e: seq<Param>, names: set<string>, n: string)
    requires NamesIn(e, names)
    ensures NamesIn(DeleteEntry(e, n), names - {n})
  {
    if |e| > 0 { DeleteNarrowsNames(e[1..], names, n); }
  }

  /** "All" in the filter pills: with no other parameters the address becomes the bare path. */
  lemma ResetGivesBarePath(pathname: string, e: seq<Param>)
    requires NamesIn(e, {"status", "tech", "ordering"})
    ensures Href(pathname, EncodeEntries(e, NoFilters)) == pathname
  {
    var e1 := DeleteEntry(e, "status");
    DeleteNarrowsNames(e, {"status", "tech", "ordering"}, "status");
    assert {"status", "tech", "ordering"} - {"status"} == {"tech", "ordering"};
    var e2 := DeleteEntry(e1, "tech");
    DeleteNarrowsNames(e1, {"tech", "ordering"}, "tech");
    assert {"tech", "ordering"} - {"tech"} == {"ordering"};
    var e3 := DeleteEntry(e2, "ordering");
    DeleteNarrowsNames(e2, {"ordering"}, "ordering");
    assert {"ordering"} - {"ordering"} == {};
    SerializeEmpty(e3);
  }

  lemma {:induction false} WithoutSpec<T>(xs: seq<T>, x: T)
    ensures x !in Without(xs, x)
    ensures multiset(Without(xs, x)) == multiset(xs)[x := 0]
  {
    if |xs| > 0 {
      var h, t := xs[0], Without(xs[1..], x);
      WithoutSpec(xs[1..], x);
      assert xs == [h] + xs[1..];
      assert multiset(xs) == multiset{h} + multiset(xs[1..]);
      var k := if h == x then [] else [h];
      assert Without(xs, x) == k + t;
      assert multiset(k + t) == multiset(k) + multiset(t);
    }
  }

  lemma {:induction false} WithoutAbsent<T>(xs: seq<T>, x: T)
    requires x !in xs
    ensures Without(xs, x) == xs
  {
    if |xs| > 0 { WithoutAbsent(xs[1..], x); }
  }

  lemma {:induction false} WithoutAppend<T>(xs: seq<T>, x: T)
    ensures Without(xs + [x], x) == Without(xs, x)
  {
    if |xs| > 0 {
      assert (xs + [x])[1..] == xs[1..] + [x];
      WithoutAppend(xs[1..], x);
    }
  }

  /** Toggling appends an absent element at the end and removes every copy of a present one. */
  lemma ToggleSpec<T>(xs: seq<T>, x: T)
    ensures x !in xs ==> Toggle(xs, x) == xs + [x]
    ensures x in xs ==> x !in Toggle(xs, x) && multiset(Toggle(xs, x)) == multiset(xs)[x := 0]
  {
    if x in xs { WithoutSpec(xs, x); }
  }

  /** Toggling twice restores an absent element's list, and a present element's set of members. */
  lemma ToggleTwice<T>(xs: seq<T>, x: T)
    ensures x !in xs ==> Toggle(Toggle(xs, x), x) == xs
    ensures x in xs ==> (set y | y in Toggle(Toggle(xs, x), x)) == (set y | y in xs)
  {
    if x !in xs {
      WithoutAppend(xs, x);
      WithoutAbsent(xs, x);
    } else {
      var r := Without(xs, x);
      WithoutSpec(xs, x);
      assert Toggle(r, x) == r + [x];
      forall y ensures y in r + [x] <==> y in xs {
        assert y in r <==> multiset(r)[y] > 0;
        assert y in xs <==> multiset(xs)[y] > 0;
      }
    }
  }

  lemma ToggledStatusSpec(f: Filters, x: Status)
    ensures ToggledStatus(f, x).technologies == f.technologies
    ensures ToggledStatus(f, x).ordering == f.ordering
    ensures x !in f.status ==> ToggledStatus(f, x).status == f.status + [x]
    ensures x in f.status ==>
              x !in ToggledStatus(f, x).status && multiset(ToggledStatus(f, x).status) == multiset(f.status)[x := 0]
  {
    ToggleSpec(f.status, x);
  }

  lemma ToggledTechnologySpec(f: Filters, slug: string)
    ensures ToggledTechnology(f, slug).status == f.status
    ensures ToggledTechnology(f, slug).ordering == f.ordering
    ensures slug !in f.technologies ==> ToggledTechnology(f, slug).technologies == f.technologies + [slug]
    ensures slug in f.technologies ==>
              slug !in ToggledTechnology(f, slug).technologies &&
              multiset(ToggledTechnology(f, slug).technologies) == multiset(f.technologies)[slug := 0]
  {
    ToggleSpec(f.technologies, slug);
  }

  /** After `toggleStatus`, the new address decodes to the toggled filters. */
  lemma ReadAfterToggleStatus(e: seq<Param>, x: Status)
    ensures ReadFilters(EncodeEntries(e, ToggledStatus(ReadFilters(e), x))) == ToggledStatus(ReadFilters(e), x)
  {
    ReadEncodeRoundTrip(e, ToggledStatus(ReadFilters(e), x));
  }

  /** After `toggleTechnology` with a slug the address can carry, it decodes to the toggled filters. */
  lemma ReadAfterToggleTechnology(e: seq<Param>, slug: string)
    requires slug != "" && IsTrimmed(slug) && ',' !in slug
    ensures ReadFilters(EncodeEntries(e, ToggledTechnology(ReadFilters(e), slug))) == ToggledTechnology(ReadFilters(e), slug)
  {
    var f := ReadFilters(e);
    var g := ToggledTechnology(f, slug);
    if slug in f.technologies {
      WithoutSpec(f.technologies, slug);
      forall i | 0 <= i < |g.technologies|
        ensures g.technologies[i] != "" && IsTrimmed(g.technologies[i]) && ',' !in g.technologies[i]
      {
        assert g.technologies[i] in multiset(g.technologies);
        assert g.technologies[i] in f.technologies;
      }
    }
    ReadEncodeRoundTrip(e, g);
  }

  /** After `setOrdering`, the new address decodes to the new ordering with the rest unchanged. */
  lemma ReadAfterSetOrdering(e: seq<Param>, o: Ordering)
    ensures ReadFilters(EncodeEntries(e, WithOrdering(ReadFilters(e), o))) == WithOrdering(ReadFilters(e), o)
  {
    ReadEncodeRoundTrip(e, WithOrdering(ReadFilters(e), o));
  }

  function Count<T(==)>(xs: seq<T>, x: T): nat {
    if |xs| == 0 then 0 else (if xs[0] == x then 1 else 0) + Count(xs[1..], x)
  }

  /** The number of parts that, trimmed and lower-cased, spell `tag`. */
  function PartsSpelling(parts: seq<string>, tag: string): nat {
    if |parts| == 0 then 0 else (if Lower(Trim(parts[0])) == tag then 1 else 0) + PartsSpelling(parts[1..], tag)
  }

  /** Each status occurs in the decoded list once per token that spells it: nothing is de-duplicated. */
  lemma {:induction false} StatusesOfCount(parts: seq<string>, x: Status)
    ensures Count(StatusesOf(parts), x) == PartsSpelling(parts, x.Tag())
  {
    if |parts| > 0 {
      StatusesOfCount(parts[1..], x);
      var t := Lower(Trim(parts[0]));
      match StatusFromTag(t)
      case Some(y) =>
        assert Count(StatusesOf(parts), x) == (if y == x then 1 else 0) + Count(StatusesOf(parts[1..]), x);
        assert y == x <==> t == x.Tag();
      case None =>
    }
  }

  lemma ParseStatusCount(s: string, x: Status)
    requires s != ""
    ensures Count(ParseStatus(Some(s)), x) == PartsSpelling(Split(s, ','), x.Tag())
  {
    StatusesOfCount(Split(s, ','), x);
  }
}
