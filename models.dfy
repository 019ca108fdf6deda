/**
 * The project and technology records and what their `save` does before the
 * row is written: the slug default, the clean-up of the challenge/solution
 * entries, and the validation order.
 */
module Models {
  import opened Wrappers
  import opened Text
  import opened ProjectTypes
  import opened PyValues
  import opened Validators

  // ---------------------------------------------------------------------
  // Normalisation of technical_challenges_solutions
  // ---------------------------------------------------------------------

  /** `{"challenge": c, "solution": s}`. */
  function ChallengeEntry(c: string, s: string): Value {
    Dict([("challenge", Str(c)), ("solution", Str(s))])
  }

  lemma ChallengeEntryOk(c: string, s: string)
    ensures ChallengeItemOk(ChallengeEntry(c, s))
    ensures GetKey(ChallengeEntry(c, s).entries, "challenge") == Str(c)
    ensures GetKey(ChallengeEntry(c, s).entries, "solution") == Str(s)
  {
    var d := ChallengeEntry(c, s).entries;
    assert d[0].0 == "challenge";
    assert d[1].0 == "solution";
  }

  /** What one item of the list becomes: an entry, or nothing when it is dropped. */
  function NormalizeItem(item: Value, repr: Value -> string): (r: Option<Value>)
    ensures r.Some? ==> ChallengeItemOk(r.value)
    ensures item.Null? ==> r.None?
    ensures (item.List? && |item.items| == 2) ==> r == Some(ChallengeEntry(PyStr(item.items[0], repr), PyStr(item.items[1], repr)))
    ensures (item.Tuple? && |item.elems| == 2) ==> r == Some(ChallengeEntry(PyStr(item.elems[0], repr), PyStr(item.elems[1], repr)))
    ensures !item.Dict? && !(item.List? && |item.items| == 2) && !(item.Tuple? && |item.elems| == 2) ==> r.None?
    ensures item.Dict? ==>
              var lc, uc := GetKey(item.entries, "challenge"), GetKey(item.entries, "Challenge");
              var ls, us := GetKey(item.entries, "solution"), GetKey(item.entries, "Solution");
              var c := if Truthy(lc) then lc else uc;
              var s := if Truthy(ls) then ls else us;
              (r.Some? <==> c != Null && s != Null) &&
              (r.Some? ==> r.value == ChallengeEntry(PyStr(c, repr), PyStr(s, repr)))
  {
    match item
    case Dict(d) =>
      var challenge := Or(GetKey(d, "challenge"), GetKey(d, "Challenge"));
      var solution := Or(GetKey(d, "solution"), GetKey(d, "Solution"));
      if challenge != Null && solution != Null then
        var c, s := PyStr(challenge, repr), PyStr(solution, repr);
        ChallengeEntryOk(c, s);
        Some(ChallengeEntry(c, s))
      else None
    case List(xs) =>
      if |xs| == 2 then
        ChallengeEntryOk(PyStr(xs[0], repr), PyStr(xs[1], repr));
        Some(ChallengeEntry(PyStr(xs[0], repr), PyStr(xs[1], repr)))
      else None
    case Tuple(xs) =>
      if |xs| == 2 then
        ChallengeEntryOk(PyStr(xs[0], repr), PyStr(xs[1], repr));
        Some(ChallengeEntry(PyStr(xs[0], repr), PyStr(xs[1], repr)))
      else None
    case _ => None
  }

  /** What one item contributes to the normalised list: its entry, or nothing. */
  function Kept(item: Value, repr: Value -> string): (r: seq<Value>)
    ensures |r| <= 1
  {
    match NormalizeItem(item, repr) case Some(e) => [e] case None => []
  }

  /** The list the loop builds: the kept items, normalised, in input order. */
  function NormalizedItems(xs: seq<Value>, repr: Value -> string): (r: seq<Value>)
    ensures |r| <= |xs|
  {
    if |xs| == 0 then [] else Kept(xs[0], repr) + NormalizedItems(xs[1..], repr)
  }

  /** Every item of the normalised list is a valid challenge entry. */
  lemma {:induction false} NormalizedItemsValid(xs: seq<Value>, repr: Value -> string)
    ensures forall i :: 0 <= i < |NormalizedItems(xs, repr)| ==> ChallengeItemOk(NormalizedItems(xs, repr)[i])
  {
    if |xs| > 0 {
      NormalizedItemsValid(xs[1..], repr);
      var k, t := Kept(xs[0], repr), NormalizedItems(xs[1..], repr);
      assert forall i :: 0 <= i < |k| ==> ChallengeItemOk(k[i]);
      assert NormalizedItems(xs, repr) == k + t;
    }
  }

  /** Items are handled one at a time: the output of a concatenation is the concatenation of the outputs. */
  lemma {:induction false} NormalizedItemsAppend(xs: seq<Value>, ys: seq<Value>, repr: Value -> string)
    ensures NormalizedItems(xs + ys, repr) == NormalizedItems(xs, repr) + NormalizedItems(ys, repr)
  {
    if |xs| > 0 {
      var k := Kept(xs[0], repr);
      assert (xs + ys)[0] == xs[0] && (xs + ys)[1..] == xs[1..] + ys;
      assert NormalizedItems(xs + ys, repr) == k + NormalizedItems(xs[1..] + ys, repr);
      NormalizedItemsAppend(xs[1..], ys, repr);
      assert NormalizedItems(xs, repr) == k + NormalizedItems(xs[1..], repr);
    } else {
      assert xs + ys == ys;
    }
  }

  /** One more item extends the normalised prefix by what that item becomes. */
  lemma NormalizedItemsSnoc(items: seq<Value>, i: nat, repr: Value -> string)
    requires i < |items|
    ensures NormalizedItems(items[..i + 1], repr) == NormalizedItems(items[..i], repr) + Kept(items[i], repr)
  {
    assert items[..i + 1] == items[..i] + [items[i]];
    NormalizedItemsAppend(items[..i], [items[i]], repr);
    assert [items[i]][1..] == [];
  }

  /** The field after `_normalize_technical_challenges_solutions`. */
  function NormalizedField(v: Value, repr: Value -> string): (r: Value)
    ensures !Truthy(v) || !v.List? ==> r == v
    ensures v.List? && Truthy(v) ==> r.List? && |r.items| <= |v.items|
  {
    if !Truthy(v) || !v.List? then v else List(NormalizedItems(v.items, repr))
  }

  /** The loop of `_normalize_technical_challenges_solutions`: each item appends its entry, or nothing, to a fresh list. */
  method NormalizeList(items: seq<Value>, repr: Value -> string) returns (normalized: seq<Value>)
    ensures normalized == NormalizedItems(items, repr)
  {
    normalized := [];
    var i := 0;
    while i < |items|
      invariant 0 <= i <= |items|
      invariant normalized == NormalizedItems(items[..i], repr)
    {
      var kept := Kept(items[i], repr);
      NormalizedItemsSnoc(items, i, repr);
      normalized := normalized + kept;
      i := i + 1;
    }
    assert items[..i] == items;
  }

  /**
   * After normalisation the challenge validator accepts the field exactly
   * when it was falsy or a list; any other truthy value is left in place and
   * rejected.
   */
  lemma NormalizedFieldValidates(v: Value, repr: Value -> string)
    ensures ValidateChallengesSolutions(NormalizedField(v, repr)) == Pass <==> !Truthy(v) || v.List?
  {
    if v.List? {
      NormalizedItemsValid(v.items, repr);
    }
  }

  /** An object without the expected keys is dropped, so the field it was in passes validation. */
  lemma WrongKeysAreDropped(repr: Value -> string)
    ensures NormalizedField(List([Dict([("wrong", Str("keys"))])]), repr) == List([])
    ensures ValidateChallengesSolutions(NormalizedField(List([Dict([("wrong", Str("keys"))])]), repr)) == Pass
  {
    var d := [("wrong", Str("keys"))];
    assert !HasKey(d, "challenge") && !HasKey(d, "Challenge");
  }

  /** A dict whose lower-case challenge is falsy takes the capitalised one. */
  lemma FallbackEntry(d: seq<(string, Value)>, c: string, s: string, repr: Value -> string)
    requires !Truthy(GetKey(d, "challenge")) && GetKey(d, "Challenge") == Str(c)
    requires GetKey(d, "solution") == Str(s) && s != ""
    ensures NormalizeItem(Dict(d), repr) == Some(ChallengeEntry(c, s))
  {
  }

  /** A falsy lower-case value falls through `or` to the capitalised key. */
  lemma CapitalisedKeyFallback(repr: Value -> string)
    ensures NormalizeItem(Dict([("challenge", Str("")), ("Challenge", Str("c")), ("solution", Str("s"))]), repr)
            == Some(ChallengeEntry("c", "s"))
  {
    var d := [("challenge", Str("")), ("Challenge", Str("c")), ("solution", Str("s"))];
    assert d[1..][1..] == [("solution", Str("s"))];
    assert GetKey(d, "challenge") == Str("");
    assert GetKey(d, "Challenge") == Str("c");
    assert GetKey(d, "solution") == Str("s");
    FallbackEntry(d, "c", "s", repr);
  }

  /** An entry whose challenge and solution are non-empty strings normalises to itself. */
  lemma NormalizeEntry(c: string, s: string, repr: Value -> string)
    requires c != "" && s != ""
    ensures NormalizeItem(ChallengeEntry(c, s), repr) == Some(ChallengeEntry(c, s))
  {
    ChallengeEntryOk(c, s);
  }

  /** Entries whose challenge and solution are non-empty strings come through a second pass unchanged. */
  lemma {:induction false} NormalizeStable(cs: seq<string>, ss: seq<string>, entries: seq<Value>, repr: Value -> string)
    requires |cs| == |ss| == |entries|
    requires forall i :: 0 <= i < |entries| ==> entries[i] == ChallengeEntry(cs[i], ss[i]) && cs[i] != "" && ss[i] != ""
    ensures NormalizedItems(entries, repr) == entries
  {
    if |entries| > 0 {
      NormalizeEntry(cs[0], ss[0], repr);
      NormalizeStable(cs[1..], ss[1..], entries[1..], repr);
    }
  }

  /**
   * A pair with an empty first element is kept as an entry, but the entry is
   * dropped when it is normalised again (the `or` falls through to the
   * missing `Challenge` key): saving twice loses it.
   */
  lemma NormalizeIsNotIdempotent(repr: Value -> string)
    ensures NormalizedItems([List([Str(""), Str("x")])], repr) == [ChallengeEntry("", "x")]
    ensures NormalizedItems([ChallengeEntry("", "x")], repr) == []
  {
    ChallengeEntryOk("", "x");
    var d := ChallengeEntry("", "x").entries;
    assert !HasKey(d, "Challenge") by {
      assert d[0].0 == "challenge" && d[1].0 == "solution";
    }
  }

  // ---------------------------------------------------------------------
  // Slugs
  // ---------------------------------------------------------------------

  /** The `n`-th slug the loop tries: the base, then `base-1`, `base-2`, ... */
  function Candidate(base: string, n: nat): string {
    if n == 0 then base else base + "-" + NatToString(n)
  }

  /** Different attempts give different slugs, so the loop never retries one. */
  lemma CandidateInjective(base: string, m: nat, n: nat)
    ensures Candidate(base, m) == Candidate(base, n) ==> m == n
  {
    if m > 0 && n > 0 && Candidate(base, m) == Candidate(base, n) {
      var k := |base| + 1;
      assert Candidate(base, m)[k..] == NatToString(m);
      assert Candidate(base, n)[k..] == NatToString(n);
      NatToStringInjective(m, n);
    }
  }

  /** The slugs of the first `n` attempts. */
  ghost function TriedBelow(base: string, n: nat): set<string> {
    if n == 0 then {} else TriedBelow(base, n - 1) + {Candidate(base, n - 1)}
  }

  lemma {:induction false} TriedBelowSize(base: string, n: nat)
    ensures |TriedBelow(base, n)| == n
    ensures forall k: nat :: k >= n ==> Candidate(base, k) !in TriedBelow(base, n)
  {
    if n > 0 {
      TriedBelowSize(base, n - 1);
      forall k: nat | k >= n ensures Candidate(base, k) != Candidate(base, n - 1) {
        CandidateInjective(base, k, n - 1);
      }
    }
  }

  /** `slug` is the first attempt that no other project uses. */
  ghost predicate FirstFreeSlug(slug: string, base: string, taken: set<string>) {
    exists n: nat :: n <= |taken| && slug == Candidate(base, n) && slug !in taken &&
                forall m :: 0 <= m < n ==> Candidate(base, m) in taken
  }

  /** The `while` loop of `Project.save`; `taken` is the set of slugs of the other projects. */
  method UniqueSlug(base: string, taken: set<string>) returns (slug: string)
    ensures slug !in taken
    ensures FirstFreeSlug(slug, base, taken)
  {
    slug := base;
    var n := 0;
    ghost var tried: set<string> := {};
    while slug in taken
      invariant slug == Candidate(base, n)
      invariant tried == TriedBelow(base, n) && tried <= taken
      invariant forall m :: 0 <= m < n ==> Candidate(base, m) in taken
      decreases |taken - tried|
    {
      TriedBelowSize(base, n);
      assert taken - (tried + {slug}) == (taken - tried) - {slug};
      tried := tried + {slug};
      n := n + 1;
      slug := base + "-" + NatToString(n);
    }
    TriedBelowSize(base, n);
    assert n <= |taken| by {
      assert |tried| <= |taken|;
    }
  }

  // ---------------------------------------------------------------------
  // full_clean
  // ---------------------------------------------------------------------

  /**
   * The checks of `full_clean` this model keeps: the field checks in field
   * order (required text, the URL validators, the status: blank, or not
   * one of the choices), then the
   * uniqueness of the slug among the other projects' slugs `taken`. The
   * first failing check gives the error.
   */
  function FullClean(title: string, slug: string, description: string, liveDemoUrl: string, sourceCodeUrl: string,
                     status: string, taken: set<string>, urlparse: string -> ParsedUrl, isalnum: char -> bool): (r: Result)
    ensures r == Pass <==>
              title != "" && description != "" && status in StatusValues &&
              ValidateOptionalHttpsUrl(liveDemoUrl, urlparse, isalnum) == Pass &&
              ValidateOptionalHttpsUrl(sourceCodeUrl, urlparse, isalnum) == Pass &&
              slug !in taken
    ensures title == "" ==> r == Fail(BlankField("title"))
    ensures title != "" && description == "" ==> r == Fail(BlankField("description"))
    ensures title != "" && description != "" && ValidateOptionalHttpsUrl(liveDemoUrl, urlparse, isalnum).Fail? ==>
              r == ValidateOptionalHttpsUrl(liveDemoUrl, urlparse, isalnum)
    ensures title != "" && description != "" && ValidateOptionalHttpsUrl(liveDemoUrl, urlparse, isalnum) == Pass &&
            ValidateOptionalHttpsUrl(sourceCodeUrl, urlparse, isalnum).Fail? ==>
              r == ValidateOptionalHttpsUrl(sourceCodeUrl, urlparse, isalnum)
    ensures r == Fail(BlankField("status")) <==>
              title != "" && description != "" && status == "" &&
              ValidateOptionalHttpsUrl(liveDemoUrl, urlparse, isalnum) == Pass &&
              ValidateOptionalHttpsUrl(sourceCodeUrl, urlparse, isalnum) == Pass
    ensures r == Fail(InvalidChoice("status")) <==>
              title != "" && description != "" && status != "" && status !in StatusValues &&
              ValidateOptionalHttpsUrl(liveDemoUrl, urlparse, isalnum) == Pass &&
              ValidateOptionalHttpsUrl(sourceCodeUrl, urlparse, isalnum) == Pass
    ensures r == Fail(NotUnique("slug")) <==>
              title != "" && description != "" && status in StatusValues &&
              ValidateOptionalHttpsUrl(liveDemoUrl, urlparse, isalnum) == Pass &&
              ValidateOptionalHttpsUrl(sourceCodeUrl, urlparse, isalnum) == Pass &&
              slug in taken
  {
    if title == "" then Fail(BlankField("title"))
    else if description == "" then Fail(BlankField("description"))
    else if ValidateOptionalHttpsUrl(liveDemoUrl, urlparse, isalnum).Fail? then ValidateOptionalHttpsUrl(liveDemoUrl, urlparse, isalnum)
    else if ValidateOptionalHttpsUrl(sourceCodeUrl, urlparse, isalnum).Fail? then ValidateOptionalHttpsUrl(sourceCodeUrl, urlparse, isalnum)
    else if status == "" then Fail(BlankField("status"))
    else if status !in StatusValues then Fail(InvalidChoice("status"))
    else if slug in taken then Fail(NotUnique("slug"))
    else Pass
  }

  /** The first failure of two checks run in order. */
  function Then(first: Result, second: Result): (r: Result)
    ensures first.Fail? ==> r == first
    ensures first == Pass ==> r == second
  {
    if first.Fail? then first else second
  }

  /** What `save` raises, if anything, on the given (already normalised) fields. */
  function SaveOutcome(keyFeatures: Value, futureEnhancements: Value, challenges: Value, architecture: Value,
                       clean: Result): Result {
    Then(ValidateStringList(keyFeatures, "key_features"),
    Then(ValidateStringList(futureEnhancements, "future_enhancements"),
    Then(ValidateChallengesSolutions(challenges),
    Then(if Truthy(architecture) then ValidateArchitectureStructure(architecture) else Pass,
         clean))))
  }

  /**
   * `save` accepts exactly when every check accepts; when it rejects, the
   * error is that of the first failing check in the order key features,
   * future enhancements, challenges, architecture, `full_clean`.
   */
  lemma SaveOutcomeSpec(keyFeatures: Value, futureEnhancements: Value, challenges: Value, architecture: Value, clean: Result)
    ensures SaveOutcome(keyFeatures, futureEnhancements, challenges, architecture, clean) == Pass <==>
              ValidateStringList(keyFeatures, "key_features") == Pass &&
              ValidateStringList(futureEnhancements, "future_enhancements") == Pass &&
              ValidateChallengesSolutions(challenges) == Pass &&
              ValidateArchitectureStructure(architecture) == Pass &&
              clean == Pass
    ensures ValidateStringList(keyFeatures, "key_features").Fail? ==>
              SaveOutcome(keyFeatures, futureEnhancements, challenges, architecture, clean) ==
              ValidateStringList(keyFeatures, "key_features")
    ensures ValidateStringList(keyFeatures, "key_features") == Pass &&
            ValidateStringList(futureEnhancements, "future_enhancements").Fail? ==>
              SaveOutcome(keyFeatures, futureEnhancements, challenges, architecture, clean) ==
              ValidateStringList(futureEnhancements, "future_enhancements")
    ensures ValidateStringList(keyFeatures, "key_features") == Pass &&
            ValidateStringList(futureEnhancements, "future_enhancements") == Pass &&
            ValidateChallengesSolutions(challenges).Fail? ==>
              SaveOutcome(keyFeatures, futureEnhancements, challenges, architecture, clean) ==
              ValidateChallengesSolutions(challenges)
    ensures ValidateStringList(keyFeatures, "key_features") == Pass &&
            ValidateStringList(futureEnhancements, "future_enhancements") == Pass &&
            ValidateChallengesSolutions(challenges) == Pass &&
            ValidateArchitectureStructure(architecture).Fail? ==>
              SaveOutcome(keyFeatures, futureEnhancements, challenges, architecture, clean) ==
              ValidateArchitectureStructure(architecture)
    ensures ValidateStringList(keyFeatures, "key_features") == Pass &&
            ValidateStringList(futureEnhancements, "future_enhancements") == Pass &&
            ValidateChallengesSolutions(challenges) == Pass &&
            ValidateArchitectureStructure(architecture) == Pass ==>
              SaveOutcome(keyFeatures, futureEnhancements, challenges, architecture, clean) == clean
  {
  }

  // ---------------------------------------------------------------------
  // The records
  // ---------------------------------------------------------------------

  class Technology {
    var name: string
    var slug: string
    var category: string

    constructor(name: string, slug: string, category: string)
      ensures this.name == name && this.slug == slug && this.category == category
    {
      this.name := name;
      this.slug := slug;
      this.category := category;
    }

    /** `Technology.save`: an empty slug becomes `slugify(name)`; a given one is kept. */
    method Save(slugify: string -> string)
      modifies this
      ensures slug == if old(slug) == "" then slugify(name) else old(slug)
      ensures name == old(name) && category == old(category)
    {
      if slug == "" {
        slug := slugify(name);
      }
    }
  }

  class Project {
    var title: string
    var slug: string
    var description: string
    var keyFeatures: Value
    var technicalChallengesSolutions: Value
    var architecturalOverview: Value
    var futureEnhancements: Value
    var liveDemoUrl: string
    var sourceCodeUrl: string
    var status: string

    constructor(title: string, slug: string, description: string, status: string)
      ensures this.title == title && this.slug == slug && this.description == description && this.status == status
      ensures keyFeatures == List([]) && technicalChallengesSolutions == List([])
      ensures architecturalOverview == Dict([]) && futureEnhancements == List([])
      ensures liveDemoUrl == "" && sourceCodeUrl == ""
    {
      this.title := title;
      this.slug := slug;
      this.description := description;
      this.status := status;
      keyFeatures := List([]);
      technicalChallengesSolutions := List([]);
      architecturalOverview := Dict([]);
      futureEnhancements := List([]);
      liveDemoUrl := "";
      sourceCodeUrl := "";
    }

    /** `_normalize_technical_challenges_solutions`: only that field changes. */
    method NormalizeTechnicalChallengesSolutions(repr: Value -> string)
      modifies this
      ensures technicalChallengesSolutions == NormalizedField(old(technicalChallengesSolutions), repr)
      ensures title == old(title) && slug == old(slug) && description == old(description)
      ensures keyFeatures == old(keyFeatures) && architecturalOverview == old(architecturalOverview)
      ensures futureEnhancements == old(futureEnhancements) && status == old(status)
      ensures liveDemoUrl == old(liveDemoUrl) && sourceCodeUrl == old(sourceCodeUrl)
    {
      if !Truthy(technicalChallengesSolutions) || !technicalChallengesSolutions.List? {
        return;
      }
      var normalized := NormalizeList(technicalChallengesSolutions.items, repr);
      technicalChallengesSolutions := List(normalized);
    }

    /**
     * `Project.save` up to the database write. `taken` holds the slugs of
     * the other projects; `slugify`, `str()` of a non-string, `urlparse` and `str.isalnum`
     * are parameters. The slug and the normalised field are assigned before
     * the checks run, so they stay assigned when a check rejects.
     */
    method Save(taken: set<string>, slugify: string -> string, repr: Value -> string,
                urlparse: string -> ParsedUrl, isalnum: char -> bool)
      returns (r: Result)
      modifies this
      ensures old(slug) != "" ==> slug == old(slug)
      ensures old(slug) == "" ==> slug !in taken && FirstFreeSlug(slug, slugify(old(title)), taken)
      ensures old(slug) == "" ==> r != Fail(NotUnique("slug"))
      ensures technicalChallengesSolutions == NormalizedField(old(technicalChallengesSolutions), repr)
      ensures title == old(title) && description == old(description) && status == old(status)
      ensures keyFeatures == old(keyFeatures) && architecturalOverview == old(architecturalOverview)
      ensures futureEnhancements == old(futureEnhancements)
      ensures liveDemoUrl == old(liveDemoUrl) && sourceCodeUrl == old(sourceCodeUrl)
      ensures r == SaveOutcome(keyFeatures, futureEnhancements, technicalChallengesSolutions, architecturalOverview,
                               FullClean(title, slug, description, liveDemoUrl, sourceCodeUrl, status, taken,
                                         urlparse, isalnum))
    {
      if slug == "" {
        var base := slugify(title);
        slug := UniqueSlug(base, taken);
      }
      NormalizeTechnicalChallengesSolutions(repr);
      r := ValidateStringList(keyFeatures, "key_features");
      if r.Fail? { return; }
      r := ValidateStringList(futureEnhancements, "future_enhancements");
      if r.Fail? { return; }
      r := ValidateChallengesSolutions(technicalChallengesSolutions);
      if r.Fail? { return; }
      if Truthy(architecturalOverview) {
        r := ValidateArchitectureStructure(architecturalOverview);
        if r.Fail? { return; }
      }
      r := FullClean(title, slug, description, liveDemoUrl, sourceCodeUrl, status, taken, urlparse, isalnum);
    }
  }
}
