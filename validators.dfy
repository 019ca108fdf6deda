/**
 * The validators of the project record's URL and JSON fields. Each one
 * either returns (`Pass`) or raises a validation error (`Fail`); none of
 * them changes its argument, which is why they are functions here.
 */
module Validators {
  import opened Wrappers
  import opened Text
  import opened PyValues

  datatype ValidationError =
    | SchemeNotHttp
    | InvalidHost
    | NotAList(field: string)
    | ItemNotString(field: string, index: nat)
    | ChallengesNotAList
    | ItemNotObject(index: nat)
    | ItemMissingKeys(index: nat)
    | ItemNotStrings(index: nat)
    | InvalidKeys(extra: set<string>)
    | BadStage
    | BadOverviewValue
    | BlankField(name: string)        // a required field of `full_clean`
    | InvalidChoice(name: string)     // a value outside the field's choices
    | NotUnique(name: string)         // a value another record of a unique field already has

  type Result = Outcome<ValidationError>

  // ---------------------------------------------------------------------
  // validate_optional_https_url
  // ---------------------------------------------------------------------

  /** The two parts of `urlparse(value)` the validator reads. */
  datatype ParsedUrl = ParsedUrl(scheme: string, netloc: string)

  /** `s.replace("www.", "")`: occurrences removed left to right, without overlap. */
  function RemoveWww(s: string): (r: string)
    ensures |r| <= |s|
  {
    if |s| >= 4 && s[..4] == "www." then RemoveWww(s[4..])
    else if |s| == 0 then ""
    else [s[0]] + RemoveWww(s[1..])
  }

  /**
   * `\w` of a Python 3 regular expression on a `str`: `_` and every
   * character for which `str.isalnum()` holds. On ASCII that is the letters
   * and digits; beyond ASCII it depends on the Unicode database, which is
   * not modelled: `isalnum` stands for it.
   */
  predicate IsWordChar(c: char, isalnum: char -> bool) {
    c == '_' || (if c as int < 128 then IsAlnum(c) else isalnum(c))
  }

  /** `[a-zA-Z0-9.-]`. */
  predicate IsHostChar(c: char) { IsAlnum(c) || c == '.' || c == '-' }

  /** `[\w.-]`. */
  predicate IsLooseHostChar(c: char, isalnum: char -> bool) { IsWordChar(c, isalnum) || c == '.' || c == '-' }

  /** The text `^[a-zA-Z0-9][a-zA-Z0-9.-]*\.[a-zA-Z]{2,}` must cover. */
  predicate StrictHostBody(t: string) {
    |t| >= 4 && IsAlnum(t[0]) &&
    exists d :: 1 <= d <= |t| - 3 && t[d] == '.' &&
                (forall i :: 1 <= i < d ==> IsHostChar(t[i])) &&
                (forall i :: d < i < |t| ==> IsLetter(t[i]))
  }

  /** The text `^[\w.-]+` must cover. */
  predicate LooseHostBody(t: string, isalnum: char -> bool) {
    |t| >= 1 && forall i :: 0 <= i < |t| ==> IsLooseHostChar(t[i], isalnum)
  }

  /** Python's `$` matches at the end, or just before a final newline. */
  predicate StrictHostMatch(s: string) {
    StrictHostBody(s) || (|s| > 0 && s[|s| - 1] == '\n' && StrictHostBody(s[..|s| - 1]))
  }

  predicate LooseHostMatch(s: string, isalnum: char -> bool) {
    LooseHostBody(s, isalnum) || (|s| > 0 && s[|s| - 1] == '\n' && LooseHostBody(s[..|s| - 1], isalnum))
  }

  /** The host test of the validator: the strict pattern, `localhost`, or the loose pattern. */
  predicate HostAccepted(netloc: string, isalnum: char -> bool) {
    StrictHostMatch(RemoveWww(netloc)) || netloc == "localhost" || LooseHostMatch(netloc, isalnum)
  }

  /** The checks made on the parsed URL. */
  function CheckParsedUrl(p: ParsedUrl, isalnum: char -> bool): (r: Result)
    ensures r == Fail(SchemeNotHttp) <==> p.scheme != "" && p.scheme != "http" && p.scheme != "https"
    ensures r == Fail(InvalidHost) <==>
              (p.scheme == "" || p.scheme == "http" || p.scheme == "https") && p.netloc != "" && !HostAccepted(p.netloc, isalnum)
    ensures r == Pass || r == Fail(SchemeNotHttp) || r == Fail(InvalidHost)
  {
    if p.scheme != "" && p.scheme !in {"http", "https"} then Fail(SchemeNotHttp)
    else if p.netloc != "" && !HostAccepted(p.netloc, isalnum) then Fail(InvalidHost)
    else Pass
  }

  /** `validate_optional_https_url`; `urlparse` is not modelled and is a parameter. */
  function ValidateOptionalHttpsUrl(value: string, urlparse: string -> ParsedUrl, isalnum: char -> bool): (r: Result)
    ensures value == "" ==> r == Pass
    ensures value != "" ==> r == CheckParsedUrl(urlparse(value), isalnum)
  {
    if value == "" then Pass else CheckParsedUrl(urlparse(value), isalnum)
  }

  lemma {:induction false} RemoveWwwChars(s: string, c: char)
    ensures c in RemoveWww(s) ==> c in s
    ensures c in s ==> c in RemoveWww(s) || c == 'w' || c == '.'
  {
    if |s| >= 4 && s[..4] == "www." {
      RemoveWwwChars(s[4..], c);
      assert s == s[..4] + s[4..];
    } else if |s| > 0 {
      RemoveWwwChars(s[1..], c);
      assert s == [s[0]] + s[1..];
    }
  }

  lemma StrictBodyIsLoose(t: string, i: nat)
    requires StrictHostBody(t) && i < |t|
    ensures IsHostChar(t[i])
  {
    var d :| 1 <= d <= |t| - 3 && t[d] == '.' &&
             (forall i :: 1 <= i < d ==> IsHostChar(t[i])) &&
             (forall i :: d < i < |t| ==> IsLetter(t[i]));
  }

  /**
   * For a netloc without a newline (`urlparse` strips newlines), the host is
   * rejected exactly when it holds a character other than a word character,
   * `.` and `-`: the strict pattern and the `localhost` exception never
   * change the outcome.
   */
  lemma HostAcceptedIffLooseChars(netloc: string, isalnum: char -> bool)
    requires netloc != "" && '\n' !in netloc
    ensures HostAccepted(netloc, isalnum) <==> forall i :: 0 <= i < |netloc| ==> IsLooseHostChar(netloc[i], isalnum)
  {
    var r := RemoveWww(netloc);
    RemoveWwwChars(netloc, '\n');
    if |r| > 0 {
      assert r[|r| - 1] in r;
    }
    if StrictHostMatch(r) {
      assert StrictHostBody(r);
      forall i | 0 <= i < |netloc| ensures IsLooseHostChar(netloc[i], isalnum) {
        var c := netloc[i];
        RemoveWwwChars(netloc, c);
        if c in r {
          var j :| 0 <= j < |r| && r[j] == c;
          StrictBodyIsLoose(r, j);
        }
      }
    }
    if netloc == "localhost" {
      assert forall i :: 0 <= i < |netloc| ==> IsLooseHostChar(netloc[i], isalnum);
    }
    assert LooseHostMatch(netloc, isalnum) <==> LooseHostBody(netloc, isalnum);
  }

  /** A host with a port, such as `example.com:8080`, is rejected. */
  lemma PortIsRejected(host: string, port: string, isalnum: char -> bool)
    requires '\n' !in host + ":" + port
    ensures CheckParsedUrl(ParsedUrl("https", host + ":" + port), isalnum) == Fail(InvalidHost)
  {
    var n := host + ":" + port;
    assert n[|host|] == ':';
    HostAcceptedIffLooseChars(n, isalnum);
  }

  /**
   * A host with a non-ASCII letter, such as `münchen.de`, fails the ASCII
   * strict pattern but matches `\w`, so it is accepted.
   */
  lemma UnicodeHostAccepted(isalnum: char -> bool)
    requires isalnum('ü')
    ensures CheckParsedUrl(ParsedUrl("https", "münchen.de"), isalnum) == Pass
  {
    var h := "münchen.de";
    assert LooseHostBody(h, isalnum) by {
      forall i | 0 <= i < |h| ensures IsLooseHostChar(h[i], isalnum) {
        assert h[i] == 'ü' || h[i] == '.' || IsLowerLetter(h[i]);
      }
    }
    assert LooseHostMatch(h, isalnum);
  }

  /** A scheme other than `http` and `https` is rejected, whatever the host. */
  lemma FtpIsRejected(value: string, urlparse: string -> ParsedUrl, isalnum: char -> bool)
    requires value != "" && urlparse(value).scheme == "ftp"
    ensures ValidateOptionalHttpsUrl(value, urlparse, isalnum) == Fail(SchemeNotHttp)
  {
  }

  // ---------------------------------------------------------------------
  // validate_string_list
  // ---------------------------------------------------------------------

  /** The index of the first element that is not a string, if any. */
  function FirstNonString(xs: seq<Value>): (r: Option<nat>)
    ensures r.None? <==> forall i :: 0 <= i < |xs| ==> xs[i].Str?
    ensures r.Some? ==> r.value < |xs| && !xs[r.value].Str? && forall j :: 0 <= j < r.value ==> xs[j].Str?
  {
    if |xs| == 0 then None
    else if !xs[0].Str? then Some(0)
    else match FirstNonString(xs[1..])
      case None => None
      case Some(i) => Some(i + 1)
  }

  /** `validate_string_list(value, field_name)`. */
  function ValidateStringList(v: Value, field: string): (r: Result)
    ensures r == Pass <==> !Truthy(v) || (v.List? && forall i :: 0 <= i < |v.items| ==> v.items[i].Str?)
    ensures r.Fail? && !v.List? ==> r.error == NotAList(field)
    ensures r.Fail? && v.List? ==>
              r.error.ItemNotString? && r.error.field == field && r.error.index < |v.items| &&
              !v.items[r.error.index].Str? && forall j :: 0 <= j < r.error.index ==> v.items[j].Str?
  {
    if !Truthy(v) then Pass
    else if !v.List? then Fail(NotAList(field))
    else match FirstNonString(v.items)
      case Some(i) => Fail(ItemNotString(field, i))
      case None => Pass
  }

  // ---------------------------------------------------------------------
  // validate_challenges_solutions
  // ---------------------------------------------------------------------

  /** A dict with string values under both `challenge` and `solution`. */
  predicate ChallengeItemOk(item: Value) {
    item.Dict? && HasKey(item.entries, "challenge") && HasKey(item.entries, "solution") &&
    GetKey(item.entries, "challenge").Str? && GetKey(item.entries, "solution").Str?
  }

  predicate IsItemError(e: ValidationError) {
    e.ItemNotObject? || e.ItemMissingKeys? || e.ItemNotStrings?
  }

  /** The error raised for item `i`, in the order the three checks are made. */
  function ChallengeItemError(item: Value, i: nat): (r: Option<ValidationError>)
    ensures r.None? <==> ChallengeItemOk(item)
    ensures r.Some? ==> IsItemError(r.value) && r.value.index == i
  {
    if !item.Dict? then Some(ItemNotObject(i))
    else if !HasKey(item.entries, "challenge") || !HasKey(item.entries, "solution") then Some(ItemMissingKeys(i))
    else if !GetKey(item.entries, "challenge").Str? || !GetKey(item.entries, "solution").Str? then Some(ItemNotStrings(i))
    else None
  }

  /** The index of the first item that is not a valid entry, if any. */
  function FirstBadItem(xs: seq<Value>): (r: Option<nat>)
    ensures r.None? <==> forall i :: 0 <= i < |xs| ==> ChallengeItemOk(xs[i])
    ensures r.Some? ==> r.value < |xs| && !ChallengeItemOk(xs[r.value]) && forall j :: 0 <= j < r.value ==> ChallengeItemOk(xs[j])
  {
    if |xs| == 0 then None
    else if !ChallengeItemOk(xs[0]) then Some(0)
    else match FirstBadItem(xs[1..])
      case None => None
      case Some(i) => Some(i + 1)
  }

  /** `validate_challenges_solutions(value)`. */
  function ValidateChallengesSolutions(v: Value): (r: Result)
    ensures r == Pass <==> !Truthy(v) || (v.List? && forall i :: 0 <= i < |v.items| ==> ChallengeItemOk(v.items[i]))
    ensures r.Fail? && !v.List? ==> r.error == ChallengesNotAList
    ensures r.Fail? && v.List? ==>
              IsItemError(r.error) && r.error.index < |v.items| &&
              Some(r.error) == ChallengeItemError(v.items[r.error.index], r.error.index) &&
              forall j :: 0 <= j < r.error.index ==> ChallengeItemOk(v.items[j])
  {
    if !Truthy(v) then Pass
    else if !v.List? then Fail(ChallengesNotAList)
    else match FirstBadItem(v.items)
      case Some(i) => Fail(ChallengeItemError(v.items[i], i).value)
      case None => Pass
  }

  // ---------------------------------------------------------------------
  // validate_architecture_structure
  // ---------------------------------------------------------------------

  const AllowedOverviewKeys: set<string> := {"frontend", "backend", "database", "deployment", "stages", "overview"}

  /** A stage: a dict with `name` and `description` keys (of any type). */
  predicate StageOk(item: Value) {
    item.Dict? && HasKey(item.entries, "name") && HasKey(item.entries, "description")
  }

  /** A string, or, under `stages`, a list of stages. */
  predicate OverviewEntryOk(k: string, v: Value) {
    v.Str? || (k == "stages" && v.List? && forall i :: 0 <= i < |v.items| ==> StageOk(v.items[i]))
  }

  /** The error raised for one entry, if any. */
  function OverviewEntryError(k: string, v: Value): (r: Option<ValidationError>)
    ensures r.None? <==> OverviewEntryOk(k, v)
    ensures r.Some? ==> (r.value == BadStage <==> k == "stages" && v.List?)
    ensures r.Some? ==> r.value == BadStage || r.value == BadOverviewValue
  {
    if v.Str? then None
    else if k == "stages" && v.List? then
      (if forall i :: 0 <= i < |v.items| ==> StageOk(v.items[i]) then None else Some(BadStage))
    else Some(BadOverviewValue)
  }

  /** The error of the first failing entry, in insertion order. */
  function FirstOverviewError(d: seq<(string, Value)>): (r: Option<ValidationError>)
    ensures r.None? <==> forall i :: 0 <= i < |d| ==> OverviewEntryOk(d[i].0, d[i].1)
    ensures r.Some? ==> exists i :: 0 <= i < |d| && r == OverviewEntryError(d[i].0, d[i].1) &&
                                   forall j :: 0 <= j < i ==> OverviewEntryOk(d[j].0, d[j].1)
  {
    if |d| == 0 then None
    else match OverviewEntryError(d[0].0, d[0].1)
      case Some(e) => Some(e)
      case None =>
        var r := FirstOverviewError(d[1..]);
        if r.Some? then
          var i :| 0 <= i < |d[1..]| && r == OverviewEntryError(d[1..][i].0, d[1..][i].1) &&
                   forall j :: 0 <= j < i ==> OverviewEntryOk(d[1..][j].0, d[1..][j].1);
          assert r == OverviewEntryError(d[i + 1].0, d[i + 1].1);
          r
        else r
  }

  /** `validate_architecture_structure(value)`. */
  function ValidateArchitectureStructure(v: Value): (r: Result)
    ensures !Truthy(v) || !v.Dict? ==> r == Pass
    ensures v.Dict? && !(Keys(v.entries) <= AllowedOverviewKeys) ==> r == Fail(InvalidKeys(Keys(v.entries) - AllowedOverviewKeys))
    ensures v.Dict? && Keys(v.entries) <= AllowedOverviewKeys ==>
              (r == Pass <==> forall i :: 0 <= i < |v.entries| ==> OverviewEntryOk(v.entries[i].0, v.entries[i].1))
    ensures r.Fail? ==> r.error.InvalidKeys? || r.error == BadStage || r.error == BadOverviewValue
    ensures v.Dict? && Keys(v.entries) <= AllowedOverviewKeys && r.Fail? ==> Some(r.error) == FirstOverviewError(v.entries)
  {
    if !Truthy(v) || !v.Dict? then Pass
    else
      var extra := Keys(v.entries) - AllowedOverviewKeys;
      if extra != {} then Fail(InvalidKeys(extra))
      else match FirstOverviewError(v.entries)
        case Some(e) => Fail(e)
        case None => Pass
  }

  /** An overview of allowed keys whose values are all strings is accepted. */
  lemma StringOverviewAccepted(d: seq<(string, Value)>)
    requires Keys(d) <= AllowedOverviewKeys
    requires forall i :: 0 <= i < |d| ==> d[i].1.Str?
    ensures ValidateArchitectureStructure(Dict(d)) == Pass
  {
  }
}
