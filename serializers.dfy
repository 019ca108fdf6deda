/**
 * The serializers of the project API: the short description of the list,
 * the image and thumbnail URLs, and the field sets of the two responses.
 */
module Serializers {
  import opened Wrappers

  // ---------------------------------------------------------------------
  // get_short_description
  // ---------------------------------------------------------------------

  const MaxLength: nat := 200
  const Ellipsis: string := "..."

  /** The position of the last `c` in `s`. */
  function LastIndexOf(s: string, c: char): (r: Option<nat>)
    ensures r.None? <==> c !in s
    ensures r.Some? ==> r.value < |s| && s[r.value] == c && c !in s[r.value + 1..]
  {
    if |s| == 0 then None
    else if s[|s| - 1] == c then Some(|s| - 1)
    else
      var r := LastIndexOf(s[..|s| - 1], c);
      assert s == s[..|s| - 1] + [s[|s| - 1]];
      if r.Some? then
        assert s[r.value + 1..] == s[..|s| - 1][r.value + 1..] + [s[|s| - 1]];
        r
      else r
  }

  /** `s.rsplit(c, 1)[0]`: everything before the last `c`, or all of `s` when there is none. */
  function BeforeLast(s: string, c: char): (r: string)
    ensures c !in s ==> r == s
    ensures c in s ==> |r| < |s| && s[|r|] == c && r == s[..|r|] && c !in s[|r| + 1..]
  {
    match LastIndexOf(s, c)
    case Some(k) => s[..k]
    case None => s
  }

  /** `get_short_description`. */
  function ShortDescription(d: string): (r: string)
    ensures |d| <= MaxLength ==> r == d
    ensures |d| > MaxLength ==>
              |r| <= MaxLength && |r| >= |Ellipsis| && r[|r| - |Ellipsis|..] == Ellipsis &&
              r[..|r| - |Ellipsis|] == d[..|r| - |Ellipsis|]
  {
    if |d| <= MaxLength then d
    else
      var head := BeforeLast(d[..MaxLength - |Ellipsis|], ' ');
      var r := head + Ellipsis;
      assert r[..|head|] == head && r[|head|..] == Ellipsis;
      r
  }

  /**
   * A long description is cut at the last space of its first 197
   * characters, or kept whole at 197 characters when there is no space.
   */
  lemma ShortDescriptionCut(d: string)
    requires |d| > MaxLength
    ensures var head := ShortDescription(d)[..|ShortDescription(d)| - |Ellipsis|];
            var window := d[..MaxLength - |Ellipsis|];
            (' ' in window ==> |head| < |window| && d[|head|] == ' ' && ' ' !in window[|head| + 1..]) &&
            (' ' !in window ==> head == window)
  {
    var window := d[..MaxLength - |Ellipsis|];
    var head := BeforeLast(window, ' ');
    assert ShortDescription(d) == head + Ellipsis;
    assert ShortDescription(d)[..|ShortDescription(d)| - |Ellipsis|] == head;
  }

  // ---------------------------------------------------------------------
  // Image URLs
  // ---------------------------------------------------------------------

  /** A project image row; `file` is the stored name, empty when there is no file. */
  datatype ImageRow = ImageRow(id: nat, file: string, caption: string, order: nat)

  /** The image ordering `["order", "id"]`. */
  predicate ImageBefore(a: ImageRow, b: ImageRow) {
    a.order < b.order || (a.order == b.order && a.id <= b.id)
  }

  /** `images.first()`: the least image in the image ordering. */
  function FirstImage(images: seq<ImageRow>): (r: Option<ImageRow>)
    ensures r.None? <==> images == []
    ensures r.Some? ==> r.value in images && forall i :: 0 <= i < |images| ==> ImageBefore(r.value, images[i])
  {
    if |images| == 0 then None
    else
      var rest := FirstImage(images[1..]);
      if rest.None? || ImageBefore(images[0], rest.value) then Some(images[0]) else rest
  }

  /**
   * `ProjectImageSerializer.get_url`: `None` without a file; otherwise the
   * file's URL, made absolute when a request is in the context.
   */
  function ImageUrl(file: string, request: Option<string -> string>, urlOf: string -> string): (r: Option<string>)
    ensures r.None? <==> file == ""
    ensures file != "" && request.None? ==> r == Some(urlOf(file))
    ensures file != "" && request.Some? ==> r == Some(request.value(urlOf(file)))
  {
    if request.Some? && file != "" then Some(request.value(urlOf(file)))
    else if file != "" then Some(urlOf(file))
    else None
  }

  /** `ProjectListSerializer.get_thumbnail`. */
  function Thumbnail(images: seq<ImageRow>, request: Option<string -> string>, urlOf: string -> string): Option<string> {
    var first := FirstImage(images);
    if first.None? || first.value.file == "" then None
    else if request.Some? then Some(request.value(urlOf(first.value.file)))
    else Some(urlOf(first.value.file))
  }

  /**
   * The thumbnail is the URL of the first image, rendered as the image
   * serializer renders it, and is null exactly when there is no image or the
   * first image has no file.
   */
  lemma ThumbnailIsFirstImageUrl(images: seq<ImageRow>, request: Option<string -> string>, urlOf: string -> string)
    ensures Thumbnail(images, request, urlOf).None? <==> images == [] || FirstImage(images).value.file == ""
    ensures images != [] ==> Thumbnail(images, request, urlOf) == ImageUrl(FirstImage(images).value.file, request, urlOf)
  {
  }

  // ---------------------------------------------------------------------
  // Field sets
  // ---------------------------------------------------------------------

  const ListFields: seq<string> := [
    "id", "slug", "title", "short_description", "status", "technologies",
    "thumbnail", "live_demo_url", "source_code_url", "created_at"]

  const DetailFields: seq<string> := [
    "id", "slug", "title", "description", "problem_statement", "key_features",
    "my_role", "technical_challenges_solutions", "architectural_overview",
    "future_enhancements", "live_demo_url", "source_code_url", "status",
    "technologies", "images", "created_at", "updated_at"]

  /** The list response exposes neither `display_order` nor the full description and images, but the short description. */
  lemma ListFieldSet()
    ensures "display_order" !in ListFields
    ensures "short_description" in ListFields && "description" !in ListFields && "images" !in ListFields
  {
  }

  /** The detail response exposes the description and images, but not `display_order`. */
  lemma DetailFieldSet()
    ensures "display_order" !in DetailFields
    ensures "description" in DetailFields && "images" in DetailFields
  {
  }
}
