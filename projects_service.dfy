/**
 * The projects data client: how a filter selection and a page number become
 * the query parameters of the list request, and how a slug becomes the
 * detail path. The HTTP call itself is not modelled.
 */
module ProjectsService {
  import opened Wrappers
  import opened Text
  import opened ProjectTypes
  import ProjectFilters

  const Base := "/api/projects"

  /** A value of the parameter record handed to the HTTP client. */
  datatype ParamValue = One(text: string) | Many(items: seq<string>) | Number(n: int)

  /** `buildParams`: fills an empty record by three conditional assignments. */
  method BuildParams(filters: Filters) returns (params: map<string, ParamValue>)
    ensures "status" in params <==> |filters.status| > 0
    ensures "status" in params ==> params["status"] == Many(ProjectFilters.Tags(filters.status))
    ensures "technologies" in params <==> |filters.technologies| > 0
    ensures "technologies" in params ==> params["technologies"] == One(Join(filters.technologies, ','))
    ensures "ordering" in params && params["ordering"] == One(filters.ordering.Tag())
    ensures params.Keys <= {"status", "technologies", "ordering"}
  {
    params := map[];
    if |filters.status| > 0 {
      params := params["status" := Many(ProjectFilters.Tags(filters.status))];
    }
    if |filters.technologies| > 0 {
      params := params["technologies" := One(Join(filters.technologies, ','))];
    }
    if filters.ordering.Tag() != "" {
      params := params["ordering" := One(filters.ordering.Tag())];
    }
  }

  /** A GET request as handed to the HTTP client: a path and its parameter record. */
  datatype Request = Get(path: string, params: map<string, ParamValue>)

  /** The request `list(filters, page)` issues; an omitted page is page 1. */
  method ListRequest(filters: Filters, page: Option<int>) returns (req: Request)
    ensures req.path == Base + "/"
    ensures "page" in req.params && req.params["page"] == Number(page.GetOr(1))
    ensures req.params.Keys == {"page", "ordering"}
                               + (if |filters.status| > 0 then {"status"} else {})
                               + (if |filters.technologies| > 0 then {"technologies"} else {})
    ensures "status" in req.params ==> req.params["status"] == Many(ProjectFilters.Tags(filters.status))
    ensures "technologies" in req.params ==> req.params["technologies"] == One(Join(filters.technologies, ','))
    ensures req.params["ordering"] == One(filters.ordering.Tag())
  {
    var params := BuildParams(filters);
    req := Get(Base + "/", params["page" := Number(page.GetOr(1))]);
  }

  /**
   * The path `getBySlug(slug)` requests; `encode` stands for
   * `encodeURIComponent`, which is not modelled.
   */
  function DetailPath(slug: string, encode: string -> string): (path: string)
    ensures path == "/api/projects/" + encode(slug) + "/"
  {
    Base + "/" + encode(slug) + "/"
  }

  /** The encoded slug can be read back from the path between the prefix and the closing slash. */
  lemma DetailPathSlice(slug: string, encode: string -> string)
    ensures var p := DetailPath(slug, encode);
            |p| >= 15 && p[14..|p| - 1] == encode(slug)
  {
  }

  /** Two slugs share a detail path exactly when their encodings agree. */
  lemma DetailPathInjective(a: string, b: string, encode: string -> string)
    ensures DetailPath(a, encode) == DetailPath(b, encode) <==> encode(a) == encode(b)
  {
    DetailPathSlice(a, encode);
    DetailPathSlice(b, encode);
  }

  /**
   * The page address has no `ordering` parameter for `display`. That the
   * list request still sends it is `BuildParams`' `ensures`, which always
   * puts `filters.ordering.Tag()` in the record; the first clause here only
   * spells out that tag.
   */
  lemma DisplayIsSentButNotInAddress(filters: Filters, e: seq<ProjectFilters.Param>)
    requires filters.ordering == Display
    ensures filters.ordering.Tag() == "display"
    ensures ProjectFilters.GetFirst(ProjectFilters.EncodeEntries(e, filters), "ordering") == None
  {
    ProjectFilters.EncodeGet(e, filters);
  }
}
