/**
 * The domain vocabulary shared by client and server: the project status
 * and ordering enumerations and the record shapes the API exchanges.
 */
module ProjectTypes {
  import opened Wrappers
  import Text

  /** The three project statuses; `Tag` is the wire spelling. */
  datatype Status = Completed | InProgress | Planned {
    function Tag(): (t: string)
      ensures |t| > 0 && Text.IsTrimmed(t) && Text.HasNoUpper(t) && ',' !in t
    {
      match this
      case Completed => "completed"
      case InProgress => "in_progress"
      case Planned => "planned"
    }
  }

  /** `STATUS_VALUES` on the client, `ProjectStatus.VALUES` on the server. */
  const StatusValues: set<string> := {"completed", "in_progress", "planned"}

  /** The status a wire tag names, if it names one. */
  function StatusFromTag(t: string): (r: Option<Status>)
    ensures r.Some? <==> t in StatusValues
    ensures r.Some? ==> r.value.Tag() == t
  {
    if t == "completed" then Some(Completed)
    else if t == "in_progress" then Some(InProgress)
    else if t == "planned" then Some(Planned)
    else None
  }

  lemma StatusTagInjective(a: Status, b: Status)
    requires a.Tag() == b.Tag()
    ensures a == b
  {
  }

  /** The list orderings; `Display` is the default. */
  datatype Ordering = Display | Newest | Oldest {
    function Tag(): (t: string)
      ensures |t| > 0 && Text.IsTrimmed(t) && Text.HasNoUpper(t)
    {
      match this
      case Display => "display"
      case Newest => "newest"
      case Oldest => "oldest"
    }
  }

  const OrderingValues: set<string> := {"display", "newest", "oldest"}

  function OrderingFromTag(t: string): (r: Option<Ordering>)
    ensures r.Some? <==> t in OrderingValues
    ensures r.Some? ==> r.value.Tag() == t
  {
    if t == "display" then Some(Display)
    else if t == "newest" then Some(Newest)
    else if t == "oldest" then Some(Oldest)
    else None
  }

  /** The filter selection kept in the page address. */
  datatype Filters = Filters(status: seq<Status>, technologies: seq<string>, ordering: Ordering)

  const NoFilters := Filters([], [], Display)

  datatype Technology = Technology(slug: string, name: string, category: string)

  datatype ProjectImage = ProjectImage(id: int, url: string, caption: string, order: int)

  datatype ProjectListItem = ProjectListItem(
    id: int,
    slug: string,
    title: string,
    shortDescription: string,
    status: Status,
    technologies: seq<Technology>,
    thumbnail: Option<string>,
    liveDemoUrl: string,
    sourceCodeUrl: string,
    createdAt: string)

  datatype ChallengeSolution = ChallengeSolution(challenge: string, solution: string)

  datatype Stage = Stage(name: string, description: string)

  /** A value of `architectural_overview`: a string or a list of stages. */
  datatype OverviewEntry = Plain(text: string) | Stages(stages: seq<Stage>)

  datatype ProjectDetail = ProjectDetail(
    id: int,
    slug: string,
    title: string,
    description: string,
    problemStatement: string,
    keyFeatures: seq<string>,
    myRole: string,
    technicalChallengesSolutions: seq<ChallengeSolution>,
    architecturalOverview: map<string, OverviewEntry>,
    futureEnhancements: seq<string>,
    liveDemoUrl: string,
    sourceCodeUrl: string,
    status: Status,
    technologies: seq<Technology>,
    images: seq<ProjectImage>,
    createdAt: string,
    updatedAt: string)

  /** The paginated list response. `next` and `previous` are page links or null. */
  datatype ProjectsListResponse = ProjectsListResponse(
    count: nat,
    next: Option<string>,
    previous: Option<string>,
    results: seq<ProjectListItem>)
}
