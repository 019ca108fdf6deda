# Portfolio projects: filtering pipeline and record hygiene

This project models the core of the portfolio site's projects feature in Dafny. It covers both sides.

On the web client:
- the filter bar reads `status`, `tech` and `ordering` from the page address, and writes the selection back;
- the toggles and the ordering control;
- the request parameters and path the projects client sends;
- the cache keys of the project queries;
- the infinite list's next-page rule.

On the Django server:
- the projects view reads query parameters;
- the filter service normalises the ordering and composes the status and technology filters;
- the queryset methods filter and sort rows;
- the validators check untyped JSON fields;
- `Project.save` normalises challenge entries, picks a unique slug and runs the validators in order;
- `Technology.save` fills in a missing slug;
- the serializers shorten descriptions, build thumbnail and image URLs, and fix the list and detail field sets.

## How it is modelled

Files and modules:
- `wrappers.dfy` (`Wrappers`): `Option` and `Outcome`.
- `text.dfy` (`Text`): the string functions the code relies on, with their properties. These are `trim`/`strip`, `toLowerCase`/`lower`, `split`, `join` and the rendering of numbers.
- `types.dfy` (`ProjectTypes`): the status enum, the ordering enum, the filter record and the client record shapes.
- `project_filters.dfy` (`ProjectFilters`): the address codec.
  - The `URLSearchParams` object the hook mutates is the class `SearchParams`. Its field is a sequence of name/value pairs, and `Set` and `Delete` follow the URL standard's set and delete.
  - `SetFilters` is a method that mutates such an object.
- `projects_service.dfy`, `query_keys.dfy`, `projects_query.dfy`: request shaping, cache keys and query configuration.
- `py_values.dfy` (`PyValues`): a Python value datatype with Python truthiness, used for the JSON fields.
- `validators.dfy`, `querysets.dfy`, `services.dfy`, `views.dfy`, `models.dfy`, `serializers.dfy`: the server modules of the same names.

Modelling choices:
- **Querysets.** A queryset is a `seq<Row>`. Filtering is `Keep`. Sorting is a stable insertion sort under the ordering's comparison.
- **Slug table.** The slugs already used by other projects are a finite `set<string>`.
- **Foreign helpers.** These are function parameters:
  - `slugify`, `urlparse` (as its scheme/netloc result), `str()` of a non-string value and `str.isalnum` beyond ASCII;
  - `encodeURIComponent`, the image storage URL, and `request.build_absolute_uri`.

## Model

| member | source | states |
|---|---|---|
| ProjectTypes.StatusFromTag | portfolio/project/constants.py:3-14 | a tag decodes to a status exactly when it is one of `completed`, `in_progress`, `planned`, and the status spells that tag |
| ProjectTypes.OrderingFromTag | frontend/features/projects/hooks/use-project-filters.ts:8 | a tag decodes to an ordering exactly when it is `display`, `newest` or `oldest` |
| ProjectFilters.GetFirst | frontend/features/projects/hooks/use-project-filters.ts:34-36 | `get` is absent iff no pair has the name, and otherwise returns the value of the first pair with that name |
| ProjectFilters.SearchParams.Set | frontend/features/projects/hooks/use-project-filters.ts:45 | `set` replaces the first pair of that name and removes the others, or appends one when there is none |
| ProjectFilters.SearchParams.Delete | frontend/features/projects/hooks/use-project-filters.ts:46 | `delete` removes every pair of that name |
| ProjectFilters.GetFirstSet | frontend/features/projects/hooks/use-project-filters.ts:45 | after `set`, `get` of that name returns the value set |
| ProjectFilters.GetFirstDelete | frontend/features/projects/hooks/use-project-filters.ts:46 | after `delete`, `get` of that name is absent |
| ProjectFilters.NamedSetOther | frontend/features/projects/hooks/use-project-filters.ts:45-50 | `set` leaves the pairs of every other name as they were |
| ProjectFilters.NamedDeleteOther | frontend/features/projects/hooks/use-project-filters.ts:45-50 | `delete` leaves the pairs of every other name as they were |
| ProjectFilters.SerializeEmpty | frontend/features/projects/hooks/use-project-filters.ts:51-52 | the serialised query is empty exactly when there are no pairs |
| ProjectFilters.ParseStatus | frontend/features/projects/hooks/use-project-filters.ts:10-14 | a missing or empty parameter gives no statuses |
| ProjectFilters.StatusesOfCount | frontend/features/projects/hooks/use-project-filters.ts:12-13 | each status occurs in the output once per token that, trimmed and lower-cased, spells it: nothing is de-duplicated |
| ProjectFilters.StatusesOfAppend | frontend/features/projects/hooks/use-project-filters.ts:12-13 | tokens are decoded one at a time, so the statuses of a concatenation are the statuses of each side in order: input order is kept |
| ProjectFilters.ParseStatusCount | frontend/features/projects/hooks/use-project-filters.ts:10-14 | the same count, for a non-empty parameter split at commas |
| ProjectFilters.ParseTechnologies | frontend/features/projects/hooks/use-project-filters.ts:16-19 | a missing or empty parameter gives `[]`; every slug returned is non-empty, trimmed and comma-free |
| ProjectFilters.ParseOrdering | frontend/features/projects/hooks/use-project-filters.ts:21-25 | a missing, empty or unrecognised value gives `display`; otherwise the result is the trimmed, lower-cased value |
| ProjectFilters.ReadFiltersWellFormed | frontend/features/projects/hooks/use-project-filters.ts:32-39 | the filters read from any address are well-formed: trimmed, non-empty, comma-free slugs |
| ProjectFilters.Tags | frontend/features/projects/hooks/use-project-filters.ts:45 | the tag list has one tag per status, in order |
| ProjectFilters.SetFilters | frontend/features/projects/hooks/use-project-filters.ts:41-55 | the address produced is the pathname plus the serialised parameters after encoding the updated filters into a copy of the current parameters |
| ProjectFilters.EncodeNamed | frontend/features/projects/hooks/use-project-filters.ts:44-50 | after encoding, `status` is present iff statuses are selected and holds their comma-join, and the same holds for `tech`; `ordering` is present iff it is not `display`; every other parameter is carried over unchanged |
| ProjectFilters.EncodeGet | frontend/features/projects/hooks/use-project-filters.ts:44-50 | what `get` reads back for each of the three names after encoding |
| ProjectFilters.ReadEncodeRoundTrip | frontend/features/projects/hooks/use-project-filters.ts:10-25 | reading the encoded parameters gives back the filter, for well-formed filters |
| ProjectFilters.ParseStatusOfJoin | frontend/features/projects/hooks/use-project-filters.ts:10-14 | parsing the comma-join of status tags gives back the statuses |
| ProjectFilters.ParseTechnologiesOfJoin | frontend/features/projects/hooks/use-project-filters.ts:16-19 | parsing the comma-join of trimmed, non-empty, comma-free slugs gives them back |
| ProjectFilters.ParseOrderingOfTag | frontend/features/projects/hooks/use-project-filters.ts:21-25 | parsing an ordering's tag gives back the ordering |
| ProjectFilters.ResetGivesBarePath | frontend/features/projects/hooks/use-project-filters.ts:45-52 | with no other parameters, encoding the empty filter gives the bare pathname without `?` |
| ProjectFilters.ToggleStatus | frontend/features/projects/hooks/use-project-filters.ts:57-67 | the address produced is the encoding of the toggled status selection |
| ProjectFilters.ToggleTechnology | frontend/features/projects/hooks/use-project-filters.ts:69-79 | the address produced is the encoding of the toggled technology selection |
| ProjectFilters.SetOrdering | frontend/features/projects/hooks/use-project-filters.ts:81-86 | the address produced is the encoding of the selection with the new ordering |
| ProjectFilters.WithoutSpec | frontend/features/projects/hooks/use-project-filters.ts:61-62 | filtering out `x` removes its every occurrence and nothing else |
| ProjectFilters.ToggleSpec | frontend/features/projects/hooks/use-project-filters.ts:59-63 | toggling appends an absent value at the end and removes every occurrence of a present one |
| ProjectFilters.ToggleTwice | frontend/features/projects/hooks/use-project-filters.ts:59-63 | toggling twice restores the list when the value was absent, and the same set of values when it was present |
| ProjectFilters.ToggledStatusSpec | frontend/features/projects/hooks/use-project-filters.ts:57-67 | the status toggle changes only the status list, with the toggle semantics |
| ProjectFilters.ToggledTechnologySpec | frontend/features/projects/hooks/use-project-filters.ts:69-79 | the technology toggle changes only the technology list, with the toggle semantics |
| ProjectFilters.ReadAfterToggleStatus | frontend/features/projects/hooks/use-project-filters.ts:57-67 | reading the address after a status toggle gives exactly the toggled filter |
| ProjectFilters.ReadAfterToggleTechnology | frontend/features/projects/hooks/use-project-filters.ts:69-79 | reading the address after a technology toggle of a trimmed, non-empty, comma-free slug gives exactly the toggled filter |
| ProjectFilters.ReadAfterSetOrdering | frontend/features/projects/hooks/use-project-filters.ts:81-86 | reading the address after setting the ordering gives exactly the filter with that ordering |
| ProjectsService.BuildParams | frontend/lib/services/projects.ts:10-16 | `status` is present iff statuses are selected, holding the list itself; `technologies` is present iff slugs are selected, holding their comma-join; `ordering` is always present; there are no other keys |
| ProjectsService.ListRequest | frontend/lib/services/projects.ts:19-27 | the list request goes to `/api/projects/` with the built parameters plus `page`, which defaults to 1 |
| ProjectsService.DetailPathInjective | frontend/lib/services/projects.ts:29-32 | two slugs share a detail path exactly when their encodings agree |
| ProjectsService.DetailPathSlice | frontend/lib/services/projects.ts:30 | the detail path is `/api/projects/`, the encoded slug and `/` |
| ProjectsService.DisplayIsSentButNotInAddress | frontend/lib/services/projects.ts:14 | for the `display` ordering, the tag `BuildParams` always sends is `display`, and the address encoding has no `ordering` parameter |
| QueryKeys.AllIsPrefix | frontend/lib/query-keys.ts:5-8 | `all` is a prefix of every list key and every detail key |
| QueryKeys.ListKeyInjective | frontend/lib/query-keys.ts:6-7 | list keys are equal exactly when the filters and the page are equal |
| QueryKeys.DetailKeyInjective | frontend/lib/query-keys.ts:8 | detail keys are equal exactly when the slugs are |
| QueryKeys.ListKeyIsNotDetailKey | frontend/lib/query-keys.ts:7-8 | a list key never equals a detail key |
| QueryKeys.ListKeyIsOrderSensitive | frontend/lib/query-keys.ts:7 | the same statuses in another order give another list key |
| ProjectsQuery.NextPageParam | frontend/features/projects/hooks/use-projects-query.ts:28-29 | there is a next page iff the last page has a `next` link and at least 12 results; it is the number of loaded pages plus one |
| ProjectsQuery.NoNextPage | frontend/features/projects/hooks/use-projects-query.ts:28-29 | a page without `next`, or with fewer than 12 results, ends the list |
| ProjectsQuery.NextPageFollowsLoaded | frontend/features/projects/hooks/use-projects-query.ts:27-29 | a defined next page is at least 2 |
| ProjectsQuery.ListQuery | frontend/features/projects/hooks/use-projects-query.ts:14-20 | the list query is keyed and fetched with the same filters and page |
| ProjectsQuery.ListQueryKeyDeterminesFetch | frontend/features/projects/hooks/use-projects-query.ts:16-17 | two list queries share a key exactly when they fetch the same thing |
| ProjectsQuery.InfiniteKeyDistinct | frontend/features/projects/hooks/use-projects-query.ts:22-31 | the infinite list's key starts with `all` and is neither a list nor a detail key |
| ProjectsQuery.DetailQuery | frontend/features/projects/hooks/use-projects-query.ts:33-39 | the detail query is enabled iff the slug is non-null and non-empty; a null slug is keyed as `""` |
| ProjectsQuery.DetailQueryEnabledFetch | frontend/features/projects/hooks/use-projects-query.ts:35-37 | an enabled detail query fetches the slug it is keyed by |
| PyValues.Keys | portfolio/project/validators.py:60 | the key set of a dict holds exactly its keys |
| Validators.CheckParsedUrl | portfolio/project/validators.py:12-19 | a non-empty scheme other than `http`/`https` is rejected; otherwise a non-empty netloc that matches neither host pattern (with Unicode `\w`) is rejected; nothing else is |
| Validators.ValidateOptionalHttpsUrl | portfolio/project/validators.py:8-19 | an empty value is accepted; any other value is judged by its parsed scheme and netloc |
| Validators.HostAcceptedIffLooseChars | portfolio/project/validators.py:14-19 | a non-empty, newline-free netloc is accepted exactly when all its characters are Unicode word characters, `.` or `-`: the stricter first pattern never changes the outcome |
| Validators.StrictBodyIsLoose | portfolio/project/validators.py:16-17 | every character that the strict pattern accepts, the loose pattern also accepts |
| Validators.PortIsRejected | portfolio/project/validators.py:14-19 | a host with a port colon is rejected |
| Validators.UnicodeHostAccepted | portfolio/project/validators.py:18 | a host with a non-ASCII letter, `münchen.de`, fails the ASCII strict pattern but is accepted by `\w` |
| Validators.FtpIsRejected | portfolio/project/validators.py:12-13 | an `ftp` scheme is rejected |
| Validators.FirstNonString | portfolio/project/validators.py:26-29 | it finds the first non-string element, or none when all are strings |
| Validators.ValidateStringList | portfolio/project/validators.py:22-29 | a list passes iff it is falsy or a list of strings; a non-list fails as such; otherwise the failure names the first non-string index |
| Validators.ChallengeItemError | portfolio/project/validators.py:40-54 | an item fails iff it is not a dict of string `challenge` and `solution`; the error names its index |
| Validators.FirstBadItem | portfolio/project/validators.py:40-54 | it finds the first item that is not a valid entry, or none when all are |
| Validators.ValidateChallengesSolutions | portfolio/project/validators.py:32-54 | a value passes iff it is falsy or a list whose every item is a dict with string `challenge` and `solution`; a non-list fails as such; otherwise the first failing index is reported |
| Validators.OverviewEntryError | portfolio/project/validators.py:64-72 | an entry fails iff it is neither a string nor a `stages` list of dicts with `name` and `description` |
| Validators.FirstOverviewError | portfolio/project/validators.py:64-72 | the reported error is that of the first failing entry |
| Validators.ValidateArchitectureStructure | portfolio/project/validators.py:57-72 | falsy or non-dict values pass; unknown keys fail, naming them; otherwise the value passes iff every entry is a string or well-formed stages, and a failure is the first failing entry's error |
| Validators.StringOverviewAccepted | portfolio/project/validators.py:64-66 | a dict of allowed keys with string values passes |
| QuerySets.KeepCount | portfolio/project/querysets.py:21 | filtering keeps every passing row as often as it occurs, and no other row |
| QuerySets.KeepAppend | portfolio/project/querysets.py:21 | filtering distributes over concatenation, so the input order is kept |
| QuerySets.ByStatusIsFilter | portfolio/project/querysets.py:15-21 | with values given, `by_status` keeps exactly the rows whose status is among the valid given values |
| QuerySets.ByStatusCount | portfolio/project/querysets.py:15-21 | with no values the input is returned unchanged; otherwise each row is kept as often as it occurs iff its status is a valid given value |
| QuerySets.ByInvalidStatusIsEmpty | portfolio/project/querysets.py:18-20 | when none of the values is a status, the result is empty |
| QuerySets.MatchCountPositive | portfolio/project/querysets.py:26 | a row joins at least one technology iff one of its slugs is among those asked for |
| QuerySets.DistinctJoin | portfolio/project/querysets.py:26 | de-duplicating the join keeps each matching row once, in input order |
| QuerySets.ByTechnologiesIsFilter | portfolio/project/querysets.py:23-26 | for a duplicate-free table, `by_technologies` keeps exactly the rows having a matching technology, each once, in order |
| QuerySets.Insert | portfolio/project/querysets.py:28-32 | inserting into a sorted list keeps it sorted and adds exactly that row |
| QuerySets.Sort | portfolio/project/querysets.py:28-32 | sorting gives a sorted permutation of the input |
| QuerySets.SortOfSorted | portfolio/project/querysets.py:28-32 | sorting an already sorted list leaves it unchanged |
| QuerySets.OrderedByNewest | portfolio/project/querysets.py:28-29 | the result is a permutation sorted by `created_at` descending |
| QuerySets.OrderedByDisplay | portfolio/project/querysets.py:31-32 | the result is a permutation sorted by `display_order` ascending, ties by `created_at` descending |
| QuerySets.UniqueMatch | portfolio/project/views.py:11-12 | with unique slugs, a queryset keeping a table row has that row as its only match for the row's slug |
| QuerySets.LatestFirst | portfolio/project/querysets.py:28-29 | newest first, a row created after all the others leads |
| QuerySets.ForList | portfolio/project/querysets.py:39-40 | `for_list` is the whole table in display order |
| FilterService.NormaliseOrdering | portfolio/project/services.py:20-22 | the result is a valid choice; `None` or empty gives `display`; otherwise the stripped, lower-cased value if valid, else `display` |
| FilterService.NormaliseOrderingIgnoresCaseAndSpace | portfolio/project/services.py:20-22 | surrounding spaces and case of the ordering make no difference |
| FilterService.FilteredCount | portfolio/project/services.py:14-19 | for a duplicate-free table, the filter stages keep every row passing both active filters as often as it occurs, and no other row |
| FilterService.GetQuerysetSpec | portfolio/project/services.py:14-29 | for a duplicate-free table the result is sorted by the normalised ordering and keeps every row passing both active filters as often as it occurs, and no other row |
| FilterService.NoArgumentsIsForList | portfolio/project/services.py:14-29 | with no arguments the result is the whole table in display order |
| FilterService.EmptyTechnologiesIsNoFilter | portfolio/project/services.py:18-19 | an empty slug list applies no technology filter |
| FilterService.FixtureDisplayOrder | portfolio/project/tests/test_services.py:73-79 | rows given in display order come back unchanged under `display` |
| FilterService.FixtureInvalidOrdering | portfolio/project/tests/test_services.py:81-87 | an invalid ordering falls back to display order |
| FilterService.FixtureNewestFirst | portfolio/project/tests/test_services.py:65-71 | under `newest` the most recently created row comes first |
| FilterService.InvalidStatusGivesNothing | portfolio/project/services.py:16-17 | the invalid status of the service tests returns nothing, whatever the other arguments |
| FilterService.DisplaySortedTableUnchanged | portfolio/project/services.py:20-28 | a table already in display order comes back unchanged when the ordering normalises to `display` |
| FilterService.NewestComesFirst | portfolio/project/services.py:23-24 | under `newest`, a row created after all the others comes first |
| FilterService.InvalidOrderingIsDefault | portfolio/project/services.py:20-22 | the invalid ordering of the service tests normalises to `display` |
| ProjectViews.GetList | portfolio/project/views.py:15 | `getlist` returns exactly the values of the parameters with that name |
| ProjectViews.GetListAppend | portfolio/project/views.py:15 | the values are collected pair by pair, in query-string order and with repetitions |
| ProjectViews.GetLast | portfolio/project/views.py:16-24 | `get` returns the last value of that name, or the default |
| ProjectViews.TechnologySlugs | portfolio/project/views.py:16-21 | a missing or empty parameter gives no slug list; otherwise every slug is trimmed, non-empty and comma-free |
| ProjectViews.TechnologySlugsMembers | portfolio/project/views.py:16-21 | for a non-empty parameter, a string is a slug iff it is non-empty and some comma-separated piece strips to it |
| ProjectViews.TechnologySlugsAsClient | portfolio/project/views.py:16-21 | over the six whitespace characters both languages trim, a non-empty parameter gives the slugs the client's `parseTechnologies` gives, in the same order; an empty one gives no list on the server and `[]` on the client |
| ProjectViews.ListArgumentsOf | portfolio/project/views.py:14-24 | status is every repeated `status` value, the slugs come from the last `technologies` value, and the ordering is the last `ordering` value, `display` when it is missing |
| ProjectViews.CommasOnlyIsNoFilter | portfolio/project/views.py:16-21 | a parameter made only of commas and spaces gives `[]`, which applies no technology filter |
| ProjectViews.StatusIsNotSplit | portfolio/project/views.py:15 | a status value is passed on whole, without comma splitting |
| ProjectViews.SerializerFor | portfolio/project/views.py:31-34 | the detail serializer is chosen iff the action is `retrieve` |
| ProjectViews.Retrieve | portfolio/project/views.py:10-12 | a found row has the slug looked up |
| ProjectViews.RetrieveSpec | portfolio/project/views.py:10-29 | with unique slugs, the lookup finds exactly the row with that slug passing the view's filters, and is not found iff there is none |
| ProjectViews.UnknownSlugNotFound | portfolio/project/views.py:11-12 | a slug no row has is not found |
| Models.NormalizeItem | portfolio/project/models.py:80-94 | `None` is dropped; a dict takes each value from the lower-case key when that is truthy and from the capitalised key otherwise, is kept iff both chosen values are not `None`, and becomes the entry of their `str()`; a two-element list or tuple becomes the entry of its stringified elements; other values are dropped; whatever is kept is a valid entry |
| Models.FallbackEntry | portfolio/project/models.py:83-88 | a dict whose lower-case challenge is falsy and whose capitalised challenge and solution are strings becomes the entry of those strings |
| Models.CapitalisedKeyFallback | portfolio/project/models.py:83-84 | an empty lower-case `challenge` falls through `or` to `Challenge` |
| Models.NormalizedItems | portfolio/project/models.py:78-95 | the output has no more items than the input |
| Models.NormalizedItemsValid | portfolio/project/models.py:86-93 | every item of the normalised list is a valid entry |
| Models.NormalizedItemsAppend | portfolio/project/models.py:79-94 | items are normalised one by one, so kept items keep their relative order |
| Models.NormalizedField | portfolio/project/models.py:73-77 | a falsy or non-list field is left as it is |
| Models.NormalizeList | portfolio/project/models.py:78-95 | the loop builds exactly the normalised list |
| Models.NormalizedFieldValidates | portfolio/project/models.py:106-109 | after normalisation, the challenge validator passes exactly when the field was falsy or a list |
| Models.WrongKeysAreDropped | portfolio/project/models.py:82-89 | a dict with wrong keys is dropped, so the normalised field passes validation |
| Models.NormalizeStable | portfolio/project/models.py:82-89 | a list of entries with non-empty challenge and solution strings normalises to itself |
| Models.NormalizeIsNotIdempotent | portfolio/project/models.py:83-85 | an entry with an empty challenge is kept on a first pass from a pair but dropped on a second |
| Models.CandidateInjective | portfolio/project/models.py:100-104 | different counters give different candidate slugs |
| Models.TriedBelowSize | portfolio/project/models.py:101-104 | the first n candidates are n different slugs |
| Models.UniqueSlug | portfolio/project/models.py:98-105 | the slug is unused, is the base if that is free, and is otherwise `base-n` for the least free n |
| Models.FullClean | portfolio/project/models.py:40-55 | passes iff the title and description are non-blank, both URLs pass their validator, the status is non-blank and a choice, and the slug is not another project's; otherwise the error is that of the first failing check in that order |
| Models.SaveOutcomeSpec | portfolio/project/models.py:106-113 | save succeeds iff every validator passes, architecture only when truthy; a failing step earlier in the order wins |
| Models.Technology.Save | portfolio/project/models.py:33-36 | an empty slug becomes `slugify(name)`; a non-empty one is left as it is |
| Models.Project.NormalizeTechnicalChallengesSolutions | portfolio/project/models.py:73-95 | the field becomes its normalised form and nothing else changes |
| Models.Project.Save | portfolio/project/models.py:97-113 | a non-empty slug is kept, an empty one becomes the first free candidate and never fails uniqueness; the challenges are normalised; the outcome is that of the validators in source order |
| Serializers.LastIndexOf | portfolio/project/serializers.py:62 | it finds the last occurrence of the character, if any |
| Serializers.BeforeLast | portfolio/project/serializers.py:62 | `rsplit(c, 1)[0]` is the text before the last `c`, or the whole text without one |
| Serializers.ShortDescription | portfolio/project/serializers.py:58-62 | a description of at most 200 characters is returned unchanged; a longer one gives at most 200 characters ending in `...`, the rest a prefix of the description |
| Serializers.ShortDescriptionCut | portfolio/project/serializers.py:62 | the cut is at the last space of the first 197 characters, or keeps all 197 when there is none |
| Serializers.FirstImage | portfolio/project/models.py:122-123 | the first image is the least by `(order, id)` and exists iff there are images |
| Serializers.ImageUrl | portfolio/project/serializers.py:22-26 | the URL is null iff the file is missing; it is absolute when a request is present |
| Serializers.ThumbnailIsFirstImageUrl | portfolio/project/serializers.py:49-56 | the thumbnail is null iff there are no images or the first has no file, and is otherwise that image's URL |
| Serializers.ListFieldSet | portfolio/project/serializers.py:36-47 | the list field set has `short_description` but not `display_order`, `description` or `images` |
| Serializers.DetailFieldSet | portfolio/project/serializers.py:70-89 | the detail field set has `description` and `images` but not `display_order` |
| Text.SplitJoin | frontend/features/projects/hooks/use-project-filters.ts:44-50 | splitting a join of separator-free parts at the separator gives them back |
| Text.TrimSpec | frontend/features/projects/hooks/use-project-filters.ts:12 | the trimmed text is a slice of the input with no whitespace at its ends, and everything before and after the slice is whitespace |
| Text.NonBlankTokens | frontend/features/projects/hooks/use-project-filters.ts:18 | every kept token is trimmed and non-empty, and comma-free when the parts are |
| Text.NonBlankTokensMembers | frontend/features/projects/hooks/use-project-filters.ts:18 | a string is a token iff it is non-empty and some part trims to it |
| Text.NonBlankTokensAppend | frontend/features/projects/hooks/use-project-filters.ts:18 | the tokens of a concatenation are those of each side in order: the parts' order is kept |
| Text.DigitsValueOfNatToString | portfolio/project/models.py:104 | the decimal rendering of a counter reads back as that counter |

## Left out

- React rendering, DOM behaviour, scrolling, timers and the navigation call `router.replace` are not modelled. `SetFilters` returns the address it would navigate to.
- The HTTP calls of the projects client are I/O and are left out, as are the query library's caching, deduplication and `keepPreviousData`. Only the keys, fetch choices and page rules handed to the library are modelled.
- The wire format of the `status` array in list requests is not modelled; its encoding belongs to the HTTP client, which is not part of this model.
- Percent-encoding in `URLSearchParams.toString` and in `encodeURIComponent` is not modelled. Serialisation joins `name=value` pairs with `&`, and `encodeURIComponent` is an abstract function.
- Text.Trim: trims only the six ASCII whitespace characters space, tab, LF, VT, FF and CR, and `lower` only folds `A`-`Z`. Both languages also remove other Unicode spaces, and they disagree with each other. Python `str.strip` also removes U+001C-U+001F and U+0085, which JavaScript `trim` keeps. JavaScript `trim` removes U+FEFF, which Python keeps. The model's server/client agreement (`ProjectViews.TechnologySlugsAsClient`) therefore holds only for parameters whose whitespace is among the six modelled characters: `"react\x1f"` gives `["react"]` on the server and `["react\x1f"]` on the client.
- QuerySets.Sort: the database's order among rows with equal sort keys is unspecified. The model sorts stably, so it keeps their input order.
- QuerySets.ByTechnologiesIsFilter: the table is required to be free of duplicate rows, as a table of records with distinct primary keys is.
- Prefetching of technologies and images only affects query count and is left out.
- Models.FullClean: Django's `full_clean` is only partly modelled. The model covers blank-field checks, the URL validators, the status choice and the uniqueness of the slug, and reports the first error. It does not cover `max_length`, Django's own `URLValidator`, slug-field syntax, or the aggregation of several errors into one exception.
- Models.Project.Save: the database write and the query of other projects' slugs are left out; the slugs taken by other projects are a parameter.
- Python's `slugify`, `urlparse`, `str()` of a non-string value and `build_absolute_uri` are abstract functions. So is `str.isalnum` on non-ASCII characters, which decides Python's Unicode `\w`; the Unicode database is not modelled.
- PyValues.Value: has no float case. A JSON number with a fraction would be treated like an `Int` on every modelled path: it is truthy iff non-zero, not a string, and rendered by `str()`.
- Validators.ValidateArchitectureStructure: the invalid-key error carries the set of extra keys rather than their sorted list rendered as text.
- The server's pagination configuration (page size and `next` links) is not part of this model; the client's page rule takes the response as given.
- A test in `portfolio/project/tests/test_models.py` (lines 111-113) expects a challenge list of `[{"wrong": "keys"}]` to be rejected on save. The code drops such an item during normalisation, so save accepts it. The model follows the code (`Models.WrongKeysAreDropped`).
- Admin, routing and the remaining React components do not contain modelled logic.
