# Podcast search filter builder

This project models the filter builder of the `GET /api/podcasts` handler in
`src/pages/api/podcasts.ts`. The handler searches the `article` table. It takes:

- any number of `orGroup` values, each a `|`-separated list of keywords;
- any number of `exclude` keywords;
- an optional `title`;
- any number of `podcast` keys.

It either answers with an empty result straight away, or it puts an ordered list
of PostgREST filter calls on the query and reports what the backend returns.

The model has six modules:

- `Wrappers` (`wrappers.dfy`): `Option`, for the source's `string | null`.
- `Text` (`text.dfy`): `split` with a one-character separator, and `join`. It proves both round trips: joining the pieces of a split gives the string back, and splitting a join of separator-free parts gives the parts back. It also proves the piece count.
- `Registry` (`registry.dfy`): `PODCAST_DOMAINS` with its keys in declaration order (the order `Object.keys` returns), and two lookups of a key. `Lookup` reads only the registry's own keys. `LookupAsWritten` also reaches the members every object inherits from `Object.prototype`, as the source's bracket access does (see Findings).
- `Filters` (`filters.dfy`): the URL terms from the podcast selection, and the text filter from the OR-groups. Both are built as strings with the source's templates. The URL terms take the key lookup as a parameter.
- `PodcastsHandler` (`handler.dfy`): `PlanWith`, the clause list as a whole for a given key lookup, and `BuildQuery`, the step-by-step method. `BuildQuery` is proved equal to `PlanWith`. `Plan` uses `Registry.Lookup`; `PlanAsWritten` uses `Registry.LookupAsWritten`. The two are proved equal on every request that selects no inherited member name. It starts from a query, may replace it with a fresh one for the combined filter, and appends one `.not` per exclusion in a loop. This module also holds the response choice (`Respond`) and the handler (`Get`), which takes the backend as a parameter.
- `Semantics` (`semantics.dfy`): a filter tree (`Pred`) and its rendering in PostgREST syntax, plus an evaluator. The evaluator is an explicit ASSUMPTION about what PostgREST does with the rendered strings. The module proves that `Plan`'s clauses are exactly the rendering of the tree `Compile` builds. It also proves that a row passes that tree exactly when it is wanted: its URL contains a selected known domain (when there is one), some OR-group has all its words in the text (when there is one), no excluded word is in the text, and a truthy title filter is in the title.

The title is an `Option<string>`. The source checks it for truthiness, so `Some("")` behaves like `None`. This is proved in `BlankTitleIsAbsent`.

Some functions have no contract of their own. Their rows name the lemma that states what they mean:

- `Filters.DomainTerm` and `Filters.TextTerm`: `Semantics.RenderLike`.
- `Filters.AndSegment`: `Semantics.RenderGroupPred`.
- `Filters.Combined`: `Semantics.RenderCombined`.
- `PodcastsHandler.Plan` and `PodcastsHandler.PlanAsWritten`: `PodcastsHandler.PlanWith` and `PodcastsHandler.PlanAsWrittenAgrees`.

## Model

| member | source | states |
|---|---|---|
| `Text.Split` | src/pages/api/podcasts.ts:61 | `split('\|')` always yields at least one piece, even for the empty string |
| `Text.Join` | src/pages/api/podcasts.ts:63 | `join` of no parts is the empty string, and a join of at least one part begins with its first part |
| `Text.SplitPieces` | src/pages/api/podcasts.ts:61 | `split('\|')` yields one more piece than there are separators, and no piece contains the separator |
| `Text.JoinSplit` | src/pages/api/podcasts.ts:61 | joining the pieces of `split(sep)` with `sep` gives back the original group string |
| `Text.SplitJoin` | src/pages/api/podcasts.ts:61 | splitting a join of separator-free pieces gives back exactly those pieces |
| `Registry.KeysEnumerateRegistry` | src/pages/api/podcasts.ts:10-15 | the key list in declaration order enumerates the registry, each key once, that every domain is non-empty, and that no key is the name of an `Object.prototype` member |
| `Registry.Lookup` | src/pages/api/podcasts.ts:52-53 | a key yields a domain exactly when it is a registry key, and then yields its non-empty registered domain |
| `Registry.LookupAsWritten` | src/pages/api/podcasts.ts:52-53 | the property read as written finds a value for every registry key and for every name inherited from `Object.prototype` |
| `Registry.LookupAgreesOffPrototype` | src/pages/api/podcasts.ts:52-53 | on every key that is not an inherited member name, the as-written lookup and the registry-only lookup agree |
| `Registry.PrototypeKeyNotDropped` | src/pages/api/podcasts.ts:52-53 | `toString` is not a registry key, yet the as-written lookup finds a truthy value for it |
| `Filters.PodcastsToFilter` | src/pages/api/podcasts.ts:46-48 | a non-empty selection is used as given, with order and duplicates kept; an empty one becomes every registry key, each exactly once |
| `Filters.FoundDomains` | src/pages/api/podcasts.ts:50-55 | at most one domain per selected key, and none at all exactly when the lookup finds no selected key |
| `Filters.PodcastFilters` | src/pages/api/podcasts.ts:50-55 | one `url.ilike.*<domain>*` term per found domain, in order; there is no term exactly when the lookup finds no selected key |
| `Filters.TextTerms` | src/pages/api/podcasts.ts:63 | there is one `text.ilike.*w*` term per word, at the word's position |
| `Filters.AndSegments` | src/pages/api/podcasts.ts:60-65 | there is one `and(...)` segment per OR-group, in input order |
| `Filters.TextSearchFilter` | src/pages/api/podcasts.ts:58-67 | the text filter is null exactly when there are no OR-groups; otherwise it starts with `and(`, so it is never the empty (falsy) string |
| `Filters.FoundDomainsAppend` | src/pages/api/podcasts.ts:50-55 | the domains found for two key lists back to back are each list's domains back to back |
| `Filters.PodcastFiltersAppend` | src/pages/api/podcasts.ts:50-55 | the URL terms of two key lists back to back are each list's terms back to back, so order is kept |
| `Filters.UnknownKeyDropped` | src/pages/api/podcasts.ts:50-55 | a key the lookup does not find (for `Registry.Lookup`, any key outside the registry) contributes nothing anywhere in the selection, and raises no error |
| `Filters.KnownKeyTerm` | src/pages/api/podcasts.ts:50-55 | a key the lookup finds contributes exactly `url.ilike.*<domain>*` for the domain found, in its own position |
| `Filters.PodcastFiltersMembership` | src/pages/api/podcasts.ts:50-55 | a URL term appears exactly when the lookup maps some selected key to that term's domain |
| `Filters.FoundDomainsAgree` | src/pages/api/podcasts.ts:50-55 | two lookups that agree on every selected key find the same domains |
| `Filters.EmptySelectionMeansAllPodcasts` | src/pages/api/podcasts.ts:46-48 | with `Registry.Lookup`, an empty selection yields the terms of all four registry domains, in registry order |
| `PodcastsHandler.OrClauses` | src/pages/api/podcasts.ts:75-93 | at most one `.or` is left on the query, and there is one exactly when a URL term or an OR-group exists |
| `PodcastsHandler.ExcludeClauses` | src/pages/api/podcasts.ts:96-101 | there is one `.not('text','ilike','%w%')` per excluded word, at the word's position |
| `PodcastsHandler.TitleClauses` | src/pages/api/podcasts.ts:104-106 | there is one `.ilike('title','%t%')` for a truthy title, and none for a null or empty one |
| `PodcastsHandler.PlanWith` | src/pages/api/podcasts.ts:35-106 | no query is built exactly when the request is empty (`IsEmptyQuery`: no OR-groups, no exclusions, no truthy title, no podcast selection) |
| `PodcastsHandler.BuildQuery` | src/pages/api/podcasts.ts:35-106 | the step-by-step construction (URL `.or`, then a fresh query for the combined filter or the text `.or`, the exclusion loop, the title) yields exactly `PlanWith` for the same lookup |
| `PodcastsHandler.Respond` | src/pages/api/podcasts.ts:110-120 | a backend error gives status 500 with `{ok:false}` and the message verbatim; otherwise status 200 with `{ok:true}` and the rows |
| `PodcastsHandler.Get` | src/pages/api/podcasts.ts:25-121 | an empty query answers 200 with no results, without a backend call; otherwise the response is the backend's reply to exactly the planned clauses |
| `PodcastsHandler.BlankTitleIsAbsent` | src/pages/api/podcasts.ts:35 | a title of `""` gives the same outcome as no title |
| `PodcastsHandler.LayoutOf` | src/pages/api/podcasts.ts:96-106 | after the `.or` come exactly the exclusion clauses in order, then the title clause last when the title is truthy; none of them is an `.or` |
| `PodcastsHandler.ClauseLayout` | src/pages/api/podcasts.ts:75-106 | the clause list of a run query is the `.or` (if any), then one `.not` per excluded word in order, then the title `.ilike` (if truthy) last, and nothing else |
| `PodcastsHandler.OrClauseContents` | src/pages/api/podcasts.ts:75-92 | with both filters the one `.or` is `and(or(P),or(T))` and the URL-only `.or` is gone; with only one of them it is exactly that one |
| `PodcastsHandler.UnknownSelectionAppliesNoUrlFilter` | src/pages/api/podcasts.ts:50-77 | when every selected key is unknown no URL `.or` is applied; only the text filter, if any, remains |
| `PodcastsHandler.UnknownSelectionIsWiderThanNone` | src/pages/api/podcasts.ts:46-77 | selecting only an unknown podcast leaves the URL unrestricted, while selecting none restricts it to the registry's domains |
| `PodcastsHandler.ChangelogScenario` | src/pages/api/podcasts.ts:46-77 | `podcast=changelog` alone gives exactly one `.or` on `url.ilike.*changelog.com*` |
| `PodcastsHandler.PlanAsWrittenAgrees` | src/pages/api/podcasts.ts:46-55 | the handler as written and `Plan` give the same outcome for every request that selects no `Object.prototype` member name |
| `PodcastsHandler.PrototypeKeyReachesQuery` | src/pages/api/podcasts.ts:50-77 | `podcast=toString` alone runs, as written, one `.or` on `url.ilike.*function toString() { [native code] }*`; `Plan` runs the query with no filter |
| `Semantics.RenderEachAt` | src/pages/api/podcasts.ts:60-63 | rendering a list of trees renders each tree in place |
| `Semantics.RenderLike` | src/pages/api/podcasts.ts:53 | `DomainTerm` and `TextTerm` are the renderings of "`url` contains the domain" and "`text` contains the word": the term the handler writes for each condition |
| `Semantics.RenderUrlPreds` | src/pages/api/podcasts.ts:50-55 | the URL terms are the rendering of one `url ilike` tree per selected known domain |
| `Semantics.RenderGroupPred` | src/pages/api/podcasts.ts:61-64 | an OR-group's `and(...)` segment (`AndSegment`) is the rendering of the AND of its words' text conditions |
| `Semantics.RenderGroupPreds` | src/pages/api/podcasts.ts:60-65 | the segments are the renderings of the groups' trees, in order |
| `Semantics.GroupPredShape` | src/pages/api/podcasts.ts:61-64 | each group's tree is an AND of one text condition per `\|`-separated piece, empty pieces included (one more than the number of `\|`), and the pieces joined give the group back |
| `Semantics.TextFilterRendersGroups` | src/pages/api/podcasts.ts:58-67 | the text filter is the `or` list of exactly one tree per OR-group, in input order |
| `Semantics.ToClausesExcludes` | src/pages/api/podcasts.ts:96-101 | the exclusion clauses are the rendering of one negated text condition per excluded word |
| `Semantics.RenderCombined` | src/pages/api/podcasts.ts:86 | the nested `and(or(P),or(T))` string (`Combined`) is the rendering of the AND of the two `or` lists |
| `Semantics.OrClauseRendersFilter` | src/pages/api/podcasts.ts:75-93 | the `.or` left on the query is the rendering of the compiled filter condition |
| `Semantics.PlanRendersCompile` | src/pages/api/podcasts.ts:75-106 | the clauses of every run query are exactly the rendering of the compiled condition list |
| `Semantics.GroupPredMeaning` | src/pages/api/podcasts.ts:61-64 | under the assumed semantics a group matches exactly when every one of its words is in the text |
| `Semantics.GroupsMeaning` | src/pages/api/podcasts.ts:60-66 | under the assumed semantics the groups match exactly when some group matches |
| `Semantics.UrlsMeaning` | src/pages/api/podcasts.ts:50-55 | under the assumed semantics the URL list matches exactly when the URL contains one of the domains |
| `Semantics.BothMeaning` | src/pages/api/podcasts.ts:86 | under the assumed semantics the combined filter is the AND of the URL list and the text list |
| `Semantics.FilterMeaning` | src/pages/api/podcasts.ts:75-93 | under the assumed semantics the `.or` part holds exactly when the URL is wanted and the text is wanted |
| `Semantics.ExcludesMeaning` | src/pages/api/podcasts.ts:96-101 | under the assumed semantics the exclusions hold exactly when no excluded word is in the text (a NOR, never an OR) |
| `Semantics.CompileMeaning` | src/pages/api/podcasts.ts:35-106 | under the assumed semantics a row passes the compiled conditions exactly when it is wanted |
| `Semantics.EmptyWordMatchesEverything` | src/pages/api/podcasts.ts:61-63 | an empty piece (from `\|\|` or an edge `\|`) is contained in every text, so it restricts nothing |
| `Semantics.ExcludedWordRejects` | src/pages/api/podcasts.ts:96-101 | a row whose text contains any excluded word is never selected, whatever else it matches |

## Left out

- Request extraction (`new URL`, `searchParams.getAll` and `get`, lines 26-32) is left out. `Request` holds the four values already extracted. `get('title')` returns the first occurrence, and the model takes whatever value was extracted.
- Supabase client construction from environment variables (lines 4-7) is left out: it is configuration and a foreign library.
- The awaited network call (line 108) is left out. In `Get` the backend is a function parameter from the clause list to a reply holding rows or an error message.
- `.from('article').select('title, url')` is not represented as clauses. Every query the model builds is on that table with those columns, and rows are `Article(title, url)`.
- The row-matching meaning of PostgREST filter strings is foreign. `Semantics.Eval` and `Semantics.Holds` state it as an assumption. The assumption holds only when PostgREST parses a rendered tree back into the same tree. That fails for keywords containing `,`, `(`, `)` or `*`, which the handler does not escape. The evaluator also folds ASCII case only. It treats `%`, `_` and `\` inside a keyword as ordinary characters, whereas ILIKE reads `%` and `_` as wildcards and `\` as its escape character.
- `PodcastsHandler.Plan`, and every `Semantics` result built on it, uses `Registry.Lookup`. So it differs from the source for a selected key that names an `Object.prototype` member: `constructor`, `hasOwnProperty`, `isPrototypeOf`, `propertyIsEnumerable`, `toLocaleString`, `toString`, `valueOf`, `__proto__`, `__defineGetter__`, `__defineSetter__`, `__lookupGetter__` or `__lookupSetter__`. `PodcastsHandler.PlanAsWritten` models the source for those keys. `PlanAsWrittenAgrees` proves the two agree on every other request, and `PrototypeKeyReachesQuery` shows one where they differ.
- `Filters.PodcastFilters` with `Registry.Lookup` drops the same 12 keys. With `Registry.LookupAsWritten` it keeps them, as the source does.
- `PODCAST_NAMES` (lines 18-23) is left out: it is display data that no logic uses.
- JSON serialisation, headers and the `Response` object are left out. A response is a status and a body (`Results` or `Failed`).
- `src/pages/api/search.ts`, `src/lib/db.ts`, `src/pages/api/health.ts` and `test-supabase.ts` are not part of this model. They are thin wrappers over the backend clients, configuration, or diagnostics.

## Findings

| source | as written | input that shows it | evidently intended | confidence | as-written member | corrected member |
|---|---|---|---|---|---|---|
| src/pages/api/podcasts.ts:52-53 | `PODCAST_DOMAINS[podcastKey]` reads a plain object literal, so a key naming an `Object.prototype` member (`toString`, `constructor`, `valueOf`, `__proto__`, …) finds that inherited member. That member is truthy, so the key is kept and its text ends up in a URL term. | `podcast=toString` gives the term `url.ilike.*function toString() { [native code] }*` (V8's text; the exact text is engine-defined). `Registry.PrototypeKeyNotDropped` exhibits the lookup, and `PodcastsHandler.PrototypeKeyReachesQuery` exhibits the resulting query. | Keys outside the registry are silently dropped, like every other unknown key. | high; not executed | `Registry.LookupAsWritten` | `Registry.Lookup` |

`PodcastsHandler.PlanAsWritten` keeps the as-written lookup. `PodcastsHandler.Plan` and the `Semantics` module use `Registry.Lookup`, which reads only the registry's own keys.
