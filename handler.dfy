/**
 * The `GET /api/podcasts` handler: the empty-query short-circuit, the
 * sequence of filter clauses put on the `article` query, and the choice
 * between the success and the error response.
 *
 * The query builder is modelled by the clauses it has accumulated; the
 * backend call is a parameter that maps those clauses to its reply.
 */
module PodcastsHandler {
  import opened Wrappers
  import opened Text
  import opened Filters
  import Registry

  /** The request's extracted parameters: `orGroup`*, `exclude`*, `title`, `podcast`*. */
  datatype Request = Request(orGroups: seq<string>, excludes: seq<string>, title: Option<string>, podcasts: seq<string>)

  /** One filter call on the query builder: `.or(filter)`, `.not(column, 'ilike', pattern)`, `.ilike(column, pattern)`. */
  datatype Clause =
    | Or(filter: string)
    | NotIlike(column: string, pattern: string)
    | Ilike(column: string, pattern: string)

  /** Either the short-circuit that builds no query, or the clauses of the query that is run. */
  datatype Outcome = EmptyResult | Run(clauses: seq<Clause>)

  /** A selected row: `select('title, url')`. */
  datatype Article = Article(title: string, url: string)

  /** What awaiting the query yields: rows, or an error carrying its message. */
  datatype Reply = Reply(data: seq<Article>, error: Option<string>)

  /** The JSON body: `{ok: true, results}` or `{ok: false, error}`. */
  datatype Body = Results(results: seq<Article>) | Failed(error: string)

  datatype Response = Response(status: int, body: Body)

  /** JavaScript truthiness of a `string | null`: null and "" are both falsy. */
  predicate Truthy(s: Option<string>)
  {
    s.Some? && s.value != ""
  }

  /** No OR-group, no exclusion, no (truthy) title and no podcast selected. */
  predicate IsEmptyQuery(req: Request)
  {
    |req.orGroups| == 0 && |req.excludes| == 0 && !Truthy(req.title) && |req.podcasts| == 0
  }

  /** The ILIKE pattern for "contains `word`". */
  function LikePattern(word: string): string
  {
    "%" + word + "%"
  }

  /**
   * The single `.or(...)` that the URL filter and the text filter leave on
   * the query: there is one exactly when a URL term or an OR-group exists.
   * What it contains is stated by `OrClauseContents` and given a meaning by
   * `Semantics.OrClauseRendersFilter` and `Semantics.FilterMeaning`.
   */
  function OrClauses(podcasts: seq<string>, groups: seq<string>, lookup: KeyLookup): (ors: seq<Clause>)
    ensures |ors| <= 1
    ensures |ors| == 1 <==> (PodcastFilters(PodcastsToFilter(podcasts), lookup) != [] || groups != [])
    ensures forall i :: 0 <= i < |ors| ==> ors[i].Or?
  {
    var urlTerms := PodcastFilters(PodcastsToFilter(podcasts), lookup);
    var textFilter := TextSearchFilter(groups);
    if |urlTerms| > 0 && textFilter.Some? then [Or(Combined(urlTerms, textFilter.value))]
    else if |urlTerms| > 0 then [Or(Join(urlTerms, ","))]
    else if textFilter.Some? then [Or(textFilter.value)]
    else []
  }

  /** One `.not('text', 'ilike', '%w%')` per excluded word, position by position. */
  function ExcludeClauses(words: seq<string>): (clauses: seq<Clause>)
    ensures |clauses| == |words|
    ensures forall i {:trigger clauses[i]} :: 0 <= i < |words| ==> clauses[i] == NotIlike("text", LikePattern(words[i]))
  {
    if words == [] then []
    else
      var init := words[..|words| - 1];
      assert forall i :: 0 <= i < |init| ==> init[i] == words[i];
      ExcludeClauses(init) + [NotIlike("text", LikePattern(words[|words| - 1]))]
  }

  /** The title clause: one `.ilike('title', '%t%')` for a truthy title, none for null or "". */
  function TitleClauses(title: Option<string>): (clauses: seq<Clause>)
    ensures |clauses| == (if Truthy(title) then 1 else 0)
    ensures Truthy(title) ==> clauses[0] == Ilike("title", LikePattern(title.value))
  {
    if Truthy(title) then [Ilike("title", LikePattern(title.value))] else []
  }

  /**
   * What the handler does with a request, for a given way of looking up
   * podcast keys: no query at all exactly for the empty query, otherwise the
   * `.or` (if any), the exclusions and the title, in that order (the full
   * layout is `ClauseLayout`).
   */
  function PlanWith(req: Request, lookup: KeyLookup): (outcome: Outcome)
    ensures outcome == EmptyResult <==> IsEmptyQuery(req)
  {
    if IsEmptyQuery(req) then EmptyResult
    else Run(OrClauses(req.podcasts, req.orGroups, lookup) + ExcludeClauses(req.excludes) + TitleClauses(req.title))
  }

  /** The handler with podcast keys looked up among the registry's own keys only. */
  function Plan(req: Request): Outcome
  {
    PlanWith(req, Registry.Lookup)
  }

  /** The handler as written, whose lookup also reaches `Object.prototype`'s members. */
  function PlanAsWritten(req: Request): Outcome
  {
    PlanWith(req, Registry.LookupAsWritten)
  }

  /**
   * The filter-building part of `GET`, step by step: a URL `.or` on the
   * query, then either a fresh query carrying the combined filter or the
   * text `.or` on the same query, then one `.not` per exclusion in a loop,
   * then the title.
   */
  method BuildQuery(req: Request, lookup: KeyLookup) returns (outcome: Outcome)
    ensures outcome == PlanWith(req, lookup)
  {
    if |req.orGroups| == 0 && |req.excludes| == 0 && !Truthy(req.title) && |req.podcasts| == 0 {
      return EmptyResult;
    }
    var query: seq<Clause> := [];
    var podcastsToFilter := PodcastsToFilter(req.podcasts);
    var podcastFilters := PodcastFilters(podcastsToFilter, lookup);
    var textSearchFilter := TextSearchFilter(req.orGroups);
    ghost var ors := OrClauses(req.podcasts, req.orGroups, lookup);
    if |podcastFilters| > 0 {
      query := query + [Or(Join(podcastFilters, ","))];
    }
    if textSearchFilter.Some? && textSearchFilter.value != "" {
      if |podcastFilters| > 0 {
        // the earlier URL-only `.or` is discarded with the old query
        query := [Or(Combined(podcastFilters, textSearchFilter.value))];
      } else {
        query := query + [Or(textSearchFilter.value)];
      }
    } else {
      assert textSearchFilter.None?;
    }
    assert query == ors;
    assert req.excludes[..0] == [];
    var i := 0;
    while i < |req.excludes|
      invariant 0 <= i <= |req.excludes|
      invariant query == ors + ExcludeClauses(req.excludes[..i])
    {
      var clause := NotIlike("text", LikePattern(req.excludes[i]));
      assert req.excludes[..i + 1][..i] == req.excludes[..i];
      assert ExcludeClauses(req.excludes[..i + 1]) == ExcludeClauses(req.excludes[..i]) + [clause];
      query := query + [clause];
      i := i + 1;
    }
    assert req.excludes[..i] == req.excludes;
    if Truthy(req.title) {
      query := query + [Ilike("title", LikePattern(req.title.value))];
    }
    assert query == ors + ExcludeClauses(req.excludes) + TitleClauses(req.title);
    RunClauses(req, lookup);
    outcome := Run(query);
  }

  /** The response for a backend reply: an error gives 500 with its message, otherwise 200 with the rows. */
  function Respond(reply: Reply): (resp: Response)
    ensures resp.status == 500 <==> reply.error.Some?
    ensures resp.status == 200 <==> reply.error.None?
    ensures resp.body.Failed? <==> resp.status == 500
    ensures resp.body.Failed? ==> resp.body.error == reply.error.value
    ensures resp.body.Results? ==> resp.body.results == reply.data
  {
    match reply.error
    case Some(message) => Response(500, Failed(message))
    case None => Response(200, Results(reply.data))
  }

  /**
   * `GET`: an empty query answers 200 with no results without consulting
   * the backend; otherwise the backend sees exactly the planned clauses.
   */
  method Get(req: Request, backend: seq<Clause> -> Reply) returns (resp: Response)
    ensures IsEmptyQuery(req) ==> resp == Response(200, Results([]))
    ensures !IsEmptyQuery(req) ==> resp == Respond(backend(Plan(req).clauses))
  {
    var outcome := BuildQuery(req, Registry.Lookup);
    match outcome
    case EmptyResult =>
      resp := Response(200, Results([]));
    case Run(clauses) =>
      resp := Respond(backend(clauses));
  }

  /** An empty title behaves exactly like an absent one. */
  lemma BlankTitleIsAbsent(req: Request)
    ensures Plan(req.(title := Some(""))) == Plan(req.(title := None))
  {
  }

  /** The layout of an `.or` list of at most one clause followed by the exclusions and the title. */
  lemma {:induction false} LayoutOf(cs: seq<Clause>, ors: seq<Clause>, words: seq<string>, title: Option<string>)
    requires |ors| <= 1 && forall i :: 0 <= i < |ors| ==> ors[i].Or?
    requires cs == ors + ExcludeClauses(words) + TitleClauses(title)
    ensures |cs| == |ors| + |words| + (if Truthy(title) then 1 else 0)
    ensures forall i :: 0 <= i < |ors| ==> cs[i].Or?
    ensures forall i :: |ors| <= i < |cs| ==> !cs[i].Or?
    ensures forall i :: 0 <= i < |words| ==> cs[|ors| + i] == NotIlike("text", LikePattern(words[i]))
    ensures Truthy(title) ==> cs[|cs| - 1] == Ilike("title", LikePattern(title.value))
  {
    var excl := ExcludeClauses(words);
    var titles := TitleClauses(title);
    var o := |ors|;
    forall i | 0 <= i < o
      ensures cs[i].Or?
    {
      assert cs[i] == ors[i];
    }
    forall i | 0 <= i < |words|
      ensures cs[o + i] == NotIlike("text", LikePattern(words[i]))
    {
      assert cs[o + i] == excl[i];
    }
    forall i | o <= i < |cs|
      ensures !cs[i].Or?
    {
      if i < o + |excl| {
        assert cs[i] == excl[i - o];
      } else {
        assert cs[i] == titles[i - o - |excl|];
      }
    }
  }

  /**
   * The clause list of a run query: the `.or` (if any) first, then one
   * `.not` per excluded word in order, then the title `.ilike` (if truthy)
   * last; excluded words never end up inside an `.or`, and nothing else is
   * on the list.
   */
  lemma ClauseLayout(req: Request, lookup: KeyLookup)
    requires !IsEmptyQuery(req)
    ensures var cs := PlanWith(req, lookup).clauses;
            var o := |OrClauses(req.podcasts, req.orGroups, lookup)|;
            && o <= 1
            && |cs| == o + |req.excludes| + (if Truthy(req.title) then 1 else 0)
            && (forall i :: 0 <= i < o ==> cs[i].Or?)
            && (forall i :: o <= i < |cs| ==> !cs[i].Or?)
            && (forall i :: 0 <= i < |req.excludes| ==> cs[o + i] == NotIlike("text", LikePattern(req.excludes[i])))
            && (Truthy(req.title) ==> cs[|cs| - 1] == Ilike("title", LikePattern(req.title.value)))
  {
    RunClauses(req, lookup);
    LayoutOf(PlanWith(req, lookup).clauses, OrClauses(req.podcasts, req.orGroups, lookup), req.excludes, req.title);
  }

  lemma RunClauses(req: Request, lookup: KeyLookup)
    requires !IsEmptyQuery(req)
    ensures PlanWith(req, lookup).clauses
         == OrClauses(req.podcasts, req.orGroups, lookup) + ExcludeClauses(req.excludes) + TitleClauses(req.title)
  {
  }

  /**
   * With both a URL filter and a text filter the one `.or` is the nested
   * `and(or(P),or(T))`; with only one of them it is exactly that one. What
   * these strings select is `Semantics.OrClauseRendersFilter` together with
   * `Semantics.FilterMeaning`.
   */
  lemma OrClauseContents(podcasts: seq<string>, groups: seq<string>, lookup: KeyLookup)
    ensures var urlTerms := PodcastFilters(PodcastsToFilter(podcasts), lookup);
            var textFilter := TextSearchFilter(groups);
            && (urlTerms != [] && groups != [] ==>
                  OrClauses(podcasts, groups, lookup)
                  == [Or("and(or(" + Join(urlTerms, ",") + "),or(" + textFilter.value + "))")])
            && (urlTerms != [] && groups == [] ==> OrClauses(podcasts, groups, lookup) == [Or(Join(urlTerms, ","))])
            && (urlTerms == [] && groups != [] ==> OrClauses(podcasts, groups, lookup) == [Or(textFilter.value)])
  {
  }

  /** When every selected key is unknown no URL `.or` is applied at all. */
  lemma UnknownSelectionAppliesNoUrlFilter(podcasts: seq<string>, groups: seq<string>)
    requires podcasts != []
    requires forall i :: 0 <= i < |podcasts| ==> podcasts[i] !in Registry.PodcastDomains
    ensures OrClauses(podcasts, groups, Registry.Lookup)
         == if groups == [] then [] else [Or(TextSearchFilter(groups).value)]
  {
  }

  /**
   * A consequence worth knowing: selecting only an unknown podcast puts no
   * URL restriction on the query, whereas selecting nothing restricts it to
   * the registry's domains.
   */
  lemma UnknownSelectionIsWiderThanNone()
    ensures Plan(Request([], [], Some("x"), ["bogus"])) == Run([Ilike("title", LikePattern("x"))])
    ensures Plan(Request([], [], Some("x"), [])).clauses
         == [Or(Join(PodcastFilters(Registry.PodcastKeys, Registry.Lookup), ",")), Ilike("title", LikePattern("x"))]
    ensures PodcastFilters(Registry.PodcastKeys, Registry.Lookup) != []
  {
    BogusSelectionOrs();
    EmptySelectionOrs();
  }

  lemma BogusSelectionOrs()
    ensures OrClauses(["bogus"], [], Registry.Lookup) == []
  {
    assert Registry.Lookup("bogus").None?;
    assert PodcastFilters(["bogus"], Registry.Lookup) == [];
  }

  lemma EmptySelectionOrs()
    ensures PodcastFilters(Registry.PodcastKeys, Registry.Lookup) != []
    ensures OrClauses([], [], Registry.Lookup) == [Or(Join(PodcastFilters(Registry.PodcastKeys, Registry.Lookup), ","))]
  {
    assert Registry.Lookup(Registry.PodcastKeys[0]).Some?;
  }

  /** Selecting the `changelog` podcast alone filters on its domain only. */
  lemma ChangelogScenario()
    ensures Plan(Request([], [], None, ["changelog"])) == Run([Or(DomainTerm("changelog.com"))])
  {
  }

  /**
   * The handler as written and the model agree on every request that selects
   * no `Object.prototype` member name, including the empty selection.
   */
  lemma PlanAsWrittenAgrees(req: Request)
    requires forall i :: 0 <= i < |req.podcasts| ==> req.podcasts[i] !in Registry.InheritedMembers
    ensures PlanAsWritten(req) == Plan(req)
  {
    var keys := PodcastsToFilter(req.podcasts);
    SelectionOffPrototype(req.podcasts);
    forall i | 0 <= i < |keys|
      ensures Registry.LookupAsWritten(keys[i]) == Registry.Lookup(keys[i])
    {
      Registry.LookupAgreesOffPrototype(keys[i]);
    }
    FoundDomainsAgree(keys, Registry.LookupAsWritten, Registry.Lookup);
    assert PodcastFilters(keys, Registry.LookupAsWritten) == PodcastFilters(keys, Registry.Lookup);
    assert OrClauses(req.podcasts, req.orGroups, Registry.LookupAsWritten)
        == OrClauses(req.podcasts, req.orGroups, Registry.Lookup);
  }

  /** The keys a selection filters on are inherited names only if the selection names one. */
  lemma SelectionOffPrototype(podcasts: seq<string>)
    requires forall i :: 0 <= i < |podcasts| ==> podcasts[i] !in Registry.InheritedMembers
    ensures forall i :: 0 <= i < |PodcastsToFilter(podcasts)| ==> PodcastsToFilter(podcasts)[i] !in Registry.InheritedMembers
  {
    Registry.KeysEnumerateRegistry();
  }

  /**
   * The discrepancy at the level of the query: selecting only `toString`
   * runs, as written, a query whose URL filter matches no article URL, where
   * dropping the unknown key runs a query with no filter at all.
   */
  lemma PrototypeKeyReachesQuery()
    ensures PlanAsWritten(Request([], [], None, ["toString"]))
         == Run([Or(DomainTerm("function toString() { [native code] }"))])
    ensures Plan(Request([], [], None, ["toString"])) == Run([])
  {
    Registry.PrototypeKeyNotDropped();
    var keys := ["toString"];
    assert FoundDomains(keys, Registry.LookupAsWritten) == ["function toString() { [native code] }"];
    assert FoundDomains(keys, Registry.Lookup) == [];
  }
}
