/**
 * What the planned clauses mean for a row of `article`.
 *
 * ASSUMPTION. The meaning of a filter string belongs to PostgREST, not to
 * this code. This module states the assumed meaning explicitly: a filter is
 * a tree of `ilike` conditions under `and(...)` and `or(...)`; `Render` is
 * the PostgREST syntax `GET` writes for such a tree, and `Eval` is what
 * PostgREST is assumed to do with the rendered string. The assumption is
 * only sound when PostgREST parses `Render(p)` back into `p`, which fails
 * for words that contain `,`, `(`, `)` or `*`, since `GET` does not escape
 * them; `Contains` folds ASCII case only and treats `%`, `_` and `\\`
 * inside a word as ordinary characters, whereas ILIKE reads them as
 * wildcards and as its escape character.
 *
 * What is proved: the clauses `Plan` produces are exactly the rendering of
 * the condition list `Compile` builds, and a row satisfies that list
 * exactly when it satisfies the search the handler is meant to perform.
 */
module Semantics {
  import opened Wrappers
  import opened Text
  import opened Filters
  import opened PodcastsHandler
  import Registry

  datatype Field = TitleField | UrlField | TextField

  function ColumnName(f: Field): string
  {
    match f
    case TitleField => "title"
    case UrlField => "url"
    case TextField => "text"
  }

  /** A row of `article` with the three columns the filters read. */
  datatype Row = Row(title: string, url: string, text: string)

  function Column(row: Row, f: Field): string
  {
    match f
    case TitleField => row.title
    case UrlField => row.url
    case TextField => row.text
  }

  /** A filter tree: `field ilike *word*`, and the `and(...)` and `or(...)` of subtrees. */
  datatype Pred = Like(field: Field, word: string) | AllOf(preds: seq<Pred>) | AnyOf(preds: seq<Pred>)

  /** PostgREST's logic-tree syntax for a tree. */
  function Render(p: Pred): string
    decreases p, 1
  {
    match p
    case Like(f, w) => ColumnName(f) + ".ilike.*" + w + "*"
    case AllOf(ps) => "and(" + Join(RenderEach(ps), ",") + ")"
    case AnyOf(ps) => "or(" + Join(RenderEach(ps), ",") + ")"
  }

  function RenderEach(ps: seq<Pred>): (texts: seq<string>)
    decreases ps, 0
    ensures |texts| == |ps|
  {
    if ps == [] then [] else [Render(ps[0])] + RenderEach(ps[1..])
  }

  /** The comma-separated list `.or(...)` takes: its members are ORed. */
  function RenderList(ps: seq<Pred>): string
  {
    Join(RenderEach(ps), ",")
  }

  function Lower(c: char): char
  {
    if 'A' <= c <= 'Z' then (c as int + 32) as char else c
  }

  function Fold(s: string): (t: string)
    ensures |t| == |s|
  {
    seq(|s|, i requires 0 <= i < |s| => Lower(s[i]))
  }

  predicate OccursAt(hay: string, needle: string, k: nat)
  {
    k + |needle| <= |hay| && Fold(hay)[k..k + |needle|] == Fold(needle)
  }

  /** Case-insensitive substring test: `ILIKE '%needle%'`. */
  predicate Contains(hay: string, needle: string)
  {
    exists k: nat :: k <= |hay| && OccursAt(hay, needle, k)
  }

  /** The assumed meaning of a filter tree for one row. */
  predicate Eval(p: Pred, row: Row)
    decreases p
  {
    match p
    case Like(f, w) => Contains(Column(row, f), w)
    case AllOf(ps) => forall i :: 0 <= i < |ps| ==> Eval(ps[i], row)
    case AnyOf(ps) => exists i :: 0 <= i < |ps| && Eval(ps[i], row)
  }

  /** One query condition: an `.or` over a list, a negated `ilike`, or an `ilike`. */
  datatype Cond = Filter(anyOf: seq<Pred>) | Exclude(field: Field, word: string) | Require(field: Field, word: string)

  /** The builder call a condition is written as. */
  function ToClause(c: Cond): Clause
  {
    match c
    case Filter(ps) => Or(RenderList(ps))
    case Exclude(f, w) => NotIlike(ColumnName(f), LikePattern(w))
    case Require(f, w) => Ilike(ColumnName(f), LikePattern(w))
  }

  function ToClauses(cs: seq<Cond>): (clauses: seq<Clause>)
    ensures |clauses| == |cs|
  {
    if cs == [] then [] else [ToClause(cs[0])] + ToClauses(cs[1..])
  }

  /** The assumed meaning of one condition; chained conditions are ANDed. */
  predicate Holds(c: Cond, row: Row)
  {
    match c
    case Filter(ps) => Eval(AnyOf(ps), row)
    case Exclude(f, w) => !Contains(Column(row, f), w)
    case Require(f, w) => Contains(Column(row, f), w)
  }

  predicate Selects(cs: seq<Cond>, row: Row)
  {
    forall i :: 0 <= i < |cs| ==> Holds(cs[i], row)
  }

  function UrlPreds(domains: seq<string>): seq<Pred>
  {
    seq(|domains|, i requires 0 <= i < |domains| => Like(UrlField, domains[i]))
  }

  function WordPreds(words: seq<string>): seq<Pred>
  {
    seq(|words|, i requires 0 <= i < |words| => Like(TextField, words[i]))
  }

  /** One OR-group as a tree: all of its `|`-separated words. */
  function GroupPred(group: string): Pred
  {
    AllOf(WordPreds(Split(group, '|')))
  }

  function GroupPreds(groups: seq<string>): seq<Pred>
  {
    seq(|groups|, i requires 0 <= i < |groups| => GroupPred(groups[i]))
  }

  function ExcludeConds(words: seq<string>): seq<Cond>
  {
    seq(|words|, i requires 0 <= i < |words| => Exclude(TextField, words[i]))
  }

  /** The condition tree the handler is meant to put on the query. */
  function Compile(req: Request): seq<Cond>
  {
    var urls := UrlPreds(FoundDomains(PodcastsToFilter(req.podcasts), Registry.Lookup));
    var groups := GroupPreds(req.orGroups);
    (if urls != [] && groups != [] then [Filter([AllOf([AnyOf(urls), AnyOf(groups)])])]
     else if urls != [] then [Filter(urls)]
     else if groups != [] then [Filter(groups)]
     else [])
    + ExcludeConds(req.excludes)
    + (if Truthy(req.title) then [Require(TitleField, req.title.value)] else [])
  }

  /** Every `|`-separated word of the group is in the text. */
  predicate GroupWanted(group: string, text: string)
  {
    forall j :: 0 <= j < |Split(group, '|')| ==> Contains(text, Split(group, '|')[j])
  }

  /** No domain to match, or the URL contains one of them. */
  predicate UrlWanted(domains: seq<string>, url: string)
  {
    domains == [] || exists d :: 0 <= d < |domains| && Contains(url, domains[d])
  }

  /** No OR-group, or some group has all of its words in the text. */
  predicate TextWanted(groups: seq<string>, text: string)
  {
    groups == [] || exists g :: 0 <= g < |groups| && GroupWanted(groups[g], text)
  }

  /** None of the excluded words is in the text. */
  predicate NoneExcluded(words: seq<string>, text: string)
  {
    forall e :: 0 <= e < |words| ==> !Contains(text, words[e])
  }

  /** The search a row should pass, stated directly on the request. */
  predicate Wanted(req: Request, row: Row)
  {
    && UrlWanted(FoundDomains(PodcastsToFilter(req.podcasts), Registry.Lookup), row.url)
    && TextWanted(req.orGroups, row.text)
    && NoneExcluded(req.excludes, row.text)
    && (Truthy(req.title) ==> Contains(row.title, req.title.value))
  }

  // ---------------------------------------------------------------------
  // The rendered trees are the strings `GET` builds.

  lemma {:induction false} RenderEachAt(ps: seq<Pred>)
    ensures forall i :: 0 <= i < |ps| ==> RenderEach(ps)[i] == Render(ps[i])
  {
    if ps != [] {
      RenderEachAt(ps[1..]);
      assert forall i :: 1 <= i < |ps| ==> ps[1..][i - 1] == ps[i];
    }
  }

  /** A rendered URL or text condition is the term `GET` writes for it. */
  lemma RenderLike(w: string)
    ensures Render(Like(UrlField, w)) == DomainTerm(w)
    ensures Render(Like(TextField, w)) == TextTerm(w)
  {
  }

  lemma RenderUrlPreds(keys: seq<string>)
    ensures RenderEach(UrlPreds(FoundDomains(keys, Registry.Lookup))) == PodcastFilters(keys, Registry.Lookup)
  {
    var domains := FoundDomains(keys, Registry.Lookup);
    var ps := UrlPreds(domains);
    RenderEachAt(ps);
    forall d | 0 <= d < |ps|
      ensures RenderEach(ps)[d] == PodcastFilters(keys, Registry.Lookup)[d]
    {
      RenderLike(domains[d]);
    }
  }

  lemma RenderGroupPred(group: string)
    ensures Render(GroupPred(group)) == AndSegment(group)
  {
    var words := Split(group, '|');
    var ps := WordPreds(words);
    RenderEachAt(ps);
    forall j | 0 <= j < |ps|
      ensures RenderEach(ps)[j] == TextTerms(words)[j]
    {
      RenderLike(words[j]);
    }
    assert RenderEach(ps) == TextTerms(words);
  }

  lemma RenderGroupPreds(groups: seq<string>)
    ensures RenderEach(GroupPreds(groups)) == AndSegments(groups)
  {
    RenderEachAt(GroupPreds(groups));
    forall i | 0 <= i < |groups|
      ensures RenderEach(GroupPreds(groups))[i] == AndSegments(groups)[i]
    {
      RenderGroupPred(groups[i]);
    }
  }

  /**
   * Each OR-group becomes one `and(...)` holding one text condition per
   * `|`-separated piece, empty pieces included, so one more than the number
   * of `|` in the group; the pieces joined with `|` give the group back.
   */
  lemma GroupPredShape(group: string)
    ensures GroupPred(group).AllOf?
    ensures |GroupPred(group).preds| == multiset(group)['|'] + 1
    ensures forall j :: 0 <= j < |GroupPred(group).preds| ==>
      GroupPred(group).preds[j] == Like(TextField, Split(group, '|')[j])
    ensures Join(Split(group, '|'), "|") == group
  {
    JoinSplit(group, '|');
    SplitPieces(group, '|');
  }

  /** The text filter is the `or` list of one tree per group, in group order. */
  lemma TextFilterRendersGroups(groups: seq<string>)
    requires groups != []
    ensures TextSearchFilter(groups) == Some(RenderList(GroupPreds(groups)))
    ensures |GroupPreds(groups)| == |groups|
    ensures forall i :: 0 <= i < |groups| ==> GroupPreds(groups)[i] == GroupPred(groups[i])
  {
    RenderGroupPreds(groups);
  }

  lemma {:induction false} ToClausesAppend(a: seq<Cond>, b: seq<Cond>)
    ensures ToClauses(a + b) == ToClauses(a) + ToClauses(b)
  {
    if a != [] {
      assert (a + b)[1..] == a[1..] + b;
      ToClausesAppend(a[1..], b);
    } else {
      assert a + b == b;
    }
  }

  lemma {:induction false} ToClausesExcludes(words: seq<string>)
    ensures ToClauses(ExcludeConds(words)) == ExcludeClauses(words)
  {
    if words != [] {
      var init := words[..|words| - 1];
      ToClausesExcludes(init);
      assert ExcludeConds(words) == ExcludeConds(init) + [Exclude(TextField, words[|words| - 1])];
      ToClausesAppend(ExcludeConds(init), [Exclude(TextField, words[|words| - 1])]);
    }
  }

  /** The nested `and(or(P),or(T))` is the rendering of the tree that ANDs the two `or` lists. */
  lemma RenderCombined(urls: seq<Pred>, groups: seq<Pred>, urlTerms: seq<string>, t: string)
    requires RenderList(urls) == Join(urlTerms, ",") && RenderList(groups) == t
    ensures RenderList([AllOf([AnyOf(urls), AnyOf(groups)])]) == Combined(urlTerms, t)
  {
    var u := Join(urlTerms, ",");
    var both := AllOf([AnyOf(urls), AnyOf(groups)]);
    var pair := [AnyOf(urls), AnyOf(groups)];
    var x, y := "or(" + u + ")", "or(" + t + ")";
    assert pair[1..] == [AnyOf(groups)];
    assert Render(AnyOf(urls)) == x && Render(AnyOf(groups)) == y;
    assert [AnyOf(groups)][1..] == [];
    assert RenderEach([AnyOf(groups)]) == [y];
    assert RenderEach(pair) == [x] + [y];
    assert Join([x, y], ",") == x + "," + y;
    assert RenderEach([both]) == [Render(both)];
    ConcatLiterals(u, t);
  }

  /** `and(` + `or(u)` + `,` + `or(t)` + `)` spelled as one literal-heavy string. */
  lemma ConcatLiterals(u: string, t: string)
    ensures "and(" + ("or(" + u + ")" + "," + ("or(" + t + ")")) + ")" == "and(or(" + u + "),or(" + t + "))"
  {
  }

  /** The `.or` the handler writes is the rendering of the tree's filter condition. */
  lemma OrClauseRendersFilter(req: Request)
    ensures var urls := UrlPreds(FoundDomains(PodcastsToFilter(req.podcasts), Registry.Lookup));
            var groups := GroupPreds(req.orGroups);
            OrClauses(req.podcasts, req.orGroups, Registry.Lookup) ==
              ToClauses(if urls != [] && groups != [] then [Filter([AllOf([AnyOf(urls), AnyOf(groups)])])]
                        else if urls != [] then [Filter(urls)]
                        else if groups != [] then [Filter(groups)]
                        else [])
  {
    var keys := PodcastsToFilter(req.podcasts);
    var urls := UrlPreds(FoundDomains(keys, Registry.Lookup));
    var groups := GroupPreds(req.orGroups);
    var urlTerms := PodcastFilters(keys, Registry.Lookup);
    RenderUrlPreds(keys);
    assert RenderList(urls) == Join(urlTerms, ",");
    if req.orGroups != [] {
      TextFilterRendersGroups(req.orGroups);
      if urls != [] {
        RenderCombined(urls, groups, urlTerms, TextSearchFilter(req.orGroups).value);
      }
    }
  }

  /** The clauses of a run query are exactly the rendering of `Compile`. */
  lemma PlanRendersCompile(req: Request)
    requires !IsEmptyQuery(req)
    ensures Plan(req) == Run(ToClauses(Compile(req)))
  {
    var urls := UrlPreds(FoundDomains(PodcastsToFilter(req.podcasts), Registry.Lookup));
    var groups := GroupPreds(req.orGroups);
    var filter := if urls != [] && groups != [] then [Filter([AllOf([AnyOf(urls), AnyOf(groups)])])]
                  else if urls != [] then [Filter(urls)]
                  else if groups != [] then [Filter(groups)]
                  else [];
    var title := if Truthy(req.title) then [Require(TitleField, req.title.value)] else [];
    OrClauseRendersFilter(req);
    ToClausesExcludes(req.excludes);
    ToClausesAppend(filter + ExcludeConds(req.excludes), title);
    ToClausesAppend(filter, ExcludeConds(req.excludes));
  }

  // ---------------------------------------------------------------------
  // What the compiled conditions select.

  lemma SelectsAppend(a: seq<Cond>, b: seq<Cond>, row: Row)
    ensures Selects(a + b, row) <==> Selects(a, row) && Selects(b, row)
  {
    if Selects(a, row) && Selects(b, row) {
      forall i | 0 <= i < |a + b|
        ensures Holds((a + b)[i], row)
      {
        if i >= |a| {
          assert (a + b)[i] == b[i - |a|];
        }
      }
    }
    if Selects(a + b, row) {
      forall i | 0 <= i < |a|
        ensures Holds(a[i], row)
      {
        assert (a + b)[i] == a[i];
      }
      forall i | 0 <= i < |b|
        ensures Holds(b[i], row)
      {
        assert (a + b)[|a| + i] == b[i];
      }
    }
  }

  lemma GroupPredMeaning(group: string, row: Row)
    ensures Eval(GroupPred(group), row) <==> GroupWanted(group, row.text)
  {
    var words := Split(group, '|');
    assert forall j :: 0 <= j < |words| ==> WordPreds(words)[j] == Like(TextField, words[j]);
  }

  lemma GroupsMeaning(groups: seq<string>, row: Row)
    ensures Eval(AnyOf(GroupPreds(groups)), row) <==>
      exists g :: 0 <= g < |groups| && GroupWanted(groups[g], row.text)
  {
    var ps := GroupPreds(groups);
    forall g | 0 <= g < |groups|
      ensures Eval(ps[g], row) <==> GroupWanted(groups[g], row.text)
    {
      GroupPredMeaning(groups[g], row);
    }
  }

  lemma UrlsMeaning(domains: seq<string>, row: Row)
    ensures Eval(AnyOf(UrlPreds(domains)), row) <==>
      exists d :: 0 <= d < |domains| && Contains(row.url, domains[d])
  {
    var ps := UrlPreds(domains);
    assert forall d :: 0 <= d < |domains| ==> ps[d] == Like(UrlField, domains[d]);
  }

  lemma SelectsSingle(c: Cond, row: Row)
    ensures Selects([c], row) <==> Holds(c, row)
  {
    assert [c][0] == c;
  }

  lemma BothMeaning(urls: seq<Pred>, groups: seq<Pred>, row: Row)
    ensures Selects([Filter([AllOf([AnyOf(urls), AnyOf(groups)])])], row)
        <==> Eval(AnyOf(urls), row) && Eval(AnyOf(groups), row)
  {
    var both := AllOf([AnyOf(urls), AnyOf(groups)]);
    SelectsSingle(Filter([both]), row);
    assert [both][0] == both;
    var pair := [AnyOf(urls), AnyOf(groups)];
    assert pair[0] == AnyOf(urls) && pair[1] == AnyOf(groups);
    assert Eval(AnyOf([both]), row) == Eval(both, row);
    assert Eval(both, row) == (Eval(pair[0], row) && Eval(pair[1], row));
  }

  lemma FilterMeaning(req: Request, row: Row)
    ensures var domains := FoundDomains(PodcastsToFilter(req.podcasts), Registry.Lookup);
            var urls := UrlPreds(domains);
            var groups := GroupPreds(req.orGroups);
            var filter := if urls != [] && groups != [] then [Filter([AllOf([AnyOf(urls), AnyOf(groups)])])]
                          else if urls != [] then [Filter(urls)]
                          else if groups != [] then [Filter(groups)]
                          else [];
            Selects(filter, row) <==> UrlWanted(domains, row.url) && TextWanted(req.orGroups, row.text)
  {
    var domains := FoundDomains(PodcastsToFilter(req.podcasts), Registry.Lookup);
    var urls := UrlPreds(domains);
    var groups := GroupPreds(req.orGroups);
    UrlsMeaning(domains, row);
    GroupsMeaning(req.orGroups, row);
    if urls != [] && groups != [] {
      BothMeaning(urls, groups, row);
    } else if urls != [] {
      SelectsSingle(Filter(urls), row);
    } else if groups != [] {
      SelectsSingle(Filter(groups), row);
    }
  }

  lemma ExcludesMeaning(words: seq<string>, row: Row)
    ensures Selects(ExcludeConds(words), row) <==> NoneExcluded(words, row.text)
  {
    var cs := ExcludeConds(words);
    assert forall e :: 0 <= e < |words| ==> cs[e] == Exclude(TextField, words[e]);
  }

  /**
   * A row passes the planned query exactly when it is wanted: its URL
   * contains one of the selected known domains (when there is any), some
   * OR-group has all of its words in the text, no excluded word is in the
   * text, and the title contains a truthy title filter.
   */
  lemma CompileMeaning(req: Request, row: Row)
    ensures Selects(Compile(req), row) <==> Wanted(req, row)
  {
    var urls := UrlPreds(FoundDomains(PodcastsToFilter(req.podcasts), Registry.Lookup));
    var groups := GroupPreds(req.orGroups);
    var filter := if urls != [] && groups != [] then [Filter([AllOf([AnyOf(urls), AnyOf(groups)])])]
                  else if urls != [] then [Filter(urls)]
                  else if groups != [] then [Filter(groups)]
                  else [];
    var title := if Truthy(req.title) then [Require(TitleField, req.title.value)] else [];
    assert Compile(req) == filter + ExcludeConds(req.excludes) + title;
    SelectsAppend(filter + ExcludeConds(req.excludes), title, row);
    SelectsAppend(filter, ExcludeConds(req.excludes), row);
    FilterMeaning(req, row);
    ExcludesMeaning(req.excludes, row);
    if Truthy(req.title) {
      SelectsSingle(Require(TitleField, req.title.value), row);
    }
  }

  /** An empty word (from `||`, or a leading or trailing `|`) is contained in every text. */
  lemma EmptyWordMatchesEverything(hay: string)
    ensures Contains(hay, "")
  {
    assert OccursAt(hay, "", 0);
  }

  /** A row whose text contains any excluded word is never selected, whatever else it matches. */
  lemma ExcludedWordRejects(req: Request, row: Row, e: nat)
    requires e < |req.excludes| && Contains(row.text, req.excludes[e])
    ensures !Selects(Compile(req), row)
  {
    CompileMeaning(req, row);
  }
}
