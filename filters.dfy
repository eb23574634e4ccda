/**
 * The two filter strings `GET` builds in PostgREST's filter syntax: the URL
 * filter from the podcast selection and the text filter from the OR-groups.
 */
module Filters {
  import opened Wrappers
  import opened Text
  import Registry

  /**
   * How a selected key becomes a domain: reading the registry object with
   * the key and keeping the result only when it is truthy.
   */
  type KeyLookup = string -> Option<string>

  /** The URL condition for one podcast domain: `url.ilike.*<domain>*`, the domain verbatim between the stars. */
  function DomainTerm(domain: string): (term: string)
  {
    "url.ilike.*" + domain + "*"
  }

  /** The text condition for one keyword: `text.ilike.*<word>*`, the word verbatim between the stars. */
  function TextTerm(word: string): (term: string)
  {
    "text.ilike.*" + word + "*"
  }

  /**
   * `podcastsToFilter`: a non-empty selection as given (order and duplicates
   * kept), otherwise every registry key exactly once.
   */
  function PodcastsToFilter(selected: seq<string>): (keys: seq<string>)
    ensures |selected| > 0 ==> keys == selected
    ensures |selected| == 0 ==>
      (forall k :: k in keys <==> k in Registry.PodcastDomains)
      && (forall i, j :: 0 <= i < j < |keys| ==> keys[i] != keys[j])
  {
    Registry.KeysEnumerateRegistry();
    if |selected| > 0 then selected else Registry.PodcastKeys
  }

  /**
   * The domains `podcastFilters` is built from: one per key the lookup
   * finds, in key order; keys it does not find are dropped. There are none
   * exactly when the lookup finds no key.
   */
  function FoundDomains(keys: seq<string>, lookup: KeyLookup): (domains: seq<string>)
    ensures |domains| <= |keys|
    ensures domains == [] <==> forall i :: 0 <= i < |keys| ==> lookup(keys[i]).None?
  {
    if keys == [] then []
    else
      assert forall i :: 1 <= i < |keys| ==> keys[i] == keys[1..][i - 1];
      (match lookup(keys[0])
       case Some(domain) => [domain]
       case None => [])
      + FoundDomains(keys[1..], lookup)
  }

  /**
   * `podcastFilters`: one URL term per key the lookup finds, in key order.
   * There is no term exactly when no key is found.
   */
  function PodcastFilters(keys: seq<string>, lookup: KeyLookup): (terms: seq<string>)
    ensures |terms| == |FoundDomains(keys, lookup)| <= |keys|
    ensures forall i :: 0 <= i < |terms| ==> terms[i] == DomainTerm(FoundDomains(keys, lookup)[i])
    ensures terms == [] <==> forall i :: 0 <= i < |keys| ==> lookup(keys[i]).None?
  {
    var domains := FoundDomains(keys, lookup);
    seq(|domains|, i requires 0 <= i < |domains| => DomainTerm(domains[i]))
  }

  /** `andWords.map(...)`: one text term per word. */
  function TextTerms(words: seq<string>): (terms: seq<string>)
    ensures |terms| == |words|
    ensures forall j :: 0 <= j < |words| ==> terms[j] == TextTerm(words[j])
  {
    if words == [] then [] else [TextTerm(words[0])] + TextTerms(words[1..])
  }

  /** One OR-group: its `|`-separated words as text terms, ANDed, framed by `and(` and `)`. */
  function AndSegment(group: string): (segment: string)
  {
    "and(" + Join(TextTerms(Split(group, '|')), ",") + ")"
  }

  /** `orFilterSegments`: one AND segment per group, in group order. */
  function AndSegments(groups: seq<string>): (segments: seq<string>)
    ensures |segments| == |groups|
    ensures forall i :: 0 <= i < |groups| ==> segments[i] == AndSegment(groups[i])
  {
    if groups == [] then [] else [AndSegment(groups[0])] + AndSegments(groups[1..])
  }

  /**
   * `textSearchFilter`: null when there are no OR-groups, otherwise the
   * segments joined with commas (which PostgREST reads as OR).
   */
  function TextSearchFilter(groups: seq<string>): (filter: Option<string>)
    ensures filter.None? <==> groups == []
    ensures filter.Some? ==> |filter.value| >= 4 && filter.value[..4] == "and("
  {
    if |groups| > 0 then
      var segments := AndSegments(groups);
      Some(Join(segments, ","))
    else None
  }

  /**
   * The nested filter used when both a URL filter and a text filter exist:
   * the joined URL terms and the text filter, each wrapped in `or(...)`,
   * inside `and(...)`.
   */
  function Combined(urlTerms: seq<string>, textFilter: string): (filter: string)
  {
    "and(or(" + Join(urlTerms, ",") + "),or(" + textFilter + "))"
  }

  /** The domains found for two key lists back to back are those of each, back to back. */
  lemma {:induction false} FoundDomainsAppend(a: seq<string>, b: seq<string>, lookup: KeyLookup)
    ensures FoundDomains(a + b, lookup) == FoundDomains(a, lookup) + FoundDomains(b, lookup)
  {
    if a != [] {
      assert (a + b)[0] == a[0];
      assert (a + b)[1..] == a[1..] + b;
      FoundDomainsAppend(a[1..], b, lookup);
    } else {
      assert a + b == b;
    }
  }

  /** The URL terms of two key lists back to back are the terms of each, back to back. */
  lemma PodcastFiltersAppend(a: seq<string>, b: seq<string>, lookup: KeyLookup)
    ensures PodcastFilters(a + b, lookup) == PodcastFilters(a, lookup) + PodcastFilters(b, lookup)
  {
    FoundDomainsAppend(a, b, lookup);
  }

  /** A key the lookup does not find contributes nothing and raises no error. */
  lemma UnknownKeyDropped(before: seq<string>, key: string, after: seq<string>, lookup: KeyLookup)
    requires lookup(key).None?
    ensures PodcastFilters(before + [key] + after, lookup) == PodcastFilters(before + after, lookup)
  {
    PodcastFiltersAppend(before + [key], after, lookup);
    PodcastFiltersAppend(before, [key], lookup);
    PodcastFiltersAppend(before, after, lookup);
  }

  /** A key the lookup finds contributes exactly `url.ilike.*<its domain>*`, in its place. */
  lemma KnownKeyTerm(before: seq<string>, key: string, after: seq<string>, lookup: KeyLookup)
    requires lookup(key).Some?
    ensures PodcastFilters(before + [key] + after, lookup)
         == PodcastFilters(before, lookup) + [DomainTerm(lookup(key).value)] + PodcastFilters(after, lookup)
  {
    PodcastFiltersAppend(before + [key], after, lookup);
    PodcastFiltersAppend(before, [key], lookup);
  }

  /** A term appears exactly when the lookup maps some selected key to its domain. */
  lemma {:induction false} PodcastFiltersMembership(keys: seq<string>, term: string, lookup: KeyLookup)
    ensures term in PodcastFilters(keys, lookup) <==>
      exists i :: 0 <= i < |keys| && lookup(keys[i]).Some? && term == DomainTerm(lookup(keys[i]).value)
  {
    if keys != [] {
      PodcastFiltersMembership(keys[1..], term, lookup);
      PodcastFiltersAppend([keys[0]], keys[1..], lookup);
      assert [keys[0]] + keys[1..] == keys;
      if term in PodcastFilters(keys, lookup) && term !in PodcastFilters(keys[1..], lookup) {
        assert term in PodcastFilters([keys[0]], lookup);
        assert lookup(keys[0]).Some?;
      }
      if exists i :: 0 <= i < |keys| && lookup(keys[i]).Some? && term == DomainTerm(lookup(keys[i]).value) {
        var i :| 0 <= i < |keys| && lookup(keys[i]).Some? && term == DomainTerm(lookup(keys[i]).value);
        if i > 0 {
          assert keys[1..][i - 1] == keys[i];
        } else {
          assert PodcastFilters([keys[0]], lookup) == [term];
        }
      }
    }
  }

  /** Two lookups that agree on every selected key find the same domains. */
  lemma {:induction false} FoundDomainsAgree(keys: seq<string>, f: KeyLookup, g: KeyLookup)
    requires forall i :: 0 <= i < |keys| ==> f(keys[i]) == g(keys[i])
    ensures FoundDomains(keys, f) == FoundDomains(keys, g)
  {
    if keys != [] {
      assert forall i :: 1 <= i < |keys| ==> keys[1..][i - 1] == keys[i];
      FoundDomainsAgree(keys[1..], f, g);
    }
  }

  /** An empty selection filters on every registry domain, in registry order. */
  lemma EmptySelectionMeansAllPodcasts()
    ensures PodcastFilters(PodcastsToFilter([]), Registry.Lookup) == [
      DomainTerm("dataengineeringpodcast.com"), DomainTerm("se-radio.net"),
      DomainTerm("softwareengineeringdaily"), DomainTerm("changelog.com")]
  {
  }
}
