/**
 * The static podcast registry `PODCAST_DOMAINS`: a short user-facing key
 * mapped to the domain substring its episodes' URLs contain.
 */
module Registry {
  import opened Wrappers

  /** The registry's keys in declaration order, which is the order of `Object.keys`. */
  const PodcastKeys: seq<string> :=
    ["data-engineering-podcast", "software-engineering-radio", "software-engineering-daily", "changelog"]

  const PodcastDomains: map<string, string> := map[
    "data-engineering-podcast" := "dataengineeringpodcast.com",
    "software-engineering-radio" := "se-radio.net",
    "software-engineering-daily" := "softwareengineeringdaily",
    "changelog" := "changelog.com"
  ]

  /**
   * The key list enumerates the registry exactly once each, and no registry
   * key is the name of an `Object.prototype` member.
   */
  lemma KeysEnumerateRegistry()
    ensures forall k :: k in PodcastDomains <==> k in PodcastKeys
    ensures forall k :: k in PodcastKeys ==> k !in InheritedMembers
    ensures forall i, j :: 0 <= i < j < |PodcastKeys| ==> PodcastKeys[i] != PodcastKeys[j]
    ensures forall k :: k in PodcastDomains ==> PodcastDomains[k] != ""
  {
  }

  /**
   * `PODCAST_DOMAINS[key]` followed by the truthiness test on the domain,
   * reading only the registry's own keys: a key outside the registry, or
   * one whose domain were empty, yields nothing.
   */
  function Lookup(key: string): (domain: Option<string>)
    ensures domain.Some? <==> key in PodcastDomains
    ensures domain.Some? ==> domain.value == PodcastDomains[key] && domain.value != ""
  {
    KeysEnumerateRegistry();
    if key in PodcastDomains && PodcastDomains[key] != "" then Some(PodcastDomains[key]) else None
  }

  /**
   * The members every JavaScript object literal inherits from
   * `Object.prototype`; indexing the registry with one of these names finds
   * the inherited member rather than `undefined`.
   */
  const InheritedMembers: seq<string> := [
    "constructor", "hasOwnProperty", "isPrototypeOf", "propertyIsEnumerable",
    "toLocaleString", "toString", "valueOf", "__proto__",
    "__defineGetter__", "__defineSetter__", "__lookupGetter__", "__lookupSetter__"
  ]

  /**
   * What a template literal makes of an inherited member. The text of a
   * native function is engine-defined; this is the form V8 prints.
   */
  function InheritedText(name: string): (text: string)
    ensures text != ""
  {
    if name == "__proto__" then "[object Object]"
    else if name == "constructor" then "function Object() { [native code] }"
    else "function " + name + "() { [native code] }"
  }

  /**
   * `PODCAST_DOMAINS[key]` as the source writes it: an own key gives its
   * domain, an inherited member name gives that member (which is truthy),
   * anything else gives `undefined`.
   */
  function LookupAsWritten(key: string): (found: Option<string>)
    ensures found.Some? <==> key in PodcastDomains || key in InheritedMembers
  {
    KeysEnumerateRegistry();
    if key in PodcastDomains then
      (if PodcastDomains[key] != "" then Some(PodcastDomains[key]) else None)
    else if key in InheritedMembers then Some(InheritedText(key))
    else None
  }

  /** The two lookups agree on every key that is not an inherited member name. */
  lemma LookupAgreesOffPrototype(key: string)
    requires key !in InheritedMembers
    ensures LookupAsWritten(key) == Lookup(key)
  {
  }

  /**
   * The discrepancy: `toString` is not a registry key, yet the lookup as
   * written finds a truthy value for it, so the key is not dropped.
   */
  lemma PrototypeKeyNotDropped()
    ensures "toString" !in PodcastDomains && Lookup("toString") == None
    ensures LookupAsWritten("toString") == Some("function toString() { [native code] }")
  {
    assert InheritedMembers[5] == "toString";
    assert "toString" != "__proto__" && "toString" != "constructor";
    assert "toString" !in PodcastDomains;
    var text := "function " + "toString" + "() { [native code] }";
    assert |text| == 37;
    assert forall i :: 0 <= i < 37 ==> text[i] == "function toString() { [native code] }"[i];
    assert text == "function toString() { [native code] }";
    assert InheritedText("toString") == text;
    assert "toString" in InheritedMembers;
  }
}
