/** The parsed JSON-LD values and the type tag the audit derives from each
    block. `json.loads` is foreign code: it is a parameter of type `Parser`. */
module JsonLd {
  import opened Text

  /** The values `json.loads` produces: None, bool, int/float, str, list, dict. */
  datatype Json =
    | JNull
    | JBool(b: bool)
    | JNumber(n: real)
    | JString(s: string)
    | JArray(items: seq<Json>)
    | JObject(members: map<string, Json>)

  /** `json.loads`; None stands for the exception it raises on bad input. */
  type Parser = string -> Option<Json>

  /** Python truthiness of a parsed value. */
  predicate Truthy(j: Json) {
    match j
    case JNull => false
    case JBool(b) => b
    case JNumber(n) => n != 0.0
    case JString(s) => s != ""
    case JArray(items) => items != []
    case JObject(members) => members != map[]
  }

  /** The type tag of one block (the expression at seo_audit.py:162-167). The tag
      is the Python value appended to the summaries, so a truthy non-string
      `@type` comes back as that value. */
  function TypeTag(parsed: Option<Json>): (tag: Json)
    ensures Truthy(tag)
    ensures !(parsed.Some? && (parsed.value.JObject? || parsed.value.JArray?)) ==> tag == JString("raw")
    ensures parsed.Some? && parsed.value.JArray? ==> tag == JString("list")
    ensures parsed.Some? && parsed.value.JObject? ==>
      var m := parsed.value.members;
      if "@type" in m && Truthy(m["@type"]) then tag == m["@type"]
      else if "@graph" in m && m["@graph"].JArray? then tag == JString("graph")
      else tag == JString("object")
  {
    match parsed
    case Some(JObject(m)) =>
      if "@type" in m && Truthy(m["@type"]) then m["@type"]
      else if "@graph" in m && m["@graph"].JArray? then JString("graph")
      else JString("object")
    case Some(JArray(_)) => JString("list")
    case _ => JString("raw")
  }

  /** The tag is a string unless the block is an object whose `@type` is
      truthy and not a string. */
  lemma {:induction false} TagIsString(parsed: Option<Json>)
    ensures TypeTag(parsed).JString? <==>
      !(parsed.Some? && parsed.value.JObject? && "@type" in parsed.value.members
        && Truthy(parsed.value.members["@type"]) && !parsed.value.members["@type"].JString?)
  {
  }

  /** The tags as `str` values, or None when one of them is not a string. */
  function TagNames(tags: seq<Json>): (names: Option<seq<string>>)
    ensures names.Some? <==> forall k :: 0 <= k < |tags| ==> tags[k].JString?
    ensures names.Some? ==> |names.value| == |tags|
    ensures names.Some? ==> forall k :: 0 <= k < |tags| ==> names.value[k] == tags[k].s
  {
    if tags == [] then Some([])
    else match (tags[0], TagNames(tags[1..]))
      case (JString(s), Some(rest)) => Some([s] + rest)
      case _ => None
  }

  /** `';'.join(tags)` (seo_audit.py:170): the summaries string, or None when a
      tag is not a string and the join raises TypeError. */
  function Summaries(tags: seq<Json>): (r: Option<string>)
    ensures r.Some? <==> forall k :: 0 <= k < |tags| ==> tags[k].JString?
  {
    match TagNames(tags)
    case Some(names) => Some(Join(";", names))
    case None => None
  }

  /** When no tag holds ';', splitting the summaries string gives the tags back. */
  lemma SummariesSplit(tags: seq<Json>)
    requires |tags| >= 1
    requires forall k :: 0 <= k < |tags| ==> tags[k].JString? && ';' !in tags[k].s
    ensures Summaries(tags).Some?
    ensures var names := SplitOn(Summaries(tags).value, ';');
      |names| == |tags| && forall k :: 0 <= k < |tags| ==> JString(names[k]) == tags[k]
  {
    var names := TagNames(tags).value;
    SplitJoin(names, ';');
  }

  /** A block whose `@type` is a non-empty list, as JSON-LD allows, has that
      list as its tag, so the summaries join raises for its page whatever the
      other tags are. An empty list is falsy, so the `@graph` and 'object'
      branches decide the tag instead. */
  lemma ListTypeBreaksSummaries(other: seq<Json>, m: map<string, Json>)
    requires "@type" in m && m["@type"].JArray? && m["@type"].items != []
    ensures Summaries(other + [TypeTag(Some(JObject(m)))]).None?
  {
    var tags := other + [TypeTag(Some(JObject(m)))];
    assert !tags[|tags| - 1].JString?;
  }
}
