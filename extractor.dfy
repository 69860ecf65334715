/** `extract_meta_from_html` over a parsed page. The HTML parser is foreign
    code: its output is a `Document`, the page's elements in document order,
    each with its tag name, its attributes, the parser's `.string` (None when
    the parser gives none) and the texts of its children. */
module Extractor {
  import opened Text
  import opened JsonLd

  datatype Element = Element(tag: string, attrs: map<string, string>, str: Option<string>, children: seq<string>)
  type Document = seq<Element>

  /** The arguments of `soup.find(tag, attrs=...)`: a tag name and attribute
      values that must match exactly. */
  datatype Query = Query(tag: string, attrs: map<string, string>)

  /** The element has the query's tag name and every attribute value it asks for. */
  predicate Selects(q: Query, e: Element) {
    && e.tag == q.tag
    && forall a :: a in q.attrs ==> a in e.attrs && e.attrs[a] == q.attrs[a]
  }

  /** `doc[i]` is the first element the query selects. */
  predicate FirstMatch(doc: Document, q: Query, i: int) {
    0 <= i < |doc| && Selects(q, doc[i]) && forall j :: 0 <= j < i ==> !Selects(q, doc[j])
  }

  /** The query selects no element. */
  predicate NoMatch(doc: Document, q: Query) {
    forall j :: 0 <= j < |doc| ==> !Selects(q, doc[j])
  }

  /** `soup.find(...)`: the position of the first element the query selects. */
  function FindFirst(doc: Document, q: Query): (r: Option<nat>)
    ensures r.Some? ==> FirstMatch(doc, q, r.value)
    ensures r.None? <==> NoMatch(doc, q)
  {
    if doc == [] then None
    else if Selects(q, doc[0]) then Some(0)
    else match FindFirst(doc[1..], q)
      case None => None
      case Some(k) => Some(k + 1)
  }

  /** `tag.get(key)` is truthy: the attribute is present and not empty. */
  predicate HasValue(e: Element, key: string) {
    key in e.attrs && e.attrs[key] != ""
  }

  /** `tag[key].strip() if tag.get(key) else ''`. */
  function StrippedAttr(e: Element, key: string): (r: string)
    ensures Trimmed(r)
    ensures !HasValue(e, key) ==> r == ""
    ensures HasValue(e, key) ==> r == Strip(e.attrs[key])
  {
    if HasValue(e, key) then Strip(e.attrs[key]) else ""
  }

  function MetaQuery(attr: string, value: string): Query {
    Query("meta", map[attr := value])
  }

  /** `meta_content(name=value)` (attr "name") or `meta_content(prop=value)`
      (attr "property"): the stripped `content` of the FIRST matching meta
      tag; later matching tags are never consulted, even when the first has
      no usable content. */
  function MetaContent(doc: Document, attr: string, value: string): (r: string)
    ensures Trimmed(r)
    ensures NoMatch(doc, MetaQuery(attr, value)) ==> r == ""
    ensures forall i :: FirstMatch(doc, MetaQuery(attr, value), i) ==> r == StrippedAttr(doc[i], "content")
  {
    match FindFirst(doc, MetaQuery(attr, value))
    case None => ""
    case Some(i) => StrippedAttr(doc[i], "content")
  }

  /** `meta_content(name='description') or meta_content(prop='og:description')`. */
  function Description(doc: Document): (r: string)
    ensures Trimmed(r)
    ensures MetaContent(doc, "name", "description") != "" ==> r == MetaContent(doc, "name", "description")
    ensures MetaContent(doc, "name", "description") == "" ==> r == MetaContent(doc, "property", "og:description")
    ensures r == "" <==> MetaContent(doc, "name", "description") == "" && MetaContent(doc, "property", "og:description") == ""
  {
    var d := MetaContent(doc, "name", "description");
    if d != "" then d else MetaContent(doc, "property", "og:description")
  }

  const CanonicalQuery := Query("link", map["rel" := "canonical"])

  /** The stripped `href` of the first canonical link, or '' (seo_audit.py:67-68). */
  function Canonical(doc: Document): (r: string)
    ensures Trimmed(r)
    ensures NoMatch(doc, CanonicalQuery) ==> r == ""
    ensures forall i :: FirstMatch(doc, CanonicalQuery, i) ==> r == StrippedAttr(doc[i], "href")
  {
    match FindFirst(doc, CanonicalQuery)
    case None => ""
    case Some(i) => StrippedAttr(doc[i], "href")
  }

  const TitleQuery := Query("title", map[])

  /** The stripped `.string` of the first title element when it is non-empty,
      else '' (seo_audit.py:49-51). */
  function Title(doc: Document): (r: string)
    ensures Trimmed(r)
    ensures NoMatch(doc, TitleQuery) ==> r == ""
    ensures forall i :: FirstMatch(doc, TitleQuery, i) && doc[i].str.None? ==> r == ""
    ensures forall i :: FirstMatch(doc, TitleQuery, i) && doc[i].str.Some? ==> r == Strip(doc[i].str.value)
  {
    match FindFirst(doc, TitleQuery)
    case None => ""
    case Some(i) =>
      var e := doc[i];
      if e.str.Some? && e.str.value != "" then Strip(e.str.value)
      else
        assert e.str.Some? ==> Strip(e.str.value) == "" by {
          if e.str.Some? {
            StripAllSpace(e.str.value);
          }
        }
        ""
  }

  // ---------------------------------------------------------------- hreflangs

  datatype Alternate = Alternate(hreflang: string, href: string)

  const AlternateQuery := Query("link", map["rel" := "alternate"])

  /** An alternate link whose `hreflang` and `href` are both non-empty. */
  predicate IsHreflangLink(e: Element) {
    Selects(AlternateQuery, e) && HasValue(e, "hreflang") && HasValue(e, "href")
  }

  /** The unstripped pair an hreflang link contributes. */
  function AlternateOf(e: Element): Alternate
    requires IsHreflangLink(e)
  {
    Alternate(e.attrs["hreflang"], e.attrs["href"])
  }

  /** The `hreflangs` list: one entry per hreflang link, in document order. */
  function Alternates(doc: Document): seq<Alternate>
  {
    if doc == [] then []
    else
      var last := doc[|doc| - 1];
      Alternates(doc[..|doc| - 1]) + (if IsHreflangLink(last) then [AlternateOf(last)] else [])
  }

  /** The list of a concatenation is the concatenation of the lists: order
      is kept and nothing is merged across the two parts. */
  lemma {:induction false} AlternatesAppend(a: Document, b: Document)
    ensures Alternates(a + b) == Alternates(a) + Alternates(b)
  {
    if b == [] {
      assert a + b == a;
    } else {
      var b' := b[..|b| - 1];
      assert (a + b)[..|a + b| - 1] == a + b';
      assert (a + b)[|a + b| - 1] == b[|b| - 1];
      AlternatesAppend(a, b');
    }
  }

  /** An entry is in the list exactly when some hreflang link yields it. */
  lemma {:induction false} AlternatesMembers(doc: Document, x: Alternate)
    ensures x in Alternates(doc) <==> exists i :: 0 <= i < |doc| && IsHreflangLink(doc[i]) && x == AlternateOf(doc[i])
  {
    if doc != [] {
      var init := doc[..|doc| - 1];
      AlternatesMembers(init, x);
      if x in Alternates(init) {
        var i :| 0 <= i < |init| && IsHreflangLink(init[i]) && x == AlternateOf(init[i]);
        assert doc[i] == init[i];
      }
      if exists i :: 0 <= i < |doc| && IsHreflangLink(doc[i]) && x == AlternateOf(doc[i]) {
        var i :| 0 <= i < |doc| && IsHreflangLink(doc[i]) && x == AlternateOf(doc[i]);
        if i < |init| {
          assert init[i] == doc[i];
        }
      }
    }
  }

  /** Repeated links are all kept: a page made only of hreflang links yields
      one entry per link, position by position. */
  lemma {:induction false} AlternatesKeepsEveryLink(doc: Document)
    requires forall i :: 0 <= i < |doc| ==> IsHreflangLink(doc[i])
    ensures |Alternates(doc)| == |doc|
    ensures forall i :: 0 <= i < |doc| ==> Alternates(doc)[i] == AlternateOf(doc[i])
  {
    if doc != [] {
      AlternatesKeepsEveryLink(doc[..|doc| - 1]);
    }
  }

  /** `';'.join(f"{hreflang}|{href}" ...)`, '' for no links (seo_audit.py:152). */
  function FlattenAlternates(hs: seq<Alternate>): string
  {
    Join(";", seq(|hs|, k requires 0 <= k < |hs| => hs[k].hreflang + "|" + hs[k].href))
  }

  /** Reads a flattened hreflang string back: split on ';', then each piece at
      its first '|'. */
  function ParseAlternates(s: string): seq<Alternate>
  {
    if s == "" then []
    else
      var pieces := SplitOn(s, ';');
      seq(|pieces|, k requires 0 <= k < |pieces| => SplitPair(pieces[k]))
  }

  function SplitPair(piece: string): Alternate
  {
    var parts := SplitOn(piece, '|');
    Alternate(parts[0], Join("|", parts[1..]))
  }

  lemma {:induction false} SplitPairJoin(lang: string, href: string)
    requires '|' !in lang
    ensures SplitPair(lang + "|" + href) == Alternate(lang, href)
  {
    SplitOnPiece(lang, '|', href);
    var rest := SplitOn(href, '|');
    assert SplitOn(lang + "|" + href, '|') == [lang] + rest;
    JoinSplit(href, '|');
  }

  /** The flattened string is '' exactly when the page has no hreflang
      links, whatever the tags and hrefs hold: every pair contributes at
      least its '|'. */
  lemma FlattenEmpty(hs: seq<Alternate>)
    ensures FlattenAlternates(hs) == "" <==> hs == []
  {
    var pieces := seq(|hs|, k requires 0 <= k < |hs| => hs[k].hreflang + "|" + hs[k].href);
    if hs != [] {
      assert '|' in pieces[0];
      JoinEmpty(";", pieces);
    }
  }

  /** The flattened string is '' exactly when there are no links, and when no
      language tag holds '|' or ';' and no href holds ';' it reads back as the
      original list. */
  lemma FlattenRoundTrip(hs: seq<Alternate>)
    requires forall k :: 0 <= k < |hs| ==> '|' !in hs[k].hreflang && ';' !in hs[k].hreflang && ';' !in hs[k].href
    ensures FlattenAlternates(hs) == "" <==> hs == []
    ensures ParseAlternates(FlattenAlternates(hs)) == hs
  {
    var pieces := seq(|hs|, k requires 0 <= k < |hs| => hs[k].hreflang + "|" + hs[k].href);
    if hs != [] {
      assert pieces[0] != "";
      forall k | 0 <= k < |pieces| ensures ';' !in pieces[k] {
        assert pieces[k] == hs[k].hreflang + "|" + hs[k].href;
      }
      SplitJoin(pieces, ';');
      assert Join(";", pieces) != "" by {
        JoinEmpty(";", pieces);
      }
      forall k | 0 <= k < |hs| ensures SplitPair(pieces[k]) == hs[k] {
        SplitPairJoin(hs[k].hreflang, hs[k].href);
      }
    }
  }

  // ----------------------------------------------------------- JSON-LD blocks

  datatype Block = Block(raw: string, json: Option<Json>)

  const LdQuery := Query("script", map["type" := "application/ld+json"])

  /** `s.string`, or when that is empty or missing, `''.join(s.contents)`. */
  function ScriptText(e: Element): (t: string)
    ensures e.str.Some? && e.str.value != "" ==> t == e.str.value
    ensures !(e.str.Some? && e.str.value != "") ==> t == Join("", e.children)
  {
    if e.str.Some? && e.str.value != "" then e.str.value else Join("", e.children)
  }

  /** A JSON-LD script is counted when its text is non-empty BEFORE stripping. */
  predicate IsLdBlock(e: Element) {
    Selects(LdQuery, e) && ScriptText(e) != ""
  }

  /** `json.loads(raw)`, and only if that raises, `json.loads` of the text with
      every newline turned into a space; None when both raise. */
  function ParseBlock(raw: string, parse: Parser): (r: Option<Json>)
    ensures parse(raw).Some? ==> r == parse(raw)
    ensures parse(raw).None? ==> r == parse(ReplaceChar(raw, '\n', ' '))
  {
    match parse(raw)
    case Some(j) => Some(j)
    case None => parse(ReplaceChar(raw, '\n', ' '))
  }

  /** Text without newlines gets the same answer from both attempts. */
  lemma NoNewlineSingleAnswer(raw: string, parse: Parser)
    requires '\n' !in raw
    ensures ParseBlock(raw, parse) == parse(raw)
  {
    assert ReplaceChar(raw, '\n', ' ') == raw;
  }

  function BlockOf(e: Element, parse: Parser): Block
  {
    var raw := Strip(ScriptText(e));
    Block(raw, ParseBlock(raw, parse))
  }

  /** `json_ld_blocks`: one block per counted script, in document order. */
  function LdBlocks(doc: Document, parse: Parser): seq<Block>
  {
    if doc == [] then []
    else
      var last := doc[|doc| - 1];
      LdBlocks(doc[..|doc| - 1], parse) + (if IsLdBlock(last) then [BlockOf(last, parse)] else [])
  }

  lemma {:induction false} LdBlocksAppend(a: Document, b: Document, parse: Parser)
    ensures LdBlocks(a + b, parse) == LdBlocks(a, parse) + LdBlocks(b, parse)
  {
    if b == [] {
      assert a + b == a;
    } else {
      var b' := b[..|b| - 1];
      assert (a + b)[..|a + b| - 1] == a + b';
      assert (a + b)[|a + b| - 1] == b[|b| - 1];
      LdBlocksAppend(a, b', parse);
    }
  }

  /** The positions of the counted scripts. */
  ghost function LdPositions(doc: Document): set<int>
  {
    set i | 0 <= i < |doc| && IsLdBlock(doc[i])
  }

  /** The counted positions of a page are those of all but its last element,
      plus the last one when it is counted. */
  lemma LdPositionsSnoc(doc: Document)
    requires doc != []
    ensures |doc| - 1 !in LdPositions(doc[..|doc| - 1])
    ensures LdPositions(doc) == LdPositions(doc[..|doc| - 1]) + (if IsLdBlock(doc[|doc| - 1]) then {|doc| - 1} else {})
  {
    var n := |doc| - 1;
    var init := doc[..n];
    forall i | i in LdPositions(doc) ensures i in LdPositions(init) + (if IsLdBlock(doc[n]) then {n} else {}) {
      if i < n {
        assert init[i] == doc[i];
      }
    }
  }

  /** There are exactly as many blocks as counted scripts, unparseable ones
      included (`json_ld_count`, seo_audit.py:157). */
  lemma {:induction false} LdBlocksCount(doc: Document, parse: Parser)
    ensures |LdBlocks(doc, parse)| == |LdPositions(doc)|
  {
    if doc == [] {
      assert LdPositions(doc) == {};
    } else {
      LdBlocksCount(doc[..|doc| - 1], parse);
      LdPositionsSnoc(doc);
    }
  }

  /** A script holding only whitespace is not skipped: it yields a block whose
      raw text is ''. */
  lemma WhitespaceScriptKept(doc: Document, e: Element, parse: Parser)
    requires Selects(LdQuery, e) && ScriptText(e) != ""
    requires forall k :: 0 <= k < |ScriptText(e)| ==> IsSpace(ScriptText(e)[k])
    ensures LdBlocks(doc + [e], parse) == LdBlocks(doc, parse) + [Block("", ParseBlock("", parse))]
  {
    StripAllSpace(ScriptText(e));
    assert (doc + [e])[..|doc|] == doc;
  }

  // ------------------------------------------------------------- the record

  datatype PageMeta = PageMeta(
    title: string,
    metaDescription: string,
    metaKeywords: string,
    metaAiSummary: string,
    canonical: string,
    hreflangs: seq<Alternate>,
    ogTitle: string,
    ogDescription: string,
    ogImage: string,
    twitterCard: string,
    jsonLdBlocks: seq<Block>)

  /** The record `extract_meta_from_html` returns for a parsed page. */
  function MetaOf(doc: Document, parse: Parser): PageMeta
  {
    PageMeta(
      Title(doc),
      Description(doc),
      MetaContent(doc, "name", "keywords"),
      MetaContent(doc, "name", "ai-summary"),
      Canonical(doc),
      Alternates(doc),
      MetaContent(doc, "property", "og:title"),
      MetaContent(doc, "property", "og:description"),
      MetaContent(doc, "property", "og:image"),
      MetaContent(doc, "name", "twitter:card"),
      LdBlocks(doc, parse))
  }

  /** The loop at seo_audit.py:70-73 over the alternate links. */
  method CollectAlternates(doc: Document) returns (hreflangs: seq<Alternate>)
    ensures hreflangs == Alternates(doc)
  {
    hreflangs := [];
    var i := 0;
    while i < |doc|
      invariant 0 <= i <= |doc|
      invariant hreflangs == Alternates(doc[..i])
    {
      var alt := doc[i];
      assert doc[..i + 1][..i] == doc[..i];
      if Selects(AlternateQuery, alt) && HasValue(alt, "hreflang") && HasValue(alt, "href") {
        hreflangs := hreflangs + [Alternate(alt.attrs["hreflang"], alt.attrs["href"])];
      }
      i := i + 1;
    }
    assert doc[..|doc|] == doc;
  }

  /** One more element adds its block when it is counted. */
  lemma LdBlocksStep(doc: Document, i: nat, parse: Parser)
    requires i < |doc|
    ensures LdBlocks(doc[..i + 1], parse)
      == LdBlocks(doc[..i], parse) + (if IsLdBlock(doc[i]) then [BlockOf(doc[i], parse)] else [])
  {
    assert doc[..i + 1][..i] == doc[..i];
  }

  /** The body of the loop at seo_audit.py:82-97 for one script element:
      nothing when its text is empty, else its block. */
  method ReadScript(s: Element, parse: Parser) returns (b: Option<Block>)
    requires Selects(LdQuery, s)
    ensures b.Some? <==> IsLdBlock(s)
    ensures b.Some? ==> b.value == BlockOf(s, parse)
  {
    var text := if s.str.Some? then s.str.value else "";
    if text == "" {
      text := Join("", s.children);
    }
    if text == "" {
      return None;
    }
    text := Strip(text);
    var parsed := parse(text);
    if parsed.None? {
      parsed := parse(ReplaceChar(text, '\n', ' '));
    }
    b := Some(Block(text, parsed));
  }

  /** The loop at seo_audit.py:80-97 over the JSON-LD scripts. */
  method CollectBlocks(doc: Document, parse: Parser) returns (blocks: seq<Block>)
    ensures blocks == LdBlocks(doc, parse)
  {
    blocks := [];
    var i := 0;
    while i < |doc|
      invariant 0 <= i <= |doc|
      invariant blocks == LdBlocks(doc[..i], parse)
    {
      var s := doc[i];
      LdBlocksStep(doc, i, parse);
      if Selects(LdQuery, s) {
        var b := ReadScript(s, parse);
        if b.Some? {
          blocks := blocks + [b.value];
        }
      }
      i := i + 1;
    }
    assert doc[..|doc|] == doc;
  }

  /** `extract_meta_from_html` past decoding and parsing: the scalar fields
      by lookup, the hreflang and JSON-LD lists by one pass each. */
  method ExtractMeta(doc: Document, parse: Parser) returns (m: PageMeta)
    ensures m == MetaOf(doc, parse)
  {
    var hreflangs := CollectAlternates(doc);
    var blocks := CollectBlocks(doc, parse);
    m := PageMeta(
      Title(doc),
      Description(doc),
      MetaContent(doc, "name", "keywords"),
      MetaContent(doc, "name", "ai-summary"),
      Canonical(doc),
      hreflangs,
      MetaContent(doc, "property", "og:title"),
      MetaContent(doc, "property", "og:description"),
      MetaContent(doc, "property", "og:image"),
      MetaContent(doc, "name", "twitter:card"),
      blocks);
  }
}
