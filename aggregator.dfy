/** The aggregation loop of `main` (seo_audit.py:134-178): every page path, in
    sorted order, is read, decoded, parsed and extracted; its record is
    appended to `results`, and the title index, the description index and
    the list of pages without a canonical link are updated. */
module Aggregator {
  import opened Text
  import opened Decoder
  import opened JsonLd
  import opened Extractor
  import opened PathOrder

  /** The foreign code a page goes through. */
  datatype Env = Env(
    // `open(path, 'rb').read()`; None when it raises
    read: string -> Option<Bytes>,
    codecs: Codecs,
    // `BeautifulSoup(txt, 'html.parser')`
    soup: string -> Document,
    // `json.loads`
    parse: Parser)

  /** The flattened record `rec` (seo_audit.py:145-170). */
  datatype Row = Row(
    path: string,
    title: string,
    metaDescription: string,
    metaKeywords: string,
    metaAiSummary: string,
    canonical: string,
    hreflangs: string,
    ogTitle: string,
    ogDescription: string,
    ogImage: string,
    twitterCard: string,
    jsonLdCount: nat,
    jsonLdSummaries: string)

  /** One entry of `results`: the row and the page's JSON-LD blocks. */
  datatype PageResult = PageResult(meta: Row, jsonLdBlocks: seq<Block>)

  /** What happens to one path: skipped because reading it raised, the whole
      scan aborted because the summaries join raised, or a record added. */
  datatype Processed = Skipped | Aborted | Added(result: PageResult)

  /** The type tags of the blocks, in block order. */
  function Tags(blocks: seq<Block>): (tags: seq<Json>)
    ensures |tags| == |blocks|
  {
    seq(|blocks|, k requires 0 <= k < |blocks| => TypeTag(blocks[k].json))
  }

  function RowOf(path: string, m: PageMeta, summaries: string): Row
  {
    Row(path, m.title, m.metaDescription, m.metaKeywords, m.metaAiSummary, m.canonical,
        FlattenAlternates(m.hreflangs), m.ogTitle, m.ogDescription, m.ogImage, m.twitterCard,
        |m.jsonLdBlocks|, summaries)
  }

  /** The meta record of the page at `path`, once its bytes are read. */
  function PageMetaOf(raw: Bytes, env: Env): PageMeta
  {
    MetaOf(env.soup(Decode(raw, env.codecs).text), env.parse)
  }

  /** What the loop does with a page once read and extracted
      (seo_audit.py:145-178): the summaries join raises exactly when some
      block's tag is not a string; otherwise the record is added. */
  function ProcessMeta(path: string, m: PageMeta): (p: Processed)
    ensures !p.Skipped?
    ensures p.Added? ==> p.result.meta.path == path && p.result.jsonLdBlocks == m.jsonLdBlocks
    ensures p.Added? ==> p.result.meta.jsonLdCount == |p.result.jsonLdBlocks|
    ensures p.Added? ==> p.result.meta.hreflangs == FlattenAlternates(m.hreflangs)
  {
    match Summaries(Tags(m.jsonLdBlocks))
    case None => Aborted
    case Some(s) => Added(PageResult(RowOf(path, m, s), m.jsonLdBlocks))
  }

  /** A page aborts the scan exactly when one of its blocks has a tag that is
      not a string: an object whose `@type` is truthy and not a string. */
  lemma ProcessMetaAborts(path: string, m: PageMeta)
    ensures ProcessMeta(path, m).Aborted? <==>
      exists k :: 0 <= k < |m.jsonLdBlocks| && !TypeTag(m.jsonLdBlocks[k].json).JString?
  {
    var tags := Tags(m.jsonLdBlocks);
    assert forall k :: 0 <= k < |tags| ==> tags[k] == TypeTag(m.jsonLdBlocks[k].json);
  }

  /** One turn of the loop body at seo_audit.py:140-178: a path whose read
      raises is skipped (the message to stderr is left out). */
  function Process(path: string, env: Env): (p: Processed)
    ensures p.Skipped? <==> env.read(path).None?
  {
    match env.read(path)
    case None => Skipped
    case Some(raw) => ProcessMeta(path, PageMetaOf(raw, env))
  }

  // ------------------------------------------------------------ the indices

  /** A dict from key to list of paths, with its keys in insertion order. */
  datatype GroupIndex = GroupIndex(order: seq<string>, groups: map<string, seq<string>>)

  ghost predicate WellFormed(ix: GroupIndex) {
    Distinct(ix.order) && forall k :: k in ix.groups <==> k in ix.order
  }

  /** `index[key].append(path)` on a defaultdict(list): a new key goes last. */
  function Append(ix: GroupIndex, key: string, path: string): (r: GroupIndex)
    ensures WellFormed(ix) ==> WellFormed(r)
  {
    if key in ix.groups then GroupIndex(ix.order, ix.groups[key := ix.groups[key] + [path]])
    else GroupIndex(ix.order + [key], ix.groups[key := [path]])
  }

  /** The row fields the loop keys on. */
  datatype Field = TitleField | DescriptionField | CanonicalField

  function KeyOf(r: Row, f: Field): string {
    match f
    case TitleField => r.title
    case DescriptionField => r.metaDescription
    case CanonicalField => r.canonical
  }

  function PathsOf(rs: seq<PageResult>): (ps: seq<string>)
    ensures |ps| == |rs| && forall k :: 0 <= k < |rs| ==> ps[k] == rs[k].meta.path
  {
    seq(|rs|, k requires 0 <= k < |rs| => rs[k].meta.path)
  }

  /** The paths of the records whose field `f` is `key`, in record order. */
  function PathsWith(rs: seq<PageResult>, f: Field, key: string): seq<string>
  {
    if rs == [] then []
    else
      var last := rs[|rs| - 1].meta;
      PathsWith(rs[..|rs| - 1], f, key) + (if KeyOf(last, f) == key then [last.path] else [])
  }

  /** The index the loop builds over field `f` of the records so far; empty
      values are never indexed (seo_audit.py:173-176). */
  function IndexBy(rs: seq<PageResult>, f: Field): (ix: GroupIndex)
    ensures WellFormed(ix)
  {
    if rs == [] then GroupIndex([], map[])
    else
      var last := rs[|rs| - 1].meta;
      var ix := IndexBy(rs[..|rs| - 1], f);
      if KeyOf(last, f) != "" then Append(ix, KeyOf(last, f), last.path) else ix
  }

  /** A path is listed under `key` exactly when some record with that path
      has `key` in field `f`. */
  lemma {:induction false} PathsWithMembers(rs: seq<PageResult>, f: Field, key: string, p: string)
    ensures p in PathsWith(rs, f, key) <==> exists i :: 0 <= i < |rs| && rs[i].meta.path == p && KeyOf(rs[i].meta, f) == key
  {
    if rs != [] {
      var init := rs[..|rs| - 1];
      PathsWithMembers(init, f, key, p);
      if p in PathsWith(init, f, key) {
        var i :| 0 <= i < |init| && init[i].meta.path == p && KeyOf(init[i].meta, f) == key;
        assert rs[i] == init[i];
      }
      if exists i :: 0 <= i < |rs| && rs[i].meta.path == p && KeyOf(rs[i].meta, f) == key {
        var i :| 0 <= i < |rs| && rs[i].meta.path == p && KeyOf(rs[i].meta, f) == key;
        if i < |init| {
          assert init[i] == rs[i];
        }
      }
    }
  }

  /** When the records come in ascending path order, so does every list of
      paths. */
  lemma {:induction false} PathsWithAscending(rs: seq<PageResult>, f: Field, key: string)
    requires Ascending(PathsOf(rs))
    ensures Ascending(PathsWith(rs, f, key))
  {
    if rs != [] {
      var n := |rs| - 1;
      var init := rs[..n];
      assert PathsOf(init) == PathsOf(rs)[..n];
      PathsWithAscending(init, f, key);
      var before := PathsWith(init, f, key);
      forall j | 0 <= j < |before| ensures Less(before[j], rs[n].meta.path) {
        PathsWithMembers(init, f, key, before[j]);
        var i :| 0 <= i < |init| && init[i].meta.path == before[j] && KeyOf(init[i].meta, f) == key;
        assert PathsOf(rs)[i] == before[j];
      }
    }
  }

  /** One key of the index: present exactly when it is non-empty and some
      record has it, with the paths of those records. */
  lemma {:induction false} IndexByKey(rs: seq<PageResult>, f: Field, key: string)
    ensures key in IndexBy(rs, f).groups <==> key != "" && PathsWith(rs, f, key) != []
    ensures key in IndexBy(rs, f).groups ==> IndexBy(rs, f).groups[key] == PathsWith(rs, f, key)
  {
    if rs != [] {
      IndexByKey(rs[..|rs| - 1], f, key);
    }
  }

  /** The index holds exactly the non-empty values of field `f`, each with the
      paths of the records that have it, in record order. */
  lemma IndexByGroups(rs: seq<PageResult>, f: Field)
    ensures "" !in IndexBy(rs, f).groups
    ensures forall key :: key in IndexBy(rs, f).groups <==> key != "" && PathsWith(rs, f, key) != []
    ensures forall key :: key in IndexBy(rs, f).groups ==> IndexBy(rs, f).groups[key] == PathsWith(rs, f, key)
  {
    forall key {
      IndexByKey(rs, f, key);
    }
  }

  /** Insertion order: indexing more records only adds keys at the end. */
  lemma {:induction false} IndexByOrderGrows(a: seq<PageResult>, b: seq<PageResult>, f: Field)
    ensures |IndexBy(a, f).order| <= |IndexBy(a + b, f).order|
    ensures IndexBy(a, f).order == IndexBy(a + b, f).order[..|IndexBy(a, f).order|]
  {
    if b == [] {
      assert a + b == a;
    } else {
      var b' := b[..|b| - 1];
      assert (a + b)[..|a + b| - 1] == a + b';
      IndexByOrderGrows(a, b', f);
    }
  }

  /** With distinct paths, a path sits in at most one group of an index. */
  lemma OneGroupPerPath(rs: seq<PageResult>, f: Field, p: string, k1: string, k2: string)
    requires Ascending(PathsOf(rs))
    requires k1 in IndexBy(rs, f).groups && p in IndexBy(rs, f).groups[k1]
    requires k2 in IndexBy(rs, f).groups && p in IndexBy(rs, f).groups[k2]
    ensures k1 == k2
  {
    IndexByGroups(rs, f);
    PathsWithMembers(rs, f, k1, p);
    PathsWithMembers(rs, f, k2, p);
    var i1 :| 0 <= i1 < |rs| && rs[i1].meta.path == p && KeyOf(rs[i1].meta, f) == k1;
    var i2 :| 0 <= i2 < |rs| && rs[i2].meta.path == p && KeyOf(rs[i2].meta, f) == k2;
    if i1 != i2 {
      LessIrreflexive(p);
    }
  }

  // ----------------------------------------------------------- the aggregate

  /** The corpus state as the records so far determine it: the records in
      ascending path order, each counting its own blocks, the two indices over
      them and the paths of those without a canonical link. */
  ghost predicate Determined(rs: seq<PageResult>, titles: GroupIndex, descriptions: GroupIndex, noCanonical: seq<string>)
  {
    && Ascending(PathsOf(rs))
    && (forall k :: 0 <= k < |rs| ==> rs[k].meta.jsonLdCount == |rs[k].jsonLdBlocks|)
    && titles == IndexBy(rs, TitleField)
    && descriptions == IndexBy(rs, DescriptionField)
    && noCanonical == PathsWith(rs, CanonicalField, "")
  }

  /** The updates of seo_audit.py:172-178 keep the state determined by the
      records. */
  lemma DeterminedExtend(rs: seq<PageResult>, r: PageResult, titles: GroupIndex, descriptions: GroupIndex, noCanonical: seq<string>)
    requires Determined(rs, titles, descriptions, noCanonical)
    requires forall k :: 0 <= k < |rs| ==> Less(rs[k].meta.path, r.meta.path)
    requires r.meta.jsonLdCount == |r.jsonLdBlocks|
    ensures Determined(rs + [r],
      if r.meta.title != "" then Append(titles, r.meta.title, r.meta.path) else titles,
      if r.meta.metaDescription != "" then Append(descriptions, r.meta.metaDescription, r.meta.path) else descriptions,
      if r.meta.canonical == "" then noCanonical + [r.meta.path] else noCanonical)
  {
    var rs' := rs + [r];
    assert rs'[..|rs'| - 1] == rs;
    assert PathsOf(rs') == PathsOf(rs) + [r.meta.path];
  }

  /** The corpus state of `main`: `results`, `title_map`, `desc_map` and
      `no_canonical`. */
  class Audit {
    var results: seq<PageResult>
    var titleMap: GroupIndex
    var descMap: GroupIndex
    var noCanonical: seq<string>

    ghost predicate Valid()
      reads this
    {
      Determined(results, titleMap, descMap, noCanonical)
    }

    constructor ()
      ensures Valid() && results == []
    {
      results := [];
      titleMap := GroupIndex([], map[]);
      descMap := GroupIndex([], map[]);
      noCanonical := [];
    }

    /** The tags of a page's blocks (the loop at seo_audit.py:160-168). */
    static method BlockTags(blocks: seq<Block>) returns (tags: seq<Json>)
      ensures tags == Tags(blocks)
    {
      tags := [];
      for i := 0 to |blocks|
        invariant tags == Tags(blocks[..i])
      {
        tags := tags + [TypeTag(blocks[i].json)];
      }
      assert blocks[..|blocks|] == blocks;
    }

    /** Reads, decodes and extracts one page and works out its row
        (seo_audit.py:140-170), without touching the corpus state. */
    static method Examine(path: string, env: Env) returns (outcome: Processed)
      ensures outcome == Process(path, env)
      ensures outcome.Added? ==> outcome.result.meta.path == path
      ensures outcome.Added? ==> outcome.result.meta.jsonLdCount == |outcome.result.jsonLdBlocks|
    {
      var content := env.read(path);
      if content.None? {
        return Skipped;
      }
      var text := Decode(content.value, env.codecs).text;
      var data := ExtractMeta(env.soup(text), env.parse);
      assert data == PageMetaOf(content.value, env);
      var tags := BlockTags(data.jsonLdBlocks);
      var summaries := Summaries(tags);
      if summaries.None? {
        outcome := Aborted;
      } else {
        outcome := Added(PageResult(RowOf(path, data, summaries.value), data.jsonLdBlocks));
      }
      assert outcome == ProcessMeta(path, data);
    }

    /** Appends a page's record and files it in the indices
        (seo_audit.py:171-178). */
    method Record(r: PageResult)
      requires Valid()
      requires forall k :: 0 <= k < |results| ==> Less(results[k].meta.path, r.meta.path)
      requires r.meta.jsonLdCount == |r.jsonLdBlocks|
      modifies this
      ensures Valid()
      ensures results == old(results) + [r]
    {
      ghost var titles' := if r.meta.title != "" then Append(titleMap, r.meta.title, r.meta.path) else titleMap;
      ghost var descriptions' := if r.meta.metaDescription != "" then Append(descMap, r.meta.metaDescription, r.meta.path) else descMap;
      ghost var noCanonical' := if r.meta.canonical == "" then noCanonical + [r.meta.path] else noCanonical;
      DeterminedExtend(results, r, titleMap, descMap, noCanonical);
      results := results + [r];
      if r.meta.title != "" {
        titleMap := Append(titleMap, r.meta.title, r.meta.path);
      }
      if r.meta.metaDescription != "" {
        descMap := Append(descMap, r.meta.metaDescription, r.meta.path);
      }
      if r.meta.canonical == "" {
        noCanonical := noCanonical + [r.meta.path];
      }
      assert titleMap == titles' && descMap == descriptions' && noCanonical == noCanonical';
    }

    /** One turn of the loop: a path that cannot be read changes nothing; a
        page whose summaries cannot be joined changes nothing and stops the
        scan; any other page adds its record and updates the indices. */
    method Add(path: string, env: Env) returns (outcome: Processed)
      requires Valid()
      requires forall k :: 0 <= k < |results| ==> Less(results[k].meta.path, path)
      modifies this
      ensures Valid()
      ensures outcome == Process(path, env)
      ensures outcome.Added? ==> outcome.result.meta.path == path
      ensures results == old(results) + (if outcome.Added? then [outcome.result] else [])
      ensures !outcome.Added? ==> titleMap == old(titleMap) && descMap == old(descMap) && noCanonical == old(noCanonical)
    {
      outcome := Examine(path, env);
      if outcome.Added? {
        Record(outcome.result);
      }
    }
  }

  // ----------------------------------------------------------------- the scan

  /** The records of a scan and whether it ran to the end. */
  datatype ScanOutcome = ScanOutcome(results: seq<PageResult>, completed: bool)

  /** The outcomes of a run of pages: skipped pages are passed over, and the
      first abort ends the run. */
  function Collect(outs: seq<Processed>): ScanOutcome
  {
    if outs == [] then ScanOutcome([], true)
    else match outs[0]
      case Skipped => Collect(outs[1..])
      case Aborted => ScanOutcome([], false)
      case Added(r) =>
        var rest := Collect(outs[1..]);
        ScanOutcome([r] + rest.results, rest.completed)
  }

  /** The outcome of every path, one step at a time. */
  function Outcomes(ps: seq<string>, step: string -> Processed): (outs: seq<Processed>)
    ensures |outs| == |ps|
  {
    seq(|ps|, k requires 0 <= k < |ps| => step(ps[k]))
  }

  /** The loop body as a function of the path. */
  function StepOf(env: Env): string -> Processed
  {
    p => Process(p, env)
  }

  /** The loop over the sorted paths. */
  function RunScan(ps: seq<string>, env: Env): ScanOutcome
  {
    Collect(Outcomes(ps, StepOf(env)))
  }

  /** Running `a + b` is running `a`, then, if `a` did not abort, `b`. */
  lemma {:induction false} CollectConcat(a: seq<Processed>, b: seq<Processed>)
    ensures Collect(a + b) ==
      if Collect(a).completed
      then ScanOutcome(Collect(a).results + Collect(b).results, Collect(b).completed)
      else Collect(a)
  {
    if a == [] {
      assert a + b == b;
    } else {
      assert (a + b)[0] == a[0] && (a + b)[1..] == a[1..] + b;
      CollectConcat(a[1..], b);
    }
  }

  lemma OutcomesConcat(a: seq<string>, b: seq<string>, step: string -> Processed)
    ensures Outcomes(a + b, step) == Outcomes(a, step) + Outcomes(b, step)
  {
    var l := Outcomes(a + b, step);
    var r := Outcomes(a, step) + Outcomes(b, step);
    forall k | 0 <= k < |l| ensures l[k] == r[k] {
      if k < |a| {
        assert (a + b)[k] == a[k];
      } else {
        assert (a + b)[k] == b[k - |a|];
      }
    }
  }

  /** Scanning `a + b` is scanning `a`, then, if `a` did not abort, `b`. */
  lemma RunScanConcat(a: seq<string>, b: seq<string>, env: Env)
    ensures RunScan(a + b, env) ==
      if RunScan(a, env).completed
      then ScanOutcome(RunScan(a, env).results + RunScan(b, env).results, RunScan(b, env).completed)
      else RunScan(a, env)
  {
    OutcomesConcat(a, b, StepOf(env));
    CollectConcat(Outcomes(a, StepOf(env)), Outcomes(b, StepOf(env)));
  }

  /** A skipped outcome contributes nothing. */
  lemma CollectSkip(x: seq<Processed>, y: seq<Processed>)
    ensures Collect(x + [Skipped] + y) == Collect(x + y)
  {
    CollectConcat(x, [Skipped] + y);
    CollectConcat(x, y);
    assert ([Skipped] + y)[1..] == y;
    assert x + [Skipped] + y == x + ([Skipped] + y);
  }

  /** An aborted outcome ends the run with the records before it. */
  lemma CollectAbort(x: seq<Processed>, y: seq<Processed>)
    ensures Collect(x + [Aborted] + y) == ScanOutcome(Collect(x).results, false)
  {
    CollectConcat(x, [Aborted] + y);
    assert x + [Aborted] + y == x + ([Aborted] + y);
    assert Collect(x).results + [] == Collect(x).results;
  }

  lemma OutcomesSplit(a: seq<string>, p: string, b: seq<string>, step: string -> Processed)
    ensures Outcomes(a + [p] + b, step) == Outcomes(a, step) + [step(p)] + Outcomes(b, step)
  {
    OutcomesConcat(a + [p], b, step);
    OutcomesConcat(a, [p], step);
    assert Outcomes([p], step) == [step(p)];
  }

  /** A path that cannot be read contributes nothing, and the scan goes on. */
  lemma SkippedPathChangesNothing(a: seq<string>, p: string, b: seq<string>, env: Env)
    requires env.read(p).None?
    ensures RunScan(a + [p] + b, env) == RunScan(a + b, env)
  {
    var step := StepOf(env);
    OutcomesSplit(a, p, b, step);
    OutcomesConcat(a, b, step);
    assert step(p) == Skipped;
    CollectSkip(Outcomes(a, step), Outcomes(b, step));
  }

  /** A page whose summaries cannot be joined ends the scan: no later path is
      processed, and the records are those of the paths before it. */
  lemma AbortEndsScan(a: seq<string>, p: string, b: seq<string>, env: Env)
    requires Process(p, env).Aborted?
    ensures RunScan(a + [p] + b, env) == ScanOutcome(RunScan(a, env).results, false)
  {
    var step := StepOf(env);
    OutcomesSplit(a, p, b, step);
    assert step(p) == Aborted;
    CollectAbort(Outcomes(a, step), Outcomes(b, step));
  }

  lemma CollectOne(o: Processed)
    ensures Collect([o]) == match o
      case Skipped => ScanOutcome([], true)
      case Aborted => ScanOutcome([], false)
      case Added(r) => ScanOutcome([r], true)
  {
    assert [o][1..] == [];
    if o.Added? {
      assert [o.result] + [] == [o.result];
    }
  }

  /** Running one more outcome after `outs`. */
  lemma CollectSnoc(outs: seq<Processed>, o: Processed)
    requires Collect(outs).completed
    ensures Collect(outs + [o]) == match o
      case Skipped => Collect(outs)
      case Aborted => ScanOutcome(Collect(outs).results, false)
      case Added(r) => ScanOutcome(Collect(outs).results + [r], true)
  {
    CollectConcat(outs, [o]);
    CollectOne(o);
    assert Collect(outs).results + [] == Collect(outs).results;
  }

  /** The outcomes of the first paths, followed by those of the rest. */
  lemma OutcomesPrefix(ps: seq<string>, outs: seq<Processed>, step: string -> Processed)
    requires |outs| <= |ps|
    requires forall k :: 0 <= k < |outs| ==> outs[k] == step(ps[k])
    ensures Outcomes(ps, step) == outs + Outcomes(ps[|outs|..], step)
  {
    assert ps == ps[..|outs|] + ps[|outs|..];
    OutcomesConcat(ps[..|outs|], ps[|outs|..], step);
    assert Outcomes(ps[..|outs|], step) == outs;
  }

  /** The ghost list of outcomes grows by the outcome of the next path. */
  lemma OutcomesGrow(ps: seq<string>, outs: seq<Processed>, o: Processed, step: string -> Processed)
    requires |outs| < |ps|
    requires forall k :: 0 <= k < |outs| ==> outs[k] == step(ps[k])
    requires o == step(ps[|outs|])
    ensures forall k :: 0 <= k < |outs + [o]| ==> (outs + [o])[k] == step(ps[k])
  {
  }

  /** Every path already visited precedes the next one. */
  lemma VisitedBefore(sorted: seq<string>, i: nat, rs: seq<PageResult>)
    requires i < |sorted| && Ascending(sorted)
    requires forall k :: 0 <= k < |rs| ==> rs[k].meta.path in sorted[..i]
    ensures forall k :: 0 <= k < |rs| ==> Less(rs[k].meta.path, sorted[i])
  {
    forall k | 0 <= k < |rs| ensures Less(rs[k].meta.path, sorted[i]) {
      var j :| 0 <= j < i && sorted[j] == rs[k].meta.path;
    }
  }

  /** After the visit of the `i`-th path, every record is for one of the first
      `i + 1` paths. */
  lemma VisitedAfter(sorted: seq<string>, i: nat, before: seq<PageResult>, after: seq<PageResult>, o: Processed)
    requires i < |sorted|
    requires forall k :: 0 <= k < |before| ==> before[k].meta.path in sorted[..i]
    requires o.Added? ==> o.result.meta.path == sorted[i]
    requires after == before + (if o.Added? then [o.result] else [])
    ensures forall k :: 0 <= k < |after| ==> after[k].meta.path in sorted[..i + 1]
  {
    assert sorted[..i + 1] == sorted[..i] + [sorted[i]];
  }

  /** The body of `main`'s loop for the `i`-th sorted path. */
  method Visit(audit: Audit, sorted: seq<string>, i: nat, env: Env) returns (outcome: Processed)
    requires i < |sorted| && Ascending(sorted)
    requires audit.Valid()
    requires forall k :: 0 <= k < |audit.results| ==> audit.results[k].meta.path in sorted[..i]
    modifies audit
    ensures audit.Valid()
    ensures outcome == StepOf(env)(sorted[i])
    ensures audit.results == old(audit.results) + (if outcome.Added? then [outcome.result] else [])
    ensures forall k :: 0 <= k < |audit.results| ==> audit.results[k].meta.path in sorted[..i + 1]
  {
    VisitedBefore(sorted, i, audit.results);
    ghost var before := audit.results;
    outcome := audit.Add(sorted[i], env);
    VisitedAfter(sorted, i, before, audit.results, outcome);
  }

  /** `main`'s loop from `sorted(pages)` on. The paths come from the
      directory walk, which never yields one twice. */
  method Scan(pages: seq<string>, env: Env) returns (audit: Audit, completed: bool)
    requires Distinct(pages)
    ensures audit.Valid()
    ensures ScanOutcome(audit.results, completed) == RunScan(SortPaths(pages), env)
  {
    var sorted := SortPaths(pages);
    audit := new Audit();
    completed := true;
    ghost var step := StepOf(env);
    ghost var outs: seq<Processed> := [];
    var i := 0;
    while i < |sorted|
      invariant 0 <= i <= |sorted| && |outs| == i
      invariant forall k :: 0 <= k < i ==> outs[k] == step(sorted[k])
      invariant audit.Valid()
      invariant forall k :: 0 <= k < |audit.results| ==> audit.results[k].meta.path in sorted[..i]
      invariant Collect(outs) == ScanOutcome(audit.results, true)
    {
      var outcome := Visit(audit, sorted, i, env);
      CollectSnoc(outs, outcome);
      OutcomesGrow(sorted, outs, outcome, step);
      outs := outs + [outcome];
      if outcome.Aborted? {
        completed := false;
        break;
      }
      i := i + 1;
    }
    OutcomesPrefix(sorted, outs, step);
    CollectConcat(outs, Outcomes(sorted[|outs|..], step));
    if completed {
      assert sorted[|outs|..] == [];
      assert outs + [] == outs;
    }
  }
}
