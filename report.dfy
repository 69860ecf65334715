/** What `main` derives from the corpus state once the scan is over: the
    duplicate titles and descriptions (seo_audit.py:180-186) and the summary
    figures with the ten most duplicated titles (seo_audit.py:211-213). */
module Report {
  import opened Text
  import opened PathOrder
  import opened Aggregator

  /** The keys of `order` whose group holds more than one path, in order. */
  function RepeatedKeys(order: seq<string>, groups: map<string, seq<string>>): (r: seq<string>)
    requires forall k :: k in order ==> k in groups
    ensures forall k :: k in r <==> k in order && |groups[k]| > 1
    ensures |r| <= |order|
  {
    if order == [] then []
    else
      var last := order[|order| - 1];
      RepeatedKeys(order[..|order| - 1], groups) + (if |groups[last]| > 1 then [last] else [])
  }

  /** Keeping some keys of a list without repeats keeps it free of repeats. */
  lemma {:induction false} RepeatedKeysDistinct(order: seq<string>, groups: map<string, seq<string>>)
    requires forall k :: k in order ==> k in groups
    requires Distinct(order)
    ensures Distinct(RepeatedKeys(order, groups))
  {
    if order != [] {
      var init := order[..|order| - 1];
      RepeatedKeysDistinct(init, groups);
      var last := order[|order| - 1];
    }
  }

  /** Any two keys of `r` occur in `order` in the same relative order. */
  ghost predicate InOrder(r: seq<string>, order: seq<string>) {
    forall i, j :: 0 <= i < j < |r| ==>
      exists a, b :: 0 <= a < b < |order| && order[a] == r[i] && order[b] == r[j]
  }

  /** The kept keys keep the insertion order of the dict they come from. */
  lemma {:induction false} RepeatedKeysInOrder(order: seq<string>, groups: map<string, seq<string>>)
    requires forall k :: k in order ==> k in groups
    ensures InOrder(RepeatedKeys(order, groups), order)
  {
    if order != [] {
      var init := order[..|order| - 1];
      RepeatedKeysInOrder(init, groups);
      var before := RepeatedKeys(init, groups);
      var r := RepeatedKeys(order, groups);
      forall i, j | 0 <= i < j < |r|
        ensures exists a, b :: 0 <= a < b < |order| && order[a] == r[i] && order[b] == r[j]
      {
        if j < |before| {
          var a, b :| 0 <= a < b < |init| && init[a] == before[i] && init[b] == before[j];
          assert order[a] == r[i] && order[b] == r[j];
        } else {
          assert before[i] in before;
          var a :| 0 <= a < |init| && init[a] == before[i];
          assert order[a] == r[i] && order[|order| - 1] == r[j];
        }
      }
    }
  }

  /** The groups of more than one path among the keys of `order`. */
  function RepeatedGroups(order: seq<string>, groups: map<string, seq<string>>): (m: map<string, seq<string>>)
    requires forall k :: k in order ==> k in groups
    ensures forall k :: k in m <==> k in order && |groups[k]| > 1
    ensures forall k :: k in m ==> m[k] == groups[k]
  {
    if order == [] then map[]
    else
      var last := order[|order| - 1];
      var m := RepeatedGroups(order[..|order| - 1], groups);
      if |groups[last]| > 1 then m[last := groups[last]] else m
  }

  /** Both filters advance by one key at a time. */
  lemma RepeatedStep(order: seq<string>, groups: map<string, seq<string>>, i: nat)
    requires i < |order|
    requires forall k :: k in order ==> k in groups
    ensures RepeatedKeys(order[..i + 1], groups)
      == RepeatedKeys(order[..i], groups) + (if |groups[order[i]]| > 1 then [order[i]] else [])
    ensures RepeatedGroups(order[..i + 1], groups)
      == if |groups[order[i]]| > 1 then RepeatedGroups(order[..i], groups)[order[i] := groups[order[i]]]
         else RepeatedGroups(order[..i], groups)
  {
    assert order[..i + 1][..i] == order[..i];
  }

  /** The groups of more than one path, in the index's key order. */
  function Duplicates(ix: GroupIndex): (dup: GroupIndex)
    requires WellFormed(ix)
    ensures WellFormed(dup)
    ensures forall k :: k in dup.groups <==> k in ix.groups && |ix.groups[k]| > 1
    ensures forall k :: k in dup.groups ==> dup.groups[k] == ix.groups[k]
    ensures InOrder(dup.order, ix.order)
  {
    RepeatedKeysDistinct(ix.order, ix.groups);
    RepeatedKeysInOrder(ix.order, ix.groups);
    GroupIndex(RepeatedKeys(ix.order, ix.groups), RepeatedGroups(ix.order, ix.groups))
  }

  /** The loop at seo_audit.py:181-183 (and 184-186) over the index in key
      order. */
  method FilterDuplicates(ix: GroupIndex) returns (dup: GroupIndex)
    requires WellFormed(ix)
    ensures dup == Duplicates(ix)
  {
    dup := GroupIndex([], map[]);
    var i := 0;
    while i < |ix.order|
      invariant 0 <= i <= |ix.order|
      invariant dup == GroupIndex(RepeatedKeys(ix.order[..i], ix.groups), RepeatedGroups(ix.order[..i], ix.groups))
    {
      var key := ix.order[i];
      var paths := ix.groups[key];
      RepeatedStep(ix.order, ix.groups, i);
      if |paths| > 1 {
        dup := GroupIndex(dup.order + [key], dup.groups[key := paths]);
      }
      i := i + 1;
    }
    assert ix.order[..|ix.order|] == ix.order;
  }

  /** A title is a reported duplicate exactly when it is non-empty and at
      least two scanned pages carry it; its entry lists those pages in
      scan order. */
  lemma DuplicateTitles(rs: seq<PageResult>, key: string)
    ensures key in Duplicates(IndexBy(rs, TitleField)).groups <==>
      key != "" && |PathsWith(rs, TitleField, key)| > 1
    ensures key in Duplicates(IndexBy(rs, TitleField)).groups ==>
      Duplicates(IndexBy(rs, TitleField)).groups[key] == PathsWith(rs, TitleField, key)
  {
    IndexByGroups(rs, TitleField);
  }

  // -------------------------------------------------------- the top titles

  /** One `(title, paths)` item of the duplicates dict. */
  datatype Entry = Entry(key: string, paths: seq<string>)

  /** `duplicates['titles'].items()`, in key order. */
  function Entries(ix: GroupIndex): (es: seq<Entry>)
    requires forall k :: k in ix.order ==> k in ix.groups
    ensures |es| == |ix.order|
  {
    seq(|ix.order|, i requires 0 <= i < |ix.order| => Entry(ix.order[i], ix.groups[ix.order[i]]))
  }

  ghost predicate NonIncreasing(s: seq<Entry>) {
    forall i, j :: 0 <= i < j < |s| ==> |s[i].paths| >= |s[j].paths|
  }

  /** Puts `e` before the first entry that is not larger than it. */
  function InsertBySize(e: Entry, s: seq<Entry>): (r: seq<Entry>)
    ensures multiset(r) == multiset(s) + multiset{e}
    ensures |r| == |s| + 1
    ensures forall x :: x in r ==> x == e || x in s
  {
    if s == [] || |s[0].paths| <= |e.paths| then [e] + s
    else
      assert s == [s[0]] + s[1..];
      [s[0]] + InsertBySize(e, s[1..])
  }

  lemma {:induction false} InsertBySizeOrdered(e: Entry, s: seq<Entry>)
    requires NonIncreasing(s)
    ensures NonIncreasing(InsertBySize(e, s))
  {
    if s != [] && |s[0].paths| > |e.paths| {
      InsertBySizeOrdered(e, s[1..]);
      var rest := InsertBySize(e, s[1..]);
      forall j | 0 <= j < |rest| ensures |s[0].paths| >= |rest[j].paths| {
        assert rest[j] in rest;
        if rest[j] != e {
          var k :| 0 <= k < |s[1..]| && s[1..][k] == rest[j];
          assert s[k + 1] == rest[j];
        }
      }
    }
  }

  /** `sorted(items, key=lambda x: -len(x[1]))`: Python's sort is stable, so
      this is an insertion sort that puts each entry before the later ones of
      its size. */
  function SortBySize(s: seq<Entry>): (r: seq<Entry>)
    ensures multiset(r) == multiset(s)
    ensures |r| == |s|
    ensures NonIncreasing(r)
  {
    if s == [] then []
    else
      assert s == [s[0]] + s[1..];
      InsertBySizeOrdered(s[0], SortBySize(s[1..]));
      InsertBySize(s[0], SortBySize(s[1..]))
  }

  /** The entries of `s` with exactly `n` paths, in order. */
  function OfSize(s: seq<Entry>, n: nat): seq<Entry>
  {
    if s == [] then []
    else (if |s[0].paths| == n then [s[0]] else []) + OfSize(s[1..], n)
  }

  lemma {:induction false} InsertOfSize(e: Entry, s: seq<Entry>, n: nat)
    ensures OfSize(InsertBySize(e, s), n) == (if |e.paths| == n then [e] else []) + OfSize(s, n)
  {
    if s == [] || |s[0].paths| <= |e.paths| {
      assert ([e] + s)[1..] == s;
    } else {
      InsertOfSize(e, s[1..], n);
      assert ([s[0]] + InsertBySize(e, s[1..]))[1..] == InsertBySize(e, s[1..]);
    }
  }

  /** Stability: among the entries of one size, the sort keeps their order. */
  lemma {:induction false} SortBySizeStable(s: seq<Entry>, n: nat)
    ensures OfSize(SortBySize(s), n) == OfSize(s, n)
  {
    if s != [] {
      SortBySizeStable(s[1..], n);
      InsertOfSize(s[0], SortBySize(s[1..]), n);
    }
  }

  /** `[:10]` of the sorted items. */
  function TopTitles(dup: GroupIndex): (top: seq<Entry>)
    requires forall k :: k in dup.order ==> k in dup.groups
    ensures |top| == if |dup.order| < 10 then |dup.order| else 10
    ensures NonIncreasing(top)
  {
    var r := SortBySize(Entries(dup));
    r[..if |r| < 10 then |r| else 10]
  }

  /** Every top title is a group of the duplicates, with its paths. */
  lemma TopTitlesFromDuplicates(dup: GroupIndex)
    requires WellFormed(dup)
    ensures forall e :: e in TopTitles(dup) ==> e.key in dup.groups && e.paths == dup.groups[e.key]
  {
    var es := Entries(dup);
    var r := SortBySize(es);
    var top := TopTitles(dup);
    forall e | e in top ensures e.key in dup.groups && e.paths == dup.groups[e.key] {
      assert e in r;
      assert e in multiset(es);
      var i :| 0 <= i < |es| && es[i] == e;
    }
  }

  /** No group left out of the top titles is larger than one kept. */
  lemma TopTitlesLargest(dup: GroupIndex)
    requires WellFormed(dup)
    ensures forall e, j :: e in Entries(dup) && e !in TopTitles(dup) && 0 <= j < |TopTitles(dup)| ==>
      |TopTitles(dup)[j].paths| >= |e.paths|
  {
    var es := Entries(dup);
    var r := SortBySize(es);
    var top := TopTitles(dup);
    forall e, j | e in es && e !in top && 0 <= j < |top| ensures |top[j].paths| >= |e.paths| {
      assert e in multiset(r);
      var i :| 0 <= i < |r| && r[i] == e;
      assert top[j] == r[j];
    }
  }

  lemma {:induction false} OfSizeConcat(a: seq<Entry>, b: seq<Entry>, n: nat)
    ensures OfSize(a + b, n) == OfSize(a, n) + OfSize(b, n)
  {
    if a != [] {
      assert (a + b)[1..] == a[1..] + b;
      OfSizeConcat(a[1..], b, n);
    } else {
      assert a + b == b;
    }
  }

  /** Top titles of the same size keep the order of the index: they are the
      first ones of that size. */
  lemma TopTitlesStable(dup: GroupIndex, n: nat)
    requires WellFormed(dup)
    ensures OfSize(TopTitles(dup), n) <= OfSize(Entries(dup), n)
  {
    var es := Entries(dup);
    var r := SortBySize(es);
    var top := TopTitles(dup);
    assert r == top + r[|top|..];
    OfSizeConcat(top, r[|top|..], n);
    SortBySizeStable(es, n);
  }

  // ------------------------------------------------------------ the summary

  /** `sum(r['meta']['json_ld_count'] for r in results)`. */
  function JsonLdTotal(rs: seq<PageResult>): nat
  {
    if rs == [] then 0 else JsonLdTotal(rs[..|rs| - 1]) + rs[|rs| - 1].meta.jsonLdCount
  }

  /** Every block of every record, in record order. */
  function AllBlocks(rs: seq<PageResult>): seq<Extractor.Block>
  {
    if rs == [] then [] else AllBlocks(rs[..|rs| - 1]) + rs[|rs| - 1].jsonLdBlocks
  }

  /** The total is the number of blocks found on all the scanned pages. */
  lemma {:induction false} JsonLdTotalCountsBlocks(rs: seq<PageResult>)
    requires forall k :: 0 <= k < |rs| ==> rs[k].meta.jsonLdCount == |rs[k].jsonLdBlocks|
    ensures JsonLdTotal(rs) == |AllBlocks(rs)|
  {
    if rs != [] {
      JsonLdTotalCountsBlocks(rs[..|rs| - 1]);
    }
  }

  /** The figures printed at seo_audit.py:215-221. */
  datatype Summary = Summary(total: nat, withoutCanonical: nat, jsonLdTotal: nat, topTitles: seq<Entry>)

  /** The duplicates dict and the summary figures of a finished scan; only
      `Run` calls it, once the scan has completed. */
  method Summarize(audit: Audit) returns (titles: GroupIndex, descriptions: GroupIndex, summary: Summary)
    requires audit.Valid()
    ensures titles == Duplicates(IndexBy(audit.results, TitleField))
    ensures descriptions == Duplicates(IndexBy(audit.results, DescriptionField))
    ensures summary.total == |audit.results|
    ensures summary.withoutCanonical == |PathsWith(audit.results, CanonicalField, "")|
    ensures summary.jsonLdTotal == |AllBlocks(audit.results)|
    ensures summary.topTitles == TopTitles(titles)
  {
    titles := FilterDuplicates(audit.titleMap);
    descriptions := FilterDuplicates(audit.descMap);
    JsonLdTotalCountsBlocks(audit.results);
    summary := Summary(|audit.results|, |audit.noCanonical|, JsonLdTotal(audit.results), TopTitles(titles));
  }

  /** What `main` reports after the scan: both duplicates dicts and the
      summary figures. */
  datatype Findings = Findings(titles: GroupIndex, descriptions: GroupIndex, summary: Summary)

  /** `main` from the walk's page list on (seo_audit.py:139-213). A TypeError
      at seo_audit.py:170 leaves `main`, so an aborted scan reports nothing;
      a completed one reports the duplicates and the figures of its records. */
  method Run(pages: seq<string>, env: Env) returns (findings: Option<Findings>)
    requires Distinct(pages)
    ensures findings.Some? <==> RunScan(SortPaths(pages), env).completed
    ensures findings.Some? ==>
      var rs := RunScan(SortPaths(pages), env).results;
      && findings.value.titles == Duplicates(IndexBy(rs, TitleField))
      && findings.value.descriptions == Duplicates(IndexBy(rs, DescriptionField))
      && findings.value.summary.total == |rs|
      && findings.value.summary.withoutCanonical == |PathsWith(rs, CanonicalField, "")|
      && findings.value.summary.jsonLdTotal == |AllBlocks(rs)|
      && findings.value.summary.topTitles == TopTitles(findings.value.titles)
  {
    var audit, completed := Scan(pages, env);
    if !completed {
      return None;
    }
    var titles, descriptions, summary := Summarize(audit);
    findings := Some(Findings(titles, descriptions, summary));
  }
}
