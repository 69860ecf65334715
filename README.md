# SEO metadata audit — a Dafny model

`seo_audit.py` walks a tree of static HTML pages and reads each page's SEO and
AI-discoverability metadata. It reads the title, the description and keywords,
the `ai-summary` meta tag, the canonical link, the hreflang alternates, the
Open Graph and Twitter fields, and the JSON-LD structured-data blocks. It then
builds corpus-wide indices of titles, descriptions and pages without a
canonical link, reports duplicated titles and descriptions, and prints a short
summary.

This project models the core of that script in Dafny and proves properties of
the model:

| file | module | what it models |
|---|---|---|
| `text.dfy` | `Text` | Python's `str.strip`, `sep.join`, `str.split`, `str.replace`, `str.lower`, `startswith`/`endswith` and the `in` substring test |
| `decoder.dfy` | `Decoder` | `read_file_with_encoding_detection`: strict UTF-8, then the detected encoding with replacement, then UTF-8 with replacement |
| `jsonld.dfy` | `JsonLd` | the values `json.loads` returns, the type tag of a JSON-LD block and the `;`-joined summaries string |
| `extractor.dfy` | `Extractor` | `extract_meta_from_html` over a parsed page: the title, the `meta_content` lookups, the description fallback, the canonical link, the hreflang loop and the JSON-LD loop |
| `selection.dfy` | `Selection` | the page-file and skipped-directory tests of the directory walk and the reading of `--formats` |
| `ordering.dfy` | `PathOrder` | Python's ordering of strings and `sorted(pages)` |
| `aggregator.dfy` | `Aggregator` | the loop of `main` over the sorted paths, modelled as the class `Audit` with the fields `results`, `titleMap`, `descMap` and `noCanonical`, and the whole scan as the method `Scan` |
| `report.dfy` | `Report` | the duplicate filter, the stable top-10 of duplicated titles, the summary figures, and `Run`, which reports them only for a completed scan |

Foreign code is passed in as function-valued parameters:
- `Codecs` holds the three `bytes.decode` calls and `chardet.detect`.
- `Env` holds the file read, the HTML parser and `json.loads`.
- A call that raises is one that returns `None`.

The parsed page is a `Document`: its elements in document order, each with
its tag name, its attributes, its `.string` and the texts of its children.
Python dicts keep insertion order, so each of `title_map` and `desc_map` is a
`GroupIndex`: a `map` together with the sequence of its keys in insertion
order. The duplicates output and the tie-break of the top-10 depend on that
order.

Each loop of the source is a method with loop invariants, proved against a
function that specifies it. The loops are:
- `Extractor.CollectAlternates` and `Extractor.CollectBlocks`;
- `Aggregator.Audit.BlockTags`;
- `Aggregator.Scan`;
- `Report.FilterDuplicates`.

The state of the scan satisfies `Audit.Valid()`: `results` is in strictly
ascending path order, and the two indices and `noCanonical` are exactly the
functions `IndexBy` and `PathsWith` of `results`. The lemmas next to those
functions state what the indices hold.

Where the code and the written description of the tool disagree, the model
follows the code:
- **JSON-LD type tag.** A truthy `@type` takes priority over a list-valued
  `@graph` (seo_audit.py:163). The tag is the `@type` value itself, whatever
  its JSON type.
- **Whitespace-only script.** The emptiness test on a JSON-LD script happens
  before `strip()` (seo_audit.py:85-87). A script holding only whitespace is
  therefore kept, as a block whose raw text is empty (`WhitespaceScriptKept`).
- **Non-empty hreflang attributes.** An hreflang link needs non-empty
  `hreflang` and `href` values, not merely present ones (seo_audit.py:72).
- **A scan can abort.** Suppose a block's `@type` is truthy but not a string,
  for example a list of types, as JSON-LD allows. Then
  `';'.join(rec['json_ld_summaries'])` (seo_audit.py:170) raises `TypeError`.
  This happens outside the per-page `try`, so the exception leaves `main`:
  the loop stops, and nothing after it runs. No duplicates, no report file
  and no summary are produced. The model has an outcome `Aborted`, `Scan`
  returns `completed == false` (`ListTypeBreaksSummaries`, `AbortEndsScan`),
  and `Report.Run` then returns no findings.
- **Directory exclusion.** A directory is excluded by substring and prefix
  tests on its whole path, not by its name. Any directory whose path contains
  `/.git`, such as `.github`, is excluded too (`GithubSkipped`).
- **Title.** The title is the stripped `.string` of the first `title`
  element. It is empty when that element has several children, because
  `.string` is then `None`.

## Model

| member | source | states |
|---|---|---|
| Text.IsSpace | seo_audit.py:51 | defines the characters Python's `str.isspace()` accepts, which `strip()` removes at seo_audit.py:51, 57, 61, 68, 87 and 123; `Strip` and `StripAllSpace` state how they are removed |
| Text.Strip | seo_audit.py:51 | the result has no whitespace at either end and is the slice of the input left once whitespace runs at both ends are cut off |
| Text.StripIdempotent | seo_audit.py:87 | stripping twice is stripping once |
| Text.StripAllSpace | seo_audit.py:85-87 | a string made only of whitespace strips to '' |
| Text.SplitOn | seo_audit.py:123 | `split` on one character gives at least one piece, and no piece holds the separator |
| Text.JoinSplit | seo_audit.py:123 | joining the pieces of a split with the separator gives the string back; with `SplitOn`'s ensures this pins down the pieces |
| Text.SplitJoin | seo_audit.py:170 | splitting a `c`-join of at least one part, where no part holds `c`, gives the parts back |
| Text.Join | seo_audit.py:152 | defines `sep.join`; `Text.SplitJoin` is its inverse and `Extractor.FlattenEmpty` and `JsonLd.SummariesSplit` use it on the two joins of the source |
| Text.StartsWith | seo_audit.py:127 | defines `str.startswith`: the string begins with the given prefix; `Selection.SkipsDirExactly` uses it for the '.git' prefix test |
| Text.EndsWith | seo_audit.py:130 | defines `str.endswith`: the string finishes with the given suffix; `Selection.PageFileByExtension` reads the '.html'/'.htm' test through it |
| Text.Contains | seo_audit.py:127 | defines Python's `t in s` on strings; `ContainsInfix` and `ContainsSplits` state it, and `Selection.SkipsDirExactly` reads it as a split `p + t + q` |
| Text.ContainsInfix | seo_audit.py:127 | a string of the form `p + t + q` contains `t` |
| Text.ContainsSplits | seo_audit.py:127 | a string that contains `t` splits as `p + t + q` |
| Text.ReplaceChar | seo_audit.py:94 | `replace` on single characters keeps the length and swaps exactly the occurrences of the character |
| Text.Lower | seo_audit.py:130 | lower-casing keeps the length and lower-cases each character on its own |
| Decoder.Label | seo_audit.py:34-35 | a missing or empty detected label becomes 'utf-8'; any other label is kept |
| Decoder.Chain | seo_audit.py:26-42 | defines the order of the steps: strict UTF-8, then the detected encoding when a detector exists, then UTF-8 with replacement; `Decode` and `DecodeUnique` state that the first step that does not raise decides |
| Decoder.Attempt | seo_audit.py:28-42 | defines what one step yields: the strict decode at line 28, the replacing decode with the detected label at line 37, and the replacing UTF-8 decode at line 42, which never raises; `StrictWins`, `DetectorRunsOnlyAfterStrictFails` and `ReplacingOnlyAfterAllFail` state when each is used |
| Decoder.Decode | seo_audit.py:22-42 | always yields a text, by running a non-empty prefix of the chain strict → detected → replacing; every step run but the last raised, and the last produced the text |
| Decoder.DecodeUnique | seo_audit.py:26-42 | that first-success rule fixes the result: any decoding obeying it is the one returned |
| Decoder.StrictWins | seo_audit.py:27-29 | when strict UTF-8 succeeds, its text is returned and no other step runs |
| Decoder.DetectorRunsOnlyAfterStrictFails | seo_audit.py:33-37 | the detected-encoding step runs only after strict UTF-8 failed and only when a detector exists, with the detector's label or 'utf-8' |
| Decoder.ReplacingOnlyAfterAllFail | seo_audit.py:41-42 | the final replace-decode runs only when every earlier step failed, and its text is returned |
| JsonLd.Truthy | seo_audit.py:163 | defines Python truthiness of a parsed value, as the `or` chain tests it: `null`, `false`, zero, '' and empty lists and objects are falsy; `TypeTag` ensures every tag is truthy and `TagIsString` uses it |
| JsonLd.TypeTag | seo_audit.py:161-167 | an object with a truthy `@type` gives that value; otherwise an object whose `@graph` is a list gives 'graph'; any other object gives 'object'; a list gives 'list'; anything else, a failed parse included, gives 'raw'; the tag is always truthy |
| JsonLd.TagIsString | seo_audit.py:163 | the tag is a string exactly unless the block is an object whose `@type` is truthy and not a string |
| JsonLd.TagNames | seo_audit.py:170 | the tags can be read as strings exactly when every tag is a string, and then position by position |
| JsonLd.Summaries | seo_audit.py:170 | the join succeeds exactly when every tag is a string |
| JsonLd.SummariesSplit | seo_audit.py:168-170 | when no tag holds ';', splitting the summaries string on ';' gives the tags back, in block order |
| JsonLd.ListTypeBreaksSummaries | seo_audit.py:163-170 | a block that is an object whose `@type` is a non-empty list makes the summaries join fail for its page, whatever the page's other tags are |
| Extractor.Selects | seo_audit.py:55-71 | defines when a `find`/`find_all` query matches an element: same tag name, and every queried attribute present with that exact value; `FindFirst` and `AlternatesMembers` state what it selects |
| Extractor.FindFirst | seo_audit.py:55 | `find` returns the first element the query selects, and nothing exactly when none is selected |
| Extractor.HasValue | seo_audit.py:56-60 | defines the truthy `tag.get(key)`: the attribute is present and not empty; `StrippedAttr`, `Canonical` and `AlternatesMembers` state its use |
| Extractor.StrippedAttr | seo_audit.py:56-57 | an attribute that is missing or empty gives ''; otherwise its stripped value; the result is trimmed |
| Extractor.MetaContent | seo_audit.py:53-62 | the result is trimmed; it is '' when no meta tag matches; otherwise it is the stripped `content` of the first matching tag, even when that is empty and a later tag has content |
| Extractor.Description | seo_audit.py:64 | the `description` lookup when it is non-empty, otherwise the `og:description` lookup; empty exactly when both are |
| Extractor.Canonical | seo_audit.py:67-68 | the stripped `href` of the first canonical link, or '' when there is none or it has no `href` |
| Extractor.Title | seo_audit.py:49-51 | '' without a title element or when the first one has no `.string`; otherwise the stripped `.string` of the first title element |
| Extractor.IsHreflangLink | seo_audit.py:71-72 | defines which elements give an hreflang entry: a `link` with `rel` 'alternate' whose `hreflang` and `href` are both non-empty; `AlternatesMembers` states it |
| Extractor.AlternateOf | seo_audit.py:73 | defines the entry such a link adds: its `hreflang` and `href`, unstripped; `AlternatesMembers` and `AlternatesKeepsEveryLink` state it |
| Extractor.AlternatesAppend | seo_audit.py:70-73 | the hreflang list of a concatenation of two documents is the concatenation of their lists, so document order is kept |
| Extractor.AlternatesMembers | seo_audit.py:71-73 | a pair is in the list exactly when some alternate link with non-empty `hreflang` and `href` yields it, unstripped |
| Extractor.AlternatesKeepsEveryLink | seo_audit.py:71-73 | repeated links are not merged: a page of n hreflang links yields n entries, position by position |
| Extractor.Alternates | seo_audit.py:70-73 | defines the hreflang list of a page; `AlternatesAppend`, `AlternatesMembers` and `AlternatesKeepsEveryLink` state its order and its members |
| Extractor.FlattenAlternates | seo_audit.py:152 | defines the `hreflangs` column: each language tag and href joined by a vertical bar, the pairs joined by ';'; `FlattenEmpty` and `FlattenRoundTrip` state its properties |
| Extractor.FlattenEmpty | seo_audit.py:152 | the flattened string is '' exactly when there are no links, whatever the tags and hrefs hold |
| Extractor.FlattenRoundTrip | seo_audit.py:152 | when no language tag holds a vertical bar or ';' and no href holds ';', the flattened string is '' exactly when there are no links and reads back as the list |
| Extractor.ScriptText | seo_audit.py:82-84 | a script's text is its non-empty `.string`, else the join of its children |
| Extractor.IsLdBlock | seo_audit.py:81-86 | defines which elements give a block: a script of type `application/ld+json` whose text is non-empty before stripping; `LdBlocksCount` and `WhitespaceScriptKept` state it |
| Extractor.BlockOf | seo_audit.py:87-97 | defines the block of such a script: its stripped text and the parse of that text; `ReadScript` states it |
| Extractor.LdBlocks | seo_audit.py:80-97 | defines the list of blocks of a page; `LdBlocksAppend` and `LdBlocksCount` state its order and length, and `CollectBlocks` is proved equal to it |
| Extractor.ParseBlock | seo_audit.py:88-96 | the first parse's value when it succeeds; otherwise the parse of the text with every newline turned into a space |
| Extractor.NoNewlineSingleAnswer | seo_audit.py:89-94 | for text without a newline the retry cannot change the answer |
| Extractor.LdBlocksAppend | seo_audit.py:80-97 | the blocks of a concatenation of two documents are the blocks of the first followed by those of the second |
| Extractor.LdBlocksCount | seo_audit.py:80-97 | there is exactly one block per JSON-LD script with non-empty text, unparseable ones included |
| Extractor.WhitespaceScriptKept | seo_audit.py:83-87 | a script whose text is only whitespace adds one block whose raw text is '' |
| Extractor.CollectAlternates | seo_audit.py:70-73 | the loop builds exactly the hreflang list |
| Extractor.ReadScript | seo_audit.py:82-97 | one script gives a block exactly when its text is non-empty, and then the block of its stripped text and parse |
| Extractor.CollectBlocks | seo_audit.py:80-97 | the loop builds exactly the list of blocks |
| Extractor.MetaOf | seo_audit.py:99-111 | defines the returned dict from the title, the lookups, the canonical link, the hreflang list and the blocks; `ExtractMeta` is proved equal to it |
| Extractor.ExtractMeta | seo_audit.py:44-111 | the record has the title, lookups, canonical link, hreflang list and blocks defined above |
| Selection.IsPageFile | seo_audit.py:130 | defines the page-file test on the lower-cased name; `PageFileByExtension` reads it as an extension test |
| Selection.LastDot | seo_audit.py:130 | the position of the last '.', and none exactly when the name has no '.' |
| Selection.PageFileByExtension | seo_audit.py:130 | a file is taken exactly when the text after its last '.' is 'html' or 'htm' in any ASCII case |
| Selection.SkipsDir | seo_audit.py:127 | defines the directory test; `SkipsDirExactly` and `GithubSkipped` state which paths it skips |
| Selection.SkipsDirExactly | seo_audit.py:127 | a directory is skipped exactly when its path starts with '.git' or contains '/.git' or '/node_modules' |
| Selection.GithubSkipped | seo_audit.py:127 | every directory whose path contains '/.github' is skipped as well |
| Selection.Formats | seo_audit.py:123 | every format is non-empty, trimmed, lower-case and free of ',' |
| Selection.FormatsOfJoin | seo_audit.py:123 | reading a comma-joined list of such names gives back exactly the set of those names |
| PathOrder.LessIrreflexive | seo_audit.py:139 | no path sorts before itself |
| PathOrder.LessTransitive | seo_audit.py:139 | the string order is transitive |
| PathOrder.LessTotal | seo_audit.py:139 | any two distinct strings are ordered one way or the other |
| PathOrder.LessAsymmetric | seo_audit.py:139 | no two strings each sort before the other |
| PathOrder.InsertPath | seo_audit.py:139 | inserting adds exactly the one path |
| PathOrder.InsertPathAscending | seo_audit.py:139 | inserting a new path into an ascending list keeps it ascending |
| PathOrder.SortPaths | seo_audit.py:139 | `sorted(pages)` is a permutation of the paths, strictly ascending when they are distinct |
| Aggregator.Tags | seo_audit.py:160-168 | one tag per block, the `TypeTag` of its parse, in block order; `BlockTags` is proved equal to it |
| Aggregator.RowOf | seo_audit.py:145-159 | defines the CSV row of a page from its extracted fields, the flattened hreflang list, its block count and its summaries; `ProcessMeta` states its path, hreflang and count fields |
| Aggregator.PageMetaOf | seo_audit.py:45-46 | defines the extraction of a read page: decode its bytes, parse the text, then build the dict; `Audit.Examine` is proved to compute it through `Process` |
| Aggregator.ProcessMeta | seo_audit.py:145-171 | an extracted page is never skipped; when it is added, its row has its path, its hreflang string and a `json_ld_count` equal to the number of its blocks, which it carries along |
| Aggregator.ProcessMetaAborts | seo_audit.py:160-170 | a page aborts the scan exactly when one of its blocks has a tag that is not a string |
| Aggregator.Process | seo_audit.py:140-144 | a path is skipped exactly when reading it raises |
| Aggregator.Append | seo_audit.py:174 | appending to a defaultdict of lists keeps the key order free of repeats and in step with the keys |
| Aggregator.IndexBy | seo_audit.py:173-176 | the index built over the records is well formed |
| Aggregator.PathsWith | seo_audit.py:173-178 | defines the paths, in record order, of the records whose field has a given value: the group of an index key, and with the canonical field and '' the `no_canonical` list; `PathsWithMembers` and `PathsWithAscending` state its contents and order |
| Aggregator.PathsWithMembers | seo_audit.py:173-178 | a path is listed under a key exactly when some record with that path has that key |
| Aggregator.PathsWithAscending | seo_audit.py:173-178 | with records in ascending path order, every list of paths is ascending |
| Aggregator.IndexByKey | seo_audit.py:173-176 | a key is indexed exactly when it is non-empty and some record has it, and it lists exactly those records' paths in record order |
| Aggregator.IndexByGroups | seo_audit.py:173-176 | the key '' is never indexed, and every key lists exactly the paths of the records having it |
| Aggregator.IndexByOrderGrows | seo_audit.py:173-176 | indexing more records only appends keys to the key order |
| Aggregator.OneGroupPerPath | seo_audit.py:173-176 | with distinct paths, each path sits in at most one group of an index |
| Aggregator.DeterminedExtend | seo_audit.py:171-178 | appending a later record and applying the three conditional updates keeps the indices and the no-canonical list determined by the records |
| Aggregator.Audit.constructor | seo_audit.py:134-137 | the state starts empty and valid |
| Aggregator.Audit.BlockTags | seo_audit.py:160-168 | the loop computes the tag of every block, in block order |
| Aggregator.Audit.Examine | seo_audit.py:140-170 | reading, decoding, extracting and tagging a page gives exactly its outcome |
| Aggregator.Audit.Record | seo_audit.py:171-178 | appending a record and updating the indices keeps the state valid, and results grow by that record |
| Aggregator.Audit.Add | seo_audit.py:140-178 | one turn of the loop: results grow by the record exactly when the page is added; an unreadable or aborting page leaves the indices and the no-canonical list unchanged |
| Aggregator.Collect | seo_audit.py:139-178 | defines the run over a list of page outcomes: skipped ones add nothing, an abort stops it, added ones are recorded; `CollectConcat`, `CollectSkip` and `CollectAbort` state it |
| Aggregator.RunScan | seo_audit.py:139-178 | defines the scan of a list of paths as the run of their outcomes; `RunScanConcat`, `SkippedPathChangesNothing` and `AbortEndsScan` state it, and `Scan` is proved equal to it |
| Aggregator.CollectConcat | seo_audit.py:139-178 | running two runs of outcomes in a row is running the first, then the second if the first did not abort |
| Aggregator.RunScanConcat | seo_audit.py:139-178 | scanning `a + b` is scanning `a`, then `b` if `a` did not abort |
| Aggregator.CollectSkip | seo_audit.py:142-144 | a skipped outcome contributes nothing |
| Aggregator.CollectAbort | seo_audit.py:170-171 | an aborted outcome ends the run with the records before it |
| Aggregator.SkippedPathChangesNothing | seo_audit.py:140-144 | an unreadable path contributes nothing, and the scan goes on with the following paths |
| Aggregator.AbortEndsScan | seo_audit.py:160-171 | a page whose summaries cannot be joined ends the scan, keeping only the records of the paths before it |
| Aggregator.Visit | seo_audit.py:140-178 | one turn of the loop over the sorted paths keeps the state valid and the records among the paths visited |
| Aggregator.Scan | seo_audit.py:139-178 | the records and whether the scan completed are exactly those of the sorted paths run through `Process`, and the final state is valid |
| Report.RepeatedKeys | seo_audit.py:181-183 | the keys kept are exactly those of the key order whose group has more than one path |
| Report.RepeatedKeysInOrder | seo_audit.py:181-183 | any two kept keys appear in the same relative order as in the index's insertion order |
| Report.RepeatedGroups | seo_audit.py:181-183 | the groups kept are exactly those with more than one path, with unchanged values |
| Report.Duplicates | seo_audit.py:180-186 | the duplicates are well formed, hold exactly the groups of more than one path with their paths unchanged, and list their keys in the index's insertion order |
| Report.FilterDuplicates | seo_audit.py:181-186 | the loop over the keys in insertion order builds exactly the duplicates |
| Report.DuplicateTitles | seo_audit.py:173-183 | a title is reported as duplicated exactly when it is non-empty and two or more pages carry it; its entry lists those pages in scan order |
| Report.Entries | seo_audit.py:213 | there is one item per key of the duplicates |
| Report.InsertBySize | seo_audit.py:213 | inserting adds exactly the one entry |
| Report.InsertBySizeOrdered | seo_audit.py:213 | inserting into a list of non-increasing size keeps it non-increasing |
| Report.SortBySize | seo_audit.py:213 | sorting by descending size is a permutation with non-increasing group sizes |
| Report.SortBySizeStable | seo_audit.py:213 | the sort is stable: entries of one size keep their order |
| Report.TopTitles | seo_audit.py:213 | at most ten entries, ten when there are at least ten, in non-increasing size |
| Report.TopTitlesFromDuplicates | seo_audit.py:213 | every top title is a duplicated title with its paths |
| Report.TopTitlesLargest | seo_audit.py:213 | no duplicated title left out of the top titles has more pages than one kept |
| Report.TopTitlesStable | seo_audit.py:213 | the top titles of one size are the first titles of that size in insertion order |
| Report.JsonLdTotal | seo_audit.py:212 | defines the sum of `json_ld_count` over the records; `JsonLdTotalCountsBlocks` states what it counts |
| Report.JsonLdTotalCountsBlocks | seo_audit.py:212 | the JSON-LD total is the number of blocks found on all scanned pages |
| Report.Summarize | seo_audit.py:180-213 | the duplicates of both indices; the number of records; the number of pages without a canonical link; the total number of blocks; the top titles of the title duplicates |
| Report.Run | seo_audit.py:139-213 | an aborted scan reports nothing; a completed one reports the duplicates of its title and description indices and the summary figures of its records |

## Left out

- `main.js` is browser interface code and is not part of this model.
- The HTML parser, `json.loads`, `bytes.decode` and `chardet.detect` are
  parameters. Their own behaviour is not modelled, including tag-soup repair
  and codec tables.
- Reading files, walking directories, `os.makedirs` and `argparse` are not
  modelled. The walk supplies the list of page paths to `Scan`, and
  `Selection` states the walk's file and directory tests.
- Writing the CSV and JSON reports (seo_audit.py:188-209) and printing the
  summary (seo_audit.py:215-228) are not modelled. `Run` computes the
  duplicates that are written and the figures that are printed.
- The message printed to stderr for a skipped page is left out.
- Only a failing file read makes a page raise in this model. An exception
  raised inside the foreign parser or decoder is not modelled.
- Extractor.Selects: an attribute query matches by exact string equality.
  The parser's token matching of multi-valued attributes such as
  `rel="alternate stylesheet"` is not modelled.
- Extractor.ScriptText: the children of a script are taken as strings. A
  child element inside a script, which would make `''.join` raise, is not
  modelled.
- Text.Lower: only ASCII letters are lower-cased. Python's `str.lower` also
  maps non-ASCII letters.
- JsonLd.Json: numbers are `real`, with no distinction between `int` and
  `float` and no floating-point rounding.
- Aggregator.Scan: requires the page paths to be distinct, as the directory
  walk yields each path once.
- PathOrder.SortPaths: ascending order is stated for distinct paths only,
  the only case `Scan` uses.
- Extractor.FlattenRoundTrip: the read-back is stated only when no language
  tag holds a vertical bar or ';' and no href holds ';'. Otherwise the flattened string
  is ambiguous.
