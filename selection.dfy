/** Which files and directories the scan takes (seo_audit.py:127-130) and how
    the `--formats` argument is read (seo_audit.py:123). */
module Selection {
  import opened Text

  /** `fname.lower().endswith(('.html', '.htm'))`. */
  predicate IsPageFile(fname: string) {
    var l := Lower(fname);
    EndsWith(l, ".html") || EndsWith(l, ".htm")
  }

  /** The position of the last '.' in `s`, if any. */
  function LastDot(s: string): (r: Option<nat>)
    ensures r.Some? ==> r.value < |s| && s[r.value] == '.'
    ensures r.Some? ==> forall k :: r.value < k < |s| ==> s[k] != '.'
    ensures r.None? <==> '.' !in s
  {
    if s == [] then None
    else if s[|s| - 1] == '.' then Some(|s| - 1)
    else
      assert s == s[..|s| - 1] + [s[|s| - 1]];
      LastDot(s[..|s| - 1])
  }

  /** The reading of the rule by extension: the name has a '.', and what
      follows its last '.' is "html" or "htm" in any ASCII case. */
  predicate HasPageExtension(fname: string) {
    match LastDot(fname)
    case None => false
    case Some(i) => Lower(fname[i + 1..]) == "html" || Lower(fname[i + 1..]) == "htm"
  }

  lemma LowerCharFacts(c: char)
    ensures LowerChar(c) == '.' <==> c == '.'
    ensures LowerChar(c) == ',' <==> c == ','
    ensures IsSpace(LowerChar(c)) <==> IsSpace(c)
    ensures LowerChar(LowerChar(c)) == LowerChar(c)
  {
  }

  lemma {:induction false} LowerSuffix(s: string, i: nat)
    requires i <= |s|
    ensures Lower(s[i..]) == Lower(s)[i..]
  {
  }

  /** The last '.' is at `i` when `s[i]` is a '.' and none follows it. */
  lemma LastDotAt(s: string, i: nat)
    requires i < |s| && s[i] == '.'
    requires forall k :: i < k < |s| ==> s[k] != '.'
    ensures LastDot(s) == Some(i)
  {
    assert s[i] in s;
  }

  /** The characters of a string's ending, position by position. */
  lemma EndingChars(l: string, e: string, k: nat)
    requires EndsWith(l, e) && k < |e|
    ensures l[|l| - |e| + k] == e[k]
  {
    assert l[|l| - |e|..][k] == e[k];
  }

  /** Ending in "." + `ext` is ending in `ext` right after a '.'. */
  lemma DotEnding(l: string, ext: string)
    requires EndsWith(l, "." + ext)
    ensures EndsWith(l, ext) && l[|l| - |ext| - 1] == '.'
  {
    var e := "." + ext;
    assert e[1..] == ext;
    assert l[|l| - |ext|..] == l[|l| - |e|..][1..];
    EndingChars(l, e, 0);
  }

  /** A lower-cased name ending in "." + `ext`, with no '.' in `ext`, has its
      last '.' right before that ending. */
  lemma DotBeforeEnding(fname: string, ext: string)
    requires '.' !in ext
    requires EndsWith(Lower(fname), "." + ext)
    ensures LastDot(fname).Some? && LastDot(fname).value + |ext| + 1 == |fname|
  {
    var i: nat := |fname| - |ext| - 1;
    DotEnding(Lower(fname), ext);
    assert Lower(fname)[i] == '.';
    LowerCharFacts(fname[i]);
    NoDotInEnding(fname, ext);
    LastDotAt(fname, i);
  }

  /** No '.' in `ext` means none in the part of the name that lower-cases to it. */
  lemma NoDotInEnding(fname: string, ext: string)
    requires '.' !in ext
    requires EndsWith(Lower(fname), ext)
    ensures forall k :: |fname| - |ext| <= k < |fname| ==> fname[k] != '.'
  {
    forall k | |fname| - |ext| <= k < |fname| ensures fname[k] != '.' {
      EndingChars(Lower(fname), ext, k - (|fname| - |ext|));
      LowerCharFacts(fname[k]);
    }
  }

  /** What follows the '.' of that ending is `ext`, lower-cased. */
  lemma ExtensionOfEnding(fname: string, ext: string)
    requires EndsWith(Lower(fname), "." + ext)
    ensures Lower(fname[|fname| - |ext|..]) == ext
  {
    DotEnding(Lower(fname), ext);
    LowerSuffix(fname, |fname| - |ext|);
  }

  lemma EndingImpliesExtension(fname: string, ext: string)
    requires ext == "html" || ext == "htm"
    requires EndsWith(Lower(fname), "." + ext)
    ensures HasPageExtension(fname)
  {
    DotBeforeEnding(fname, ext);
    ExtensionOfEnding(fname, ext);
  }

  /** A '.' at `i` followed by `ext` makes the string end in "." + `ext`. */
  lemma EndingAfterDot(l: string, i: nat, ext: string)
    requires i < |l| && l[i] == '.' && l[i + 1..] == ext
    ensures EndsWith(l, "." + ext)
  {
    assert l[i..] == [l[i]] + l[i + 1..];
  }

  /** A '.' at `i` followed by "html" or "htm" in any case makes a page file. */
  lemma DotExtensionEnding(fname: string, i: nat, ext: string)
    requires i < |fname| && fname[i] == '.'
    requires ext == Lower(fname[i + 1..])
    ensures EndsWith(Lower(fname), "." + ext)
  {
    LowerSuffix(fname, i + 1);
    LowerCharFacts(fname[i]);
    EndingAfterDot(Lower(fname), i, ext);
  }

  lemma ExtensionImpliesEnding(fname: string)
    requires HasPageExtension(fname)
    ensures IsPageFile(fname)
  {
    var i := LastDot(fname).value;
    var ext := Lower(fname[i + 1..]);
    DotExtensionEnding(fname, i, ext);
    if ext == "html" {
      assert "." + ext == ".html";
    } else {
      assert "." + ext == ".htm";
    }
  }

  /** A name ends with ".html" or ".htm" in any case exactly when its extension
      is "html" or "htm" in any case. */
  lemma PageFileByExtension(fname: string)
    ensures IsPageFile(fname) <==> HasPageExtension(fname)
  {
    var l := Lower(fname);
    if EndsWith(l, ".html") {
      EndingImpliesExtension(fname, "html");
    } else if EndsWith(l, ".htm") {
      EndingImpliesExtension(fname, "htm");
    }
    if HasPageExtension(fname) {
      ExtensionImpliesEnding(fname);
    }
  }

  /** The directory test of seo_audit.py:127, as written: plain substring and
      prefix tests on the whole directory path. */
  predicate SkipsDir(dirpath: string) {
    Contains(dirpath, "/.git") || StartsWith(dirpath, ".git") || Contains(dirpath, "/node_modules")
  }

  /** A directory is skipped exactly when its path starts with ".git" or has
      "/.git" or "/node_modules" somewhere in it. */
  lemma SkipsDirExactly(dirpath: string)
    ensures SkipsDir(dirpath) <==>
      || StartsWith(dirpath, ".git")
      || (exists p, q :: dirpath == p + "/.git" + q)
      || (exists p, q :: dirpath == p + "/node_modules" + q)
  {
    if Contains(dirpath, "/.git") {
      var p, q := ContainsSplits(dirpath, "/.git");
    }
    if Contains(dirpath, "/node_modules") {
      var p, q := ContainsSplits(dirpath, "/node_modules");
    }
    if exists p, q :: dirpath == p + "/.git" + q {
      var p, q :| dirpath == p + "/.git" + q;
      ContainsInfix(p, "/.git", q);
    }
    if exists p, q :: dirpath == p + "/node_modules" + q {
      var p, q :| dirpath == p + "/node_modules" + q;
      ContainsInfix(p, "/node_modules", q);
    }
  }

  /** Being a substring test, it also skips every directory whose name only
      begins with ".git", such as ".github". */
  lemma GithubSkipped(p: string, q: string)
    ensures SkipsDir(p + "/.github" + q)
  {
    assert p + "/.github" + q == p + "/.git" + ("hub" + q);
    ContainsInfix(p, "/.git", "hub" + q);
  }

  /** `set(x.strip().lower() for x in formats.split(',') if x.strip())`. */
  function Formats(arg: string): (r: set<string>)
    ensures forall f :: f in r ==> f != "" && Trimmed(f) && Lower(f) == f && ',' !in f
  {
    var pieces := SplitOn(arg, ',');
    var r := set piece | piece in pieces && Strip(piece) != "" :: Lower(Strip(piece));
    assert forall f :: f in r ==> f != "" && Trimmed(f) && Lower(f) == f && ',' !in f by {
      forall piece | piece in pieces && Strip(piece) != "" {
        FormatShape(piece);
      }
    }
    r
  }

  lemma FormatShape(piece: string)
    requires ',' !in piece && Strip(piece) != ""
    ensures var f := Lower(Strip(piece)); f != "" && Trimmed(f) && Lower(f) == f && ',' !in f
  {
    var t := Strip(piece);
    StripKeepsOut(piece, ',');
    LowerShape(t);
  }

  /** A character missing from `s` is missing from `Strip(s)`. */
  lemma StripKeepsOut(s: string, c: char)
    requires c !in s
    ensures c !in Strip(s)
  {
    var t := Strip(s);
    var i :| SliceAmidSpace(s, t, i);
    forall k | 0 <= k < |t| ensures t[k] != c {
      assert t[k] == s[i + k];
    }
  }

  /** Lower-casing keeps a trimmed, comma-free string trimmed and comma-free,
      and lower-casing twice is lower-casing once. */
  lemma LowerShape(t: string)
    requires t != [] && Trimmed(t) && ',' !in t
    ensures var f := Lower(t); f != "" && Trimmed(f) && Lower(f) == f && ',' !in f
  {
    var f := Lower(t);
    forall k | 0 <= k < |t| ensures f[k] != ',' && Lower(f)[k] == f[k] {
      LowerCharFacts(t[k]);
    }
    LowerCharFacts(t[0]);
    LowerCharFacts(t[|t| - 1]);
  }

  /** Reading a comma-joined list of distinct lower-case format names gives
      back exactly those names. */
  lemma FormatsOfJoin(fs: seq<string>)
    requires |fs| >= 1
    requires forall k :: 0 <= k < |fs| ==> fs[k] != "" && Trimmed(fs[k]) && Lower(fs[k]) == fs[k] && ',' !in fs[k]
    ensures Formats(Join(",", fs)) == set k | 0 <= k < |fs| :: fs[k]
  {
    SplitJoin(fs, ',');
    forall k | 0 <= k < |fs| ensures Strip(fs[k]) == fs[k] {
      StripTrimmed(fs[k]);
    }
    var r := Formats(Join(",", fs));
    forall f | f in r ensures f in set k | 0 <= k < |fs| :: fs[k] {
      var piece :| piece in fs && Strip(piece) != "" && f == Lower(Strip(piece));
      var k :| 0 <= k < |fs| && fs[k] == piece;
    }
    forall k | 0 <= k < |fs| ensures fs[k] in r {
      assert fs[k] in SplitOn(Join(",", fs), ',');
      assert Lower(Strip(fs[k])) == fs[k];
    }
  }
}
