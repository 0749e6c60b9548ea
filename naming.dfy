/**
 * The directory and file names `save_article_to_file` derives from an article title.
 */
module Naming {
  import opened Text

  /**
   * A character of the regex class `\w`: letters, digits and '_' of ASCII, and the
   * CJK unified ideographs.
   */
  predicate IsWordChar(c: char) {
    'a' <= c <= 'z' || 'A' <= c <= 'Z' || '0' <= c <= '9' || c == '_' || '\U{4E00}' <= c <= '\U{9FFF}'
  }

  predicate IsDashOrSpace(c: char) {
    c == '-' || IsSpace(c)
  }

  /** The word characters of `s`, in order. */
  function WordChars(s: string): string {
    if s == [] then [] else (if IsWordChar(s[0]) then [s[0]] else []) + WordChars(s[1..])
  }

  /** `re.sub(r'[^\w\s-]', '', s)`: keeps word characters, white space and '-'. */
  function DropSpecial(s: string): (r: string)
    ensures |r| <= |s|
    ensures forall i :: 0 <= i < |r| ==> IsWordChar(r[i]) || IsDashOrSpace(r[i])
    ensures WordChars(r) == WordChars(s)
  {
    if s == [] then []
    else
      assert s == [s[0]] + s[1..];
      if IsWordChar(s[0]) || IsDashOrSpace(s[0]) then
        var r := [s[0]] + DropSpecial(s[1..]);
        assert r[1..] == DropSpecial(s[1..]);
        r
      else DropSpecial(s[1..])
  }

  /** Every word character, space and dash of `s` survives, as often as it occurs. */
  lemma {:induction false} DropSpecialKeeps(s: string)
    ensures forall c :: IsWordChar(c) || IsDashOrSpace(c) ==> multiset(DropSpecial(s))[c] == multiset(s)[c]
  {
    if s != [] {
      DropSpecialKeeps(s[1..]);
      assert s == [s[0]] + s[1..];
    }
  }

  /** Drops the run of '-' and white space at the start of `s`. */
  function DropRun(s: string): (r: string)
    ensures |r| <= |s|
    ensures r == [] || !IsDashOrSpace(r[0])
  {
    if s != [] && IsDashOrSpace(s[0]) then DropRun(s[1..]) else s
  }

  /** `re.sub(r'[-\s]+', '-', s)`: every maximal run of '-' and white space becomes one '-'. */
  function CollapseRuns(s: string): (r: string)
    ensures |r| <= |s|
    ensures forall i :: 0 <= i < |r| ==> !IsSpace(r[i])
    ensures s != [] && !IsDashOrSpace(s[0]) ==> r != [] && r[0] == s[0]
    ensures forall i :: 0 <= i < |r| ==> r[i] == '-' || r[i] in s
    ensures WordChars(r) == WordChars(s)
    decreases |s|
  {
    if s == [] then []
    else if IsDashOrSpace(s[0]) then
      var rest := DropRun(s);
      var tail := CollapseRuns(rest);
      assert forall i :: 0 <= i < |tail| ==> tail[i] == '-' || tail[i] in s by {
        DropRunIsSuffix(s);
      }
      DropRunKeepsWordChars(s);
      assert ("-" + tail)[1..] == tail;
      "-" + tail
    else
      var r := [s[0]] + CollapseRuns(s[1..]);
      assert r[1..] == CollapseRuns(s[1..]);
      r
  }

  /** A run of dashes and white space holds no word character. */
  lemma {:induction false} DropRunKeepsWordChars(s: string)
    ensures WordChars(DropRun(s)) == WordChars(s)
  {
    if s != [] && IsDashOrSpace(s[0]) {
      DropRunKeepsWordChars(s[1..]);
    }
  }

  lemma {:induction false} DropRunIsSuffix(s: string)
    ensures forall c :: c in DropRun(s) ==> c in s
  {
    if s != [] && IsDashOrSpace(s[0]) {
      DropRunIsSuffix(s[1..]);
    }
  }

  /**
   * The title with its special characters removed and its separators collapsed: only word
   * characters and dashes remain, never two dashes in a row.
   */
  function SafeTitle(title: string): (r: string)
    ensures Clean(r)
    ensures |r| <= |title|
    ensures WordChars(r) == WordChars(title)
  {
    CollapseRunsClean(DropSpecial(title));
    CollapseRuns(DropSpecial(title))
  }

  const MaxBaseLength := 50

  /** `custom_filename` when it is non-empty, else the safe title cut to 50 characters. */
  function BaseName(customName: string, title: string): (r: string)
    ensures customName != [] ==> r == customName
    ensures customName == [] ==> |r| <= MaxBaseLength && StartsWith(SafeTitle(title), r)
    ensures customName == [] ==>
              |r| == if |SafeTitle(title)| < MaxBaseLength then |SafeTitle(title)| else MaxBaseLength
  {
    if customName != [] then customName
    else
      var safe := SafeTitle(title);
      if |safe| <= MaxBaseLength then safe else safe[..MaxBaseLength]
  }

  /**
   * `articles/<base>_<timestamp>`: a directory under `articles/` named after the base name and
   * the time, one level deep when neither holds a '/'.
   */
  function SaveDir(base: string, timestamp: string): (r: string)
    ensures StartsWith(r, "articles/" + base)
    ensures EndsWith(r, "_" + timestamp)
    ensures '/' !in base && '/' !in timestamp ==> RFind(r, '/') == |"articles"|
  {
    var r := "articles/" + base + "_" + timestamp;
    assert r[..|"articles/" + base|] == "articles/" + base;
    assert r[|r| - |timestamp| - 1..] == "_" + timestamp;
    if '/' !in base && '/' !in timestamp then
      RFindPastEnd("articles/", base + "_" + timestamp, '/');
      RFindIs("articles/", '/', 8);
      assert r == "articles/" + (base + "_" + timestamp);
      r
    else r
  }

  /** A name made only of word characters and single dashes. */
  predicate Clean(s: string) {
    && (forall i :: 0 <= i < |s| ==> IsWordChar(s[i]) || s[i] == '-')
    && (forall i :: 0 <= i < |s| - 1 ==> !(s[i] == '-' && s[i + 1] == '-'))
  }

  lemma {:induction false} CollapseRunsClean(s: string)
    requires forall i :: 0 <= i < |s| ==> IsWordChar(s[i]) || IsDashOrSpace(s[i])
    ensures Clean(CollapseRuns(s))
    decreases |s|
  {
    if s == [] {
    } else if IsDashOrSpace(s[0]) {
      var rest := DropRun(s);
      DropRunIsSuffix(s);
      forall i | 0 <= i < |rest| ensures IsWordChar(rest[i]) || IsDashOrSpace(rest[i]) {
        assert rest[i] in s;
      }
      CollapseRunsClean(rest);
      var tail := CollapseRuns(rest);
      assert tail == [] || tail[0] != '-';
      assert CollapseRuns(s) == "-" + tail;
    } else {
      CollapseRunsClean(s[1..]);
      assert CollapseRuns(s) == [s[0]] + CollapseRuns(s[1..]);
    }
  }

  /** A base name derived from the title is clean as well. */
  lemma {:induction false} BaseNameClean(title: string)
    ensures Clean(BaseName("", title))
  {
    var safe := SafeTitle(title);
    if |safe| > MaxBaseLength {
      assert forall i :: 0 <= i < MaxBaseLength ==> safe[..MaxBaseLength][i] == safe[i];
    }
  }

  lemma {:induction false} CleanIsFixed(s: string)
    requires Clean(s)
    ensures DropSpecial(s) == s
    ensures CollapseRuns(s) == s
    decreases |s|
  {
    if s != [] {
      assert Clean(s[1..]);
      CleanIsFixed(s[1..]);
      assert s == [s[0]] + s[1..];
      assert DropSpecial(s) == [s[0]] + DropSpecial(s[1..]);
      if s[0] == '-' {
        assert s[1..] == [] || s[1] != '-';
        assert DropRun(s) == s[1..];
        assert CollapseRuns(s) == "-" + CollapseRuns(s[1..]);
      } else {
        assert CollapseRuns(s) == [s[0]] + CollapseRuns(s[1..]);
      }
    }
  }

  /** Sanitising is idempotent: a safe title is its own safe title. */
  lemma {:induction false} SafeTitleIdempotent(title: string)
    ensures SafeTitle(SafeTitle(title)) == SafeTitle(title)
  {
    CleanIsFixed(SafeTitle(title));
  }
}
