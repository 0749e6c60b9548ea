/**
 * Keyword extraction of the article analysis: 2-4 character windows of CJK ideographs,
 * minus stop words and words ending in a function character, counted and ranked.
 */
module Keywords {
  import opened Text

  predicate IsCjk(c: char) {
    '\U{4E00}' <= c <= '\U{9FFF}'
  }

  /** CJK ideographs, CJK punctuation and full-width forms survive the cleaning. */
  predicate IsKept(c: char) {
    IsCjk(c) || '\U{3000}' <= c <= '\U{303F}' || '\U{FF00}' <= c <= '\U{FFEF}'
  }

  /** Every other character becomes a space. */
  function CleanText(s: string): (r: string)
    ensures |r| == |s|
    ensures forall i :: 0 <= i < |r| ==> IsKept(r[i]) || r[i] == ' '
  {
    seq(|s|, i requires 0 <= i < |s| => if IsKept(s[i]) then s[i] else ' ')
  }

  predicate IsSeparator(c: char) {
    c in "，。！？；：" || IsSpace(c)
  }

  /**
   * The text cut at every separator. Splitting at runs of separators, as the source does,
   * differs only by the empty pieces between neighbouring separators, which yield no words.
   */
  function Pieces(s: string): (parts: seq<string>)
    ensures |parts| >= 1
    ensures forall k :: 0 <= k < |parts| ==> forall i :: 0 <= i < |parts[k]| ==> !IsSeparator(parts[k][i])
  {
    if s == [] then [[]]
    else
      var rest := Pieces(s[1..]);
      if IsSeparator(s[0]) then [[]] + rest
      else [[s[0]] + rest[0]] + rest[1..]
  }

  /** The separators of `s`, in order. */
  function Separators(s: string): string {
    if s == [] then [] else (if IsSeparator(s[0]) then [s[0]] else []) + Separators(s[1..])
  }

  /** The pieces put back together, with the `k`-th separator after the `k`-th piece. */
  function Interleave(parts: seq<string>, seps: string): string
    requires |parts| == |seps| + 1
    decreases |seps|
  {
    if seps == [] then parts[0] else parts[0] + [seps[0]] + Interleave(parts[1..], seps[1..])
  }

  /** The pieces and the separators between them give back the text: nothing is lost. */
  lemma {:induction false} PiecesCover(s: string)
    ensures |Pieces(s)| == |Separators(s)| + 1
    ensures Interleave(Pieces(s), Separators(s)) == s
  {
    if s != [] {
      var rest := Pieces(s[1..]);
      var seps := Separators(s[1..]);
      PiecesCover(s[1..]);
      if IsSeparator(s[0]) {
        assert Pieces(s) == [[]] + rest;
        assert Separators(s) == [s[0]] + seps;
        assert Interleave(Pieces(s), Separators(s)) == [] + [s[0]] + Interleave(rest, seps);
      } else {
        assert Pieces(s) == [[s[0]] + rest[0]] + rest[1..];
        assert Separators(s) == seps;
        InterleaveCons(s[0], rest, seps);
      }
      assert s == [s[0]] + s[1..];
    }
  }

  /** A character at the front of the first piece comes first in the interleaving. */
  lemma InterleaveCons(c: char, parts: seq<string>, seps: string)
    requires |parts| == |seps| + 1
    ensures Interleave([[c] + parts[0]] + parts[1..], seps) == [c] + Interleave(parts, seps)
  {
    var p := [[c] + parts[0]] + parts[1..];
    assert p[0] == [c] + parts[0] && p[1..] == parts[1..];
  }

  const StopWords: set<string> := {
    "的", "了", "在", "是", "我", "有", "和", "就", "不", "人", "都", "一", "一个", "上", "也", "很",
    "到", "说", "要", "去", "你", "会", "着", "没有", "看", "好", "自己", "这", "那", "它", "他", "她",
    "们", "来", "过", "时", "大", "小", "多", "少", "可以", "能够", "应该", "必须", "如果", "因为", "所以",
    "但是", "然后", "现在", "已经", "还是", "只是", "或者", "以及", "并且", "而且", "不过", "虽然", "尽管",
    "除了", "通过", "关于", "对于", "由于", "为了", "根据", "按照", "依据", "基于"}

  /** A word ending in one of these characters is dropped. */
  const Suffixes: string := "的了在是有和就不都也很到说要去会着没看好这那它他她们来过时大小多少"

  predicate AllCjk(w: string) {
    w != [] && forall i :: 0 <= i < |w| ==> IsCjk(w[i])
  }

  /** The window test of the inner loop. */
  predicate IsCandidate(w: string) {
    w !in StopWords && AllCjk(w) && w[|w| - 1] !in Suffixes
  }

  /** What every extracted word is. */
  predicate IsKeyword(w: string) {
    2 <= |w| <= 4 && IsCandidate(w)
  }

  predicate AllKeywords(ws: seq<string>) {
    forall k :: 0 <= k < |ws| ==> IsKeyword(ws[k])
  }

  /** Window lengths, longest first. */
  const Lengths: seq<nat> := [4, 3, 2]

  /** The window of length `len` at `i`, when it fits and passes the test. */
  function Window(part: string, i: nat, len: nat): (r: seq<string>)
    requires 2 <= len <= 4
  {
    if i + len <= |part| && IsCandidate(part[i..i + len]) then [part[i..i + len]] else []
  }

  /** The words found at position `i` for the first `k` window lengths. */
  function WindowsAt(part: string, i: nat, k: nat): (r: seq<string>)
    requires k <= |Lengths|
  {
    if k == 0 then [] else WindowsAt(part, i, k - 1) + Window(part, i, Lengths[k - 1])
  }

  /** The words found at the first `n` positions of a piece. */
  function PieceWordsUpTo(part: string, n: nat): (r: seq<string>)
  {
    if n == 0 then [] else PieceWordsUpTo(part, n - 1) + WindowsAt(part, n - 1, |Lengths|)
  }

  /** Pieces shorter than two characters are skipped. */
  function PieceWords(part: string): (r: seq<string>)
  {
    if |part| >= 2 then PieceWordsUpTo(part, |part|) else []
  }

  /** The words of the first `m` pieces, in order. */
  function WordsUpTo(parts: seq<string>, m: nat): (r: seq<string>)
    requires m <= |parts|
  {
    if m == 0 then [] else WordsUpTo(parts, m - 1) + PieceWords(parts[m - 1])
  }

  /** The candidate words of a text, in the order the nested loops find them. */
  function Words(content: string): (r: seq<string>)
  {
    var parts := Pieces(CleanText(content));
    WordsUpTo(parts, |parts|)
  }

  lemma {:induction false} WindowsAtKeywords(part: string, i: nat, k: nat)
    requires k <= |Lengths|
    ensures AllKeywords(WindowsAt(part, i, k))
  {
    if k > 0 {
      WindowsAtKeywords(part, i, k - 1);
    }
  }

  lemma {:induction false} PieceWordsKeywords(part: string, n: nat)
    ensures AllKeywords(PieceWordsUpTo(part, n))
  {
    if n > 0 {
      PieceWordsKeywords(part, n - 1);
      WindowsAtKeywords(part, n - 1, |Lengths|);
    }
  }

  lemma {:induction false} WordsUpToKeywords(parts: seq<string>, m: nat)
    requires m <= |parts|
    ensures AllKeywords(WordsUpTo(parts, m))
  {
    if m > 0 {
      WordsUpToKeywords(parts, m - 1);
      if |parts[m - 1]| >= 2 {
        PieceWordsKeywords(parts[m - 1], |parts[m - 1]|);
      }
    }
  }

  /** Every collected word is a 2-4 character run of ideographs, no stop word, no listed ending. */
  lemma WordsAreKeywords(content: string)
    ensures AllKeywords(Words(content))
  {
    var parts := Pieces(CleanText(content));
    WordsUpToKeywords(parts, |parts|);
  }

  /** The loops over pieces, positions and window lengths that collect `words`. */
  method CollectWords(content: string) returns (words: seq<string>)
    ensures words == Words(content)
  {
    var parts := Pieces(CleanText(content));
    words := [];
    var p := 0;
    while p < |parts|
      invariant p <= |parts|
      invariant words == WordsUpTo(parts, p)
    {
      words := AppendPieceWords(words, parts[p]);
      p := p + 1;
    }
  }

  /** The body of the loop over pieces: appends the words of one piece. */
  method AppendPieceWords(words: seq<string>, part: string) returns (words': seq<string>)
    ensures words' == words + PieceWords(part)
  {
    words' := words;
    if |part| >= 2 {
      var i := 0;
      while i < |part|
        invariant i <= |part|
        invariant words' == words + PieceWordsUpTo(part, i)
      {
        words' := AppendWindowsAt(words', part, i);
        assert words + PieceWordsUpTo(part, i + 1) == words + PieceWordsUpTo(part, i) + WindowsAt(part, i, |Lengths|);
        i := i + 1;
      }
    } else {
      assert words' == words + [];
    }
  }

  /** The body of the loop over positions: tries the window lengths longest first. */
  method AppendWindowsAt(words: seq<string>, part: string, i: nat) returns (words': seq<string>)
    ensures words' == words + WindowsAt(part, i, |Lengths|)
  {
    words' := words;
    var k := 0;
    while k < |Lengths|
      invariant k <= |Lengths|
      invariant words' == words + WindowsAt(part, i, k)
    {
      words' := AppendWindow(words', part, i, Lengths[k]);
      k := k + 1;
    }
  }

  /** The body of the loop over window lengths: keeps the window when it fits and passes the test. */
  method AppendWindow(words: seq<string>, part: string, i: nat, length: nat) returns (words': seq<string>)
    requires 2 <= length <= 4
    ensures words' == words + Window(part, i, length)
  {
    words' := words;
    if i + length <= |part| {
      var word := part[i..i + length];
      if |word| == length && IsCandidate(word) {
        words' := words' + [word];
      }
    }
  }

  datatype Keyword = Keyword(word: string, count: nat)

  /** How often `w` occurs in `words`. */
  function Occurrences(words: seq<string>, w: string): nat {
    if words == [] then 0
    else Occurrences(words[..|words| - 1], w) + (if words[|words| - 1] == w then 1 else 0)
  }

  predicate DistinctWords(t: seq<Keyword>) {
    forall i, j :: 0 <= i < j < |t| ==> t[i].word != t[j].word
  }

  /** Position of the entry for `w`, `|t|` when there is none. */
  function IndexOf(t: seq<Keyword>, w: string): (j: nat)
    ensures j <= |t|
    ensures j < |t| ==> t[j].word == w
    ensures j == |t| ==> forall k :: 0 <= k < |t| ==> t[k].word != w
  {
    if t == [] then 0 else if t[0].word == w then 0 else 1 + IndexOf(t[1..], w)
  }

  /**
   * `Counter(words)`: one entry per distinct word, in order of first occurrence, holding
   * the number of its occurrences.
   */
  function Tally(words: seq<string>): (t: seq<Keyword>)
    decreases |words|, 1
    ensures DistinctWords(t)
    ensures forall k :: 0 <= k < |t| ==> t[k].word in words && t[k].count == Occurrences(words, t[k].word)
  {
    if words == [] then []
    else
      var n := |words| - 1;
      var w := words[n];
      var t := Tally(words[..n]);
      var j := IndexOf(t, w);
      assert forall k :: 0 <= k < |t| ==> t[k].word in words by {
        assert words == words[..n] + [w];
      }
      if j < |t| then t[j := Keyword(w, t[j].count + 1)]
      else
        assert Occurrences(words[..n], w) == 0 by {
          if Occurrences(words[..n], w) > 0 {
            OccursIn(words[..n], w);
            TallyComplete(words[..n], w);
          }
        }
        t + [Keyword(w, 1)]
  }

  /** Position of the first occurrence of `w` in `words`, `|words|` when it does not occur. */
  function FirstIndex(words: seq<string>, w: string): (j: nat)
    ensures j <= |words|
    ensures j < |words| ==> words[j] == w
    ensures forall k :: 0 <= k < j ==> words[k] != w
  {
    if words == [] then 0 else if words[0] == w then 0 else 1 + FirstIndex(words[1..], w)
  }

  /** Appending words does not move the first occurrence of a word already there. */
  lemma FirstIndexOfPrefix(words: seq<string>, n: nat, w: string)
    requires n <= |words| && w in words[..n]
    ensures FirstIndex(words, w) == FirstIndex(words[..n], w)
  {
    var j := FirstIndex(words[..n], w);
    assert words[..n][j] == words[j];
  }

  /** The entries of `t` are ordered by the first occurrence of their words in `words`. */
  predicate InFirstOrder(words: seq<string>, t: seq<Keyword>) {
    forall i, j :: 0 <= i < j < |t| ==> FirstIndex(words, t[i].word) < FirstIndex(words, t[j].word)
  }

  /** Entries whose words occur in the first `n` words keep their order when words are appended. */
  lemma OrderOfPrefix(words: seq<string>, n: nat, t: seq<Keyword>)
    requires n <= |words| && InFirstOrder(words[..n], t)
    requires forall k :: 0 <= k < |t| ==> t[k].word in words[..n]
    ensures InFirstOrder(words, t)
    ensures forall k :: 0 <= k < |t| ==> FirstIndex(words, t[k].word) < n
  {
    forall k | 0 <= k < |t|
      ensures FirstIndex(words, t[k].word) == FirstIndex(words[..n], t[k].word) < n
    {
      FirstIndexOfPrefix(words, n, t[k].word);
    }
  }

  /** Recounting an entry for the same word keeps the order. */
  lemma OrderOfUpdate(words: seq<string>, t: seq<Keyword>, j: nat, e: Keyword)
    requires j < |t| && e.word == t[j].word && InFirstOrder(words, t)
    ensures InFirstOrder(words, t[j := e])
  {
    var r := t[j := e];
    assert forall k :: 0 <= k < |r| ==> r[k].word == t[k].word;
  }

  /** An entry for a word that first occurs last goes after all the others. */
  lemma OrderOfAppend(words: seq<string>, t: seq<Keyword>, e: Keyword)
    requires words != [] && e.word == words[|words| - 1] && e.word !in words[..|words| - 1]
    requires InFirstOrder(words, t) && forall k :: 0 <= k < |t| ==> FirstIndex(words, t[k].word) < |words| - 1
    ensures InFirstOrder(words, t + [e])
  {
    FirstIndexOfNew(words, e.word);
    var r := t + [e];
    forall a, b | 0 <= a < b < |r|
      ensures FirstIndex(words, r[a].word) < FirstIndex(words, r[b].word)
    {
      assert r[a] == t[a];
      if b < |t| {
        assert r[b] == t[b];
      }
    }
  }

  /** A word that first occurs at the end has its first occurrence there. */
  lemma FirstIndexOfNew(words: seq<string>, w: string)
    requires words != [] && words[|words| - 1] == w && w !in words[..|words| - 1]
    ensures FirstIndex(words, w) == |words| - 1
  {
    var n := |words| - 1;
    assert forall k :: 0 <= k < n ==> words[..n][k] == words[k];
  }

  /**
   * `Counter` lists the words in the order they first occur, so the entries of the tally
   * are ordered by first occurrence.
   */
  lemma {:induction false} TallyInFirstOccurrenceOrder(words: seq<string>)
    ensures InFirstOrder(words, Tally(words))
  {
    if words != [] {
      var n := |words| - 1;
      var w := words[n];
      var t := Tally(words[..n]);
      TallyInFirstOccurrenceOrder(words[..n]);
      OrderOfPrefix(words, n, t);
      var j := IndexOf(t, w);
      if j < |t| {
        OrderOfUpdate(words, t, j, Keyword(w, t[j].count + 1));
      } else {
        if w in words[..n] {
          TallyComplete(words[..n], w);
          assert false;
        }
        OrderOfAppend(words, t, Keyword(w, 1));
      }
    }
  }

  lemma {:induction false} OccursIn(words: seq<string>, w: string)
    requires Occurrences(words, w) > 0
    ensures w in words
  {
    var n := |words| - 1;
    if words[n] != w {
      OccursIn(words[..n], w);
    }
  }

  /** Every word that occurs has its entry. */
  lemma {:induction false} TallyComplete(words: seq<string>, w: string)
    requires w in words
    ensures IndexOf(Tally(words), w) < |Tally(words)|
    decreases |words|, 2
  {
    var n := |words| - 1;
    var t := Tally(words[..n]);
    var j := IndexOf(t, words[n]);
    if w == words[n] {
      if j < |t| {
        assert Tally(words)[j].word == w;
      } else {
        assert Tally(words)[|t|].word == w;
      }
    } else {
      assert words == words[..n] + [words[n]];
      assert w in words[..n];
      TallyComplete(words[..n], w);
      var k := IndexOf(t, w);
      assert Tally(words)[k].word == w;
    }
  }

  predicate NonIncreasing(t: seq<Keyword>) {
    forall i, j :: 0 <= i < j < |t| ==> t[i].count >= t[j].count
  }

  /** An entry counted at least as often as the head of a ranked list may go in front of it. */
  lemma ConsNonIncreasing(x: Keyword, rest: seq<Keyword>)
    requires NonIncreasing(rest)
    requires rest != [] ==> x.count >= rest[0].count
    ensures NonIncreasing([x] + rest)
  {
    forall i, j | 0 <= i < j < |[x] + rest| ensures ([x] + rest)[i].count >= ([x] + rest)[j].count {
      if i == 0 {
        assert ([x] + rest)[j] == rest[j - 1];
        assert j - 1 > 0 ==> rest[0].count >= rest[j - 1].count;
      } else {
        assert ([x] + rest)[i] == rest[i - 1] && ([x] + rest)[j] == rest[j - 1];
      }
    }
  }

  /** Places `e` after every entry counted at least as often: ties keep their order. */
  function Insert(e: Keyword, sorted: seq<Keyword>): (r: seq<Keyword>)
    ensures r != [] && (r[0] == e || (sorted != [] && r[0] == sorted[0]))
  {
    if sorted == [] then [e]
    else if sorted[0].count >= e.count then [sorted[0]] + Insert(e, sorted[1..])
    else [e] + sorted
  }

  /** Inserting adds exactly the one entry. */
  lemma {:induction false} InsertPermutes(e: Keyword, sorted: seq<Keyword>)
    ensures multiset(Insert(e, sorted)) == multiset(sorted) + multiset{e}
  {
    if sorted != [] && sorted[0].count >= e.count {
      InsertPermutes(e, sorted[1..]);
      assert sorted == [sorted[0]] + sorted[1..];
    }
  }

  /** Inserting into a ranked list gives a ranked list. */
  lemma {:induction false} InsertRanked(e: Keyword, sorted: seq<Keyword>)
    requires NonIncreasing(sorted)
    ensures NonIncreasing(Insert(e, sorted))
  {
    if sorted == [] {
    } else if sorted[0].count >= e.count {
      assert NonIncreasing(sorted[1..]) by {
        assert forall k :: 0 <= k < |sorted| - 1 ==> sorted[1..][k] == sorted[k + 1];
      }
      InsertRanked(e, sorted[1..]);
      ConsNonIncreasing(sorted[0], Insert(e, sorted[1..]));
    } else {
      ConsNonIncreasing(e, sorted);
    }
  }

  /** The entries by descending count, ties in their original order (a stable sort). */
  function Rank(t: seq<Keyword>): (r: seq<Keyword>)
    ensures multiset(r) == multiset(t)
    ensures NonIncreasing(r)
  {
    if t == [] then []
    else
      var n := |t| - 1;
      assert t == t[..n] + [t[n]];
      InsertPermutes(t[n], Rank(t[..n]));
      InsertRanked(t[n], Rank(t[..n]));
      Insert(t[n], Rank(t[..n]))
  }

  /** The entries counted exactly `c` times, in their order in `t`. */
  function WithCount(t: seq<Keyword>, c: nat): seq<Keyword> {
    if t == [] then []
    else (if t[0].count == c then [t[0]] else []) + WithCount(t[1..], c)
  }

  lemma {:induction false} WithCountNone(t: seq<Keyword>, c: nat)
    requires forall k :: 0 <= k < |t| ==> t[k].count < c
    ensures WithCount(t, c) == []
  {
    if t != [] {
      WithCountNone(t[1..], c);
    }
  }

  lemma {:induction false} WithCountAppend(a: seq<Keyword>, b: seq<Keyword>, c: nat)
    ensures WithCount(a + b, c) == WithCount(a, c) + WithCount(b, c)
  {
    if a != [] {
      assert (a + b)[1..] == a[1..] + b;
      WithCountAppend(a[1..], b, c);
    } else {
      assert a + b == b;
    }
  }

  /** Inserting `e` puts it behind every entry of the same count. */
  lemma {:induction false} InsertStable(e: Keyword, sorted: seq<Keyword>, c: nat)
    requires NonIncreasing(sorted)
    ensures WithCount(Insert(e, sorted), c) == WithCount(sorted, c) + (if e.count == c then [e] else [])
  {
    if sorted == [] {
    } else if sorted[0].count >= e.count {
      assert NonIncreasing(sorted[1..]) by {
        assert forall k :: 0 <= k < |sorted| - 1 ==> sorted[1..][k] == sorted[k + 1];
      }
      InsertStable(e, sorted[1..], c);
      assert ([sorted[0]] + Insert(e, sorted[1..]))[1..] == Insert(e, sorted[1..]);
    } else if e.count == c {
      WithCountNone(sorted, c);
      assert ([e] + sorted)[1..] == sorted;
    } else {
      assert ([e] + sorted)[1..] == sorted;
    }
  }

  /** Rank is stable: the entries of each count keep their order in `t`. */
  lemma {:induction false} RankStable(t: seq<Keyword>, c: nat)
    ensures WithCount(Rank(t), c) == WithCount(t, c)
  {
    if t != [] {
      var n := |t| - 1;
      var last := if t[n].count == c then [t[n]] else [];
      calc {
        WithCount(Rank(t), c);
        WithCount(Insert(t[n], Rank(t[..n])), c);
        { InsertStable(t[n], Rank(t[..n]), c); }
        WithCount(Rank(t[..n]), c) + last;
        { RankStable(t[..n], c); }
        WithCount(t[..n], c) + last;
        { WithCountAppend(t[..n], [t[n]], c); assert WithCount([t[n]], c) == last; }
        WithCount(t[..n] + [t[n]], c);
        { assert t[..n] + [t[n]] == t; }
        WithCount(t, c);
      }
    }
  }

  /** The entries counted at least twice, in order. */
  function Frequent(t: seq<Keyword>): (r: seq<Keyword>)
    ensures forall k :: 0 <= k < |r| ==> r[k] in t && r[k].count >= 2
  {
    if t == [] then []
    else
      var rest := Frequent(t[1..]);
      if t[0].count >= 2 then [t[0]] + rest else rest
  }

  /** Filtering a ranked list leaves it ranked. */
  lemma {:induction false} FrequentRanked(t: seq<Keyword>)
    requires NonIncreasing(t)
    ensures NonIncreasing(Frequent(t))
  {
    if t != [] {
      assert NonIncreasing(t[1..]) by {
        assert forall k :: 0 <= k < |t| - 1 ==> t[1..][k] == t[k + 1];
      }
      FrequentRanked(t[1..]);
      var rest := Frequent(t[1..]);
      if t[0].count >= 2 && rest != [] {
        assert rest[0] in t[1..];
        var k :| 0 <= k < |t| - 1 && t[1..][k] == rest[0];
        assert t[k + 1] == rest[0];
        ConsNonIncreasing(t[0], rest);
      }
    }
  }

  /** An entry whose word the rest lacks may go in front of a list with one entry per word. */
  lemma ConsDistinct(x: Keyword, rest: seq<Keyword>)
    requires DistinctWords(rest)
    requires forall k :: 0 <= k < |rest| ==> rest[k].word != x.word
    ensures DistinctWords([x] + rest)
  {
    forall i, j | 0 <= i < j < |[x] + rest| ensures ([x] + rest)[i].word != ([x] + rest)[j].word {
      assert ([x] + rest)[j] == rest[j - 1];
      if i > 0 {
        assert ([x] + rest)[i] == rest[i - 1];
      }
    }
  }

  /** Filtering a list with one entry per word keeps one entry per word. */
  lemma {:induction false} FrequentDistinct(t: seq<Keyword>)
    requires DistinctWords(t)
    ensures DistinctWords(Frequent(t))
  {
    if t != [] {
      assert DistinctWords(t[1..]) by {
        assert forall k :: 0 <= k < |t| - 1 ==> t[1..][k] == t[k + 1];
      }
      FrequentDistinct(t[1..]);
      var rest := Frequent(t[1..]);
      if t[0].count >= 2 {
        forall k | 0 <= k < |rest| ensures rest[k].word != t[0].word {
          var j :| 0 <= j < |t| - 1 && t[1..][j] == rest[k];
          assert t[j + 1] == rest[k];
        }
        ConsDistinct(t[0], rest);
      }
    }
  }

  function Take(t: seq<Keyword>, n: nat): (r: seq<Keyword>)
    ensures |r| <= n && r <= t
  {
    if |t| <= n then t else t[..n]
  }

  /** `most_common(15)`, then the entries counted at least twice, then the first ten. */
  function TopKeywords(words: seq<string>): seq<Keyword> {
    Take(Frequent(Take(Rank(Tally(words)), 15)), 10)
  }

  lemma {:induction false} InsertDistinct(e: Keyword, sorted: seq<Keyword>)
    requires DistinctWords(sorted)
    requires forall k :: 0 <= k < |sorted| ==> sorted[k].word != e.word
    ensures DistinctWords(Insert(e, sorted))
  {
    if sorted != [] && sorted[0].count >= e.count {
      InsertDistinct(e, sorted[1..]);
      var rest := Insert(e, sorted[1..]);
      InsertPermutes(e, sorted[1..]);
      forall k | 0 <= k < |rest| ensures rest[k].word != sorted[0].word {
        assert rest[k] in multiset(sorted[1..]) + multiset{e};
      }
    }
  }

  /** Ranking a tally keeps one entry per word. */
  lemma {:induction false} RankDistinct(t: seq<Keyword>)
    requires DistinctWords(t)
    ensures DistinctWords(Rank(t))
  {
    if t != [] {
      var n := |t| - 1;
      RankDistinct(t[..n]);
      var ranked := Rank(t[..n]);
      forall k | 0 <= k < |ranked| ensures ranked[k].word != t[n].word {
        assert ranked[k] in multiset(t[..n]);
      }
      InsertDistinct(t[n], ranked);
    }
  }

  /** On a ranked list the frequent entries form a prefix. */
  lemma {:induction false} FrequentOfRankedIsPrefix(t: seq<Keyword>)
    requires NonIncreasing(t)
    ensures Frequent(t) <= t
  {
    if t != [] {
      FrequentOfRankedIsPrefix(t[1..]);
      if t[0].count < 2 {
        var rest := Frequent(t[1..]);
        if rest != [] {
          assert false;
        }
      }
    }
  }

  /** The result is the head of the ranked tally. */
  lemma {:induction false} TopIsRankedPrefix(words: seq<string>)
    ensures TopKeywords(words) <= Rank(Tally(words))
    ensures |TopKeywords(words)| <= 10
  {
    var ranked := Rank(Tally(words));
    var top := Take(ranked, 15);
    FrequentOfRankedIsPrefix(top);
  }

  /** The result holds entries of the tally, each counted at least twice. */
  lemma {:induction false} TopFromTally(words: seq<string>)
    ensures forall k :: 0 <= k < |TopKeywords(words)| ==>
              TopKeywords(words)[k] in Tally(words) && TopKeywords(words)[k].count >= 2
  {
    var t := Tally(words);
    var ranked := Rank(t);
    var f := Frequent(Take(ranked, 15));
    var r := TopKeywords(words);
    TopIsRankedPrefix(words);
    forall k | 0 <= k < |r| ensures r[k] in t && r[k].count >= 2 {
      assert r[k] == ranked[k];
      assert ranked[k] in multiset(t);
      assert r[k] == f[k];
    }
  }

  /** At most ten keywords, one entry per word, by non-increasing count. */
  lemma {:induction false} KeywordsRanked(content: string)
    ensures var r := TopKeywords(Words(content));
      |r| <= 10 && NonIncreasing(r) && DistinctWords(r)
  {
    var words := Words(content);
    TopIsRankedPrefix(words);
    RankDistinct(Tally(words));
  }

  /**
   * Each keyword is a 2-4 character run of ideographs, no stop word and no listed ending,
   * counted by its number of occurrences, which is at least 2.
   */
  lemma {:induction false} KeywordsSound(content: string)
    ensures var r := TopKeywords(Words(content));
      forall k :: 0 <= k < |r| ==>
        && IsKeyword(r[k].word)
        && r[k].count >= 2
        && r[k].count == Occurrences(Words(content), r[k].word)
  {
    var words := Words(content);
    var r := TopKeywords(words);
    TopFromTally(words);
    WordsAreKeywords(content);
    forall k | 0 <= k < |r| ensures IsKeyword(r[k].word) {
      var j :| 0 <= j < |Tally(words)| && Tally(words)[j] == r[k];
    }
  }

  /**
   * Nothing left out is counted more often than a keyword that was kept: a word that
   * occurs at least twice and is missing from the result occurs at most as often as
   * every keyword.
   */
  lemma {:induction false} KeywordsAreMostFrequent(content: string, w: string)
    requires Occurrences(Words(content), w) >= 2
    requires forall k :: 0 <= k < |TopKeywords(Words(content))| ==> TopKeywords(Words(content))[k].word != w
    ensures forall k :: 0 <= k < |TopKeywords(Words(content))| ==>
              TopKeywords(Words(content))[k].count >= Occurrences(Words(content), w)
  {
    var words := Words(content);
    var t := Tally(words);
    TopIsRankedPrefix(words);
    OccursIn(words, w);
    TallyComplete(words, w);
    var j := IndexOf(t, w);
    assert t[j] in multiset(Rank(t));
    LeftOutNotAbove(Rank(t), TopKeywords(words), t[j]);
  }

  /**
   * In a ranked list, an entry whose word a prefix of the list does not hold is counted at
   * most as often as every entry of that prefix.
   */
  lemma LeftOutNotAbove(ranked: seq<Keyword>, r: seq<Keyword>, x: Keyword)
    requires NonIncreasing(ranked) && r <= ranked && x in ranked
    requires forall k :: 0 <= k < |r| ==> r[k].word != x.word
    ensures forall k :: 0 <= k < |r| ==> r[k].count >= x.count
  {
    var q :| 0 <= q < |ranked| && ranked[q] == x;
    assert q >= |r|;
    forall k | 0 <= k < |r| ensures r[k].count >= x.count {
      assert r[k] == ranked[k];
    }
  }

  /** The keyword part of the analysis. */
  method KeywordsOf(content: string) returns (keywords: seq<Keyword>)
    ensures keywords == TopKeywords(Words(content))
  {
    var words := CollectWords(content);
    keywords := TopKeywords(words);
  }
}
