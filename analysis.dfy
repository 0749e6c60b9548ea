/**
 * The analysis and statistics tools over a crawled article record: paragraph and
 * reading-time figures, keyword ranking, and image counts.
 */
module Analysis {
  import opened Wrappers
  import opened Text
  import opened ImageRefs
  import opened Article
  import opened Keywords

  /** How many lines have something besides white space. */
  function NonBlankLines(lines: seq<string>): (n: nat)
    ensures n <= |lines|
  {
    if lines == [] then 0
    else (if Strip(lines[0]) != [] then 1 else 0) + NonBlankLines(lines[1..])
  }

  /** `len([p for p in content.split('\n') if p.strip()])` */
  function Paragraphs(content: string): nat {
    NonBlankLines(Split(content, '\n'))
  }

  lemma {:induction false} NonBlankLinesZero(lines: seq<string>)
    ensures NonBlankLines(lines) == 0 <==> forall k :: 0 <= k < |lines| ==> IsBlank(lines[k])
  {
    if lines != [] {
      NonBlankLinesZero(lines[1..]);
      StripEmptyIff(lines[0]);
      if NonBlankLines(lines) == 0 {
        forall k | 0 <= k < |lines| ensures IsBlank(lines[k]) {
          if k > 0 {
            assert lines[k] == lines[1..][k - 1];
          }
        }
      }
    }
  }

  /** A joined text is blank exactly when every part is, given a blank separator. */
  lemma {:induction false} JoinBlank(parts: seq<string>, sep: string)
    requires IsBlank(sep)
    ensures IsBlank(Join(parts, sep)) <==> forall k :: 0 <= k < |parts| ==> IsBlank(parts[k])
  {
    if |parts| > 1 {
      JoinBlank(parts[1..], sep);
      var rest := Join(parts[1..], sep);
      var whole := parts[0] + sep + rest;
      if IsBlank(whole) {
        forall k | 0 <= k < |parts| ensures IsBlank(parts[k]) {
          if k == 0 {
            forall i | 0 <= i < |parts[0]| ensures IsSpace(parts[0][i]) {
              assert whole[i] == parts[0][i];
            }
          } else {
            forall i | 0 <= i < |rest| ensures IsSpace(rest[i]) {
              assert whole[|parts[0]| + |sep| + i] == rest[i];
            }
            assert parts[k] == parts[1..][k - 1];
          }
        }
      } else {
        assert forall k :: 0 <= k < |parts| - 1 ==> parts[1..][k] == parts[k + 1];
      }
    }
  }

  /** The paragraph count is zero exactly when the content is blank. */
  lemma ParagraphsZeroIffBlank(content: string)
    ensures Paragraphs(content) == 0 <==> IsBlank(content)
  {
    var lines := Split(content, '\n');
    assert Join(lines, "\n") == content;
    assert IsBlank("\n");
    NonBlankLinesZero(lines);
    JoinBlank(lines, "\n");
  }

  /** `max(1, len(content) // 300)`: whole minutes at 300 characters a minute, at least one. */
  function ReadingMinutes(content: string): (m: nat)
    ensures m >= 1
    ensures |content| >= 300 ==> m * 300 <= |content| < (m + 1) * 300
    ensures |content| < 600 ==> m == 1
  {
    if |content| / 300 > 1 then |content| / 300 else 1
  }

  function ReadingTime(content: string): string {
    NatToString(ReadingMinutes(content)) + " 分钟"
  }

  /** The entries marked downloaded. */
  function Downloaded(images: seq<ImageInfo>): (n: nat)
    ensures n <= |images|
  {
    if images == [] then 0
    else (if images[0].downloadSuccess then 1 else 0) + Downloaded(images[1..])
  }

  /** The entries not marked downloaded. */
  function Failed(images: seq<ImageInfo>): (n: nat)
    ensures n <= |images|
  {
    if images == [] then 0
    else (if images[0].downloadSuccess then 0 else 1) + Failed(images[1..])
  }

  /** Every image is either downloaded or failed. */
  lemma {:induction false} DownloadedPlusFailed(images: seq<ImageInfo>)
    ensures Downloaded(images) + Failed(images) == |images|
  {
    if images != [] {
      DownloadedPlusFailed(images[1..]);
    }
  }

  /** `url.split(".")[-1].lower()` */
  function ImageType(url: string): (r: string)
    ensures '.' !in r
  {
    var tail := url[RFind(url, '.') + 1..];
    AsciiLowerKeepsDots(tail);
    AsciiLower(tail)
  }

  lemma {:induction false} AsciiLowerKeepsDots(s: string)
    requires '.' !in s
    ensures '.' !in AsciiLower(s)
  {
    if s != [] {
      AsciiLowerKeepsDots(s[1..]);
    }
  }

  /** The distinct types of the addresses that have a dot. */
  function ImageTypes(images: seq<ImageInfo>): (types: set<string>)
    ensures forall t :: t in types ==> '.' !in t
    ensures forall k :: 0 <= k < |images| && '.' in images[k].url ==> ImageType(images[k].url) in types
    ensures forall t :: t in types ==>
              exists k :: 0 <= k < |images| && '.' in images[k].url && t == ImageType(images[k].url)
  {
    set k | 0 <= k < |images| && images[k].url != [] && '.' in images[k].url :: ImageType(images[k].url)
  }

  datatype Summary = Summary(title: string, author: string, publishTime: string, wordCount: nat,
                             paragraphCount: nat, readingTime: string)

  datatype ImagesAnalysis = ImagesAnalysis(total: nat, downloaded: nat, failed: nat, imageTypes: set<string>)

  /**
   * The tool's answer. The article arrives as a record; None stands for a missing, empty or
   * non-dictionary argument.
   */
  datatype Analysis =
    | AnalysisError(message: string)
    | Analysis(analysisType: string, summary: Option<Summary>, keywords: Option<seq<Keyword>>,
               images: Option<ImagesAnalysis>)

  const NotADict: string := "article_data 必须是字典格式的文章数据"

  function SummaryOf(a: Article): Summary {
    Summary(a.title, a.author, a.publishTime, |a.content|, Paragraphs(a.content), ReadingTime(a.content))
  }

  function ImagesAnalysisOf(images: seq<ImageInfo>): ImagesAnalysis {
    ImagesAnalysis(|images|, Downloaded(images), Failed(images), ImageTypes(images))
  }

  /** What `analyze_article_content` reports for each analysis type. */
  function AnalysisOf(data: Option<Article>, analysisType: string): (r: Analysis)
    ensures data.None? <==> r.AnalysisError?
    ensures r.Analysis? ==>
              && r.analysisType == analysisType
              && (r.summary.Some? <==> analysisType == "summary" || analysisType == "full")
              && (r.keywords.Some? <==> analysisType == "keywords" || analysisType == "full")
              && (r.images.Some? <==> analysisType == "images" || analysisType == "full")
    ensures r.Analysis? && r.images.Some? ==> r.images.value.downloaded + r.images.value.failed == r.images.value.total
  {
    match data
    case None => AnalysisError(NotADict)
    case Some(a) =>
      DownloadedPlusFailed(a.images);
      Analysis(analysisType,
               if analysisType in {"summary", "full"} then Some(SummaryOf(a)) else None,
               if analysisType in {"keywords", "full"} then Some(TopKeywords(Words(a.content))) else None,
               if analysisType in {"images", "full"} then Some(ImagesAnalysisOf(a.images)) else None)
  }

  /**
   * `analyze_article_content`: a summary, keywords and image figures as the type asks;
   * an unknown type yields only the type itself.
   */
  method AnalyzeArticleContent(data: Option<Article>, analysisType: string) returns (r: Analysis)
    ensures r == AnalysisOf(data, analysisType)
    ensures data.None? <==> r.AnalysisError?
    ensures r.Analysis? && analysisType !in {"summary", "keywords", "images", "full"} ==>
              r == Analysis(analysisType, None, None, None)
    ensures r.Analysis? && analysisType == "full" ==> r.summary.Some? && r.keywords.Some? && r.images.Some?
    ensures r.Analysis? && r.images.Some? ==> r.images.value.downloaded + r.images.value.failed == r.images.value.total
    ensures r.Analysis? && r.summary.Some? ==> r.summary.value.wordCount == |data.value.content|
  {
    if data.None? {
      return AnalysisError(NotADict);
    }
    var a := data.value;
    var summary: Option<Summary> := None;
    var keywords: Option<seq<Keyword>> := None;
    var images: Option<ImagesAnalysis> := None;
    if analysisType in {"summary", "full"} {
      summary := Some(SummaryOf(a));
    }
    if analysisType in {"keywords", "full"} {
      var found := KeywordsOf(a.content);
      keywords := Some(found);
    }
    if analysisType in {"images", "full"} {
      DownloadedPlusFailed(a.images);
      images := Some(ImagesAnalysisOf(a.images));
    }
    return Analysis(analysisType, summary, keywords, images);
  }

  datatype Statistics = Statistics(
    title: string, author: string, publishTime: string, crawlTime: string, url: string,
    totalCharacters: nat, totalWords: nat, paragraphs: nat, readingTime: string,
    totalImages: nat, downloadedImages: nat, failedDownloads: nat)

  function OrEmpty(o: Option<string>): string {
    if o.Some? then o.value else ""
  }

  /** `get_article_statistics` */
  function StatisticsOf(data: Option<Article>): (r: Result<Statistics, string>)
    ensures data.None? <==> r.Err?
    ensures r.Err? ==> r.error == NotADict
  {
    match data
    case None => Err(NotADict)
    case Some(a) =>
      Ok(Statistics(a.title, a.author, a.publishTime, OrEmpty(a.crawlTime), OrEmpty(a.url),
                    |a.content|, a.wordCount, Paragraphs(a.content), ReadingTime(a.content),
                    |a.images|, Downloaded(a.images), Failed(a.images)))
  }

  /** The image figures add up and the character count is the content's length. */
  lemma StatisticsConsistent(a: Article)
    ensures var s := StatisticsOf(Some(a)).value;
      && s.downloadedImages + s.failedDownloads == s.totalImages
      && s.totalCharacters == |a.content|
      && s.downloadedImages <= s.totalImages
      && (s.paragraphs == 0 <==> IsBlank(a.content))
  {
    DownloadedPlusFailed(a.images);
    ParagraphsZeroIffBlank(a.content);
  }

  /** For a freshly crawled record the word count is the character count. */
  lemma CrawledWordCount(page: Page)
    requires page.contentReady
    ensures StatisticsOf(Some(ArticleOf(page))).value.totalWords
            == StatisticsOf(Some(ArticleOf(page))).value.totalCharacters
  {
  }
}
