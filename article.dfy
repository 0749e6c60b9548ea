/** The article record and its assembly from a rendered page. */
module Article {
  import opened Wrappers
  import opened Dom
  import opened Selectors
  import opened ImageRefs

  datatype Article = Article(
    title: string,
    author: string,
    publishTime: string,
    content: string,          // the body's text, one line per text node
    contentHtml: Html,        // the body's markup; [] stands for ""
    images: seq<ImageInfo>,
    wordCount: nat,
    imageCount: nat,
    url: Option<string>,      // stamped after a successful crawl
    crawlTime: Option<string>)

  /** A rendered page: whether one of the body elements appeared in time, and its selector lookups. */
  datatype Page = Page(contentReady: bool, select: string -> Query)

  const TitleSelectors: seq<string> := ["#activity-name", ".rich_media_title", "h1", ".title"]
  const AuthorSelectors: seq<string> := ["#js_author_name", ".rich_media_meta_text", ".author", ".by"]
  const TimeSelectors: seq<string> := ["#publish_time", ".rich_media_meta_text", ".time", ".date"]
  const ContentSelectors: seq<string> := ["#js_content", ".rich_media_content", ".content", "article"]

  const UnknownTitle: string := "未知标题"
  const UnknownAuthor: string := "未知作者"
  const UnknownTime: string := "未知时间"
  const NoContent: string := "无法提取内容"

  /** The record returned when waiting for the body element times out. */
  const ExtractionFailed: Article :=
    Article("提取失败", "未知", "未知", "内容提取失败", [], [], 0, 0, None, None)

  /** What `_extract_article_content` yields for a page. */
  function ArticleOf(page: Page): (a: Article)
    ensures a.imageCount == |a.images| && a.url.None? && a.crawlTime.None?
    ensures a.images == ImagesOf(ImgTags(a.contentHtml))
    ensures page.contentReady ==> a.wordCount == |a.content|
    ensures !page.contentReady ==> a == ExtractionFailed
  {
    if !page.contentReady then ExtractionFailed
    else
      var body := ElementBySelectors(page.select, ContentSelectors);
      var content := if body.Some? then GetText(body.value, "\n") else NoContent;
      var images := if body.Some? then ImagesOf(ImgTags(body.value.markup)) else [];
      Article(TextBySelectors(page.select, TitleSelectors, UnknownTitle),
              TextBySelectors(page.select, AuthorSelectors, UnknownAuthor),
              TextBySelectors(page.select, TimeSelectors, UnknownTime),
              content,
              if body.Some? then body.value.markup else [],
              images, |content|, |images|, None, None)
  }

  /**
   * Resolves title, author, time and body through their selector lists and builds the
   * record; without a body element the content is a fixed marker and there are no images.
   */
  method ExtractArticleContent(page: Page) returns (a: Article)
    ensures a == ArticleOf(page)
    ensures a.imageCount == |a.images| && a.url.None? && a.crawlTime.None?
    ensures page.contentReady ==> a.wordCount == |a.content|
    ensures page.contentReady && ElementBySelectors(page.select, ContentSelectors).None? ==>
              a.content == NoContent && a.contentHtml == [] && a.images == []
    ensures !page.contentReady ==> a == ExtractionFailed
  {
    if !page.contentReady {
      return ExtractionFailed;
    }
    var title := GetTextBySelectors(page.select, TitleSelectors, UnknownTitle);
    var author := GetTextBySelectors(page.select, AuthorSelectors, UnknownAuthor);
    var publishTime := GetTextBySelectors(page.select, TimeSelectors, UnknownTime);
    var body := GetElementBySelectors(page.select, ContentSelectors);
    var content, contentHtml, images;
    if body.Some? {
      content := GetText(body.value, "\n");
      contentHtml := body.value.markup;
      images := ExtractImages(ImgTags(body.value.markup));
    } else {
      content := NoContent;
      contentHtml := [];
      images := [];
    }
    a := Article(title, author, publishTime, content, contentHtml, images, |content|, |images|, None, None);
  }
}
