/**
 * The article service: the process-wide spider instance and the crawl tool that validates
 * the address, crawls, saves and reports.
 */
module Service {
  import opened Wrappers
  import opened Text
  import opened ImageRefs
  import opened Article
  import opened Download
  import opened Analysis
  import opened Spider

  const ArticlePrefix: string := "https://mp.weixin.qq.com/"
  const InvalidUrl: string := "无效的微信文章URL，必须以 https://mp.weixin.qq.com/ 开头"
  const NoArticle: string := "无法获取文章内容，请检查URL是否正确或网络连接"
  const SaveFailed: string := "文章爬取成功但保存文件时出错"
  const CrawlFailed: string := "爬取失败: "
  const InitFailed: string := "无法初始化爬虫实例: "
  const RecreateFailed: string := "无法创建爬虫实例: "

  /** The crawl tool accepts only article addresses on the platform's own host. */
  predicate ValidArticleUrl(url: string) {
    url != [] && StartsWith(url, ArticlePrefix)
  }

  /**
   * What `get_spider_instance` raises, given the current instance's driver (None when there
   * is no instance) and the outcome of each driver start it may attempt: the first creation,
   * the re-setup of a driverless instance, and the replacement instance.
   */
  function InstanceFailure(existing: Option<Driver>, create: DriverHost, resetup: DriverHost,
                           recreate: DriverHost): (r: Option<string>)
    ensures existing.None? ==> (r.Some? <==> StartDriver(create).Err?)
    ensures existing.Some? ==>
              (r.Some? <==> existing.value.NoDriver? && StartDriver(resetup).Err? && StartDriver(recreate).Err?)
    ensures r.Some? ==> StartsWith(r.value, if existing.None? then InitFailed else RecreateFailed)
  {
    match existing
    case None =>
      if StartDriver(create).Err? then Some(InitFailed + StartDriver(create).error) else None
    case Some(d) =>
      if d.NoDriver? && StartDriver(resetup).Err? && StartDriver(recreate).Err?
      then Some(RecreateFailed + StartDriver(recreate).error)
      else None
  }

  datatype ArticleSummary = ArticleSummary(
    title: string, author: string, publishTime: string, url: string, contentLength: nat,
    wordCount: nat, imagesCount: nat, crawlTime: string, imagesDownloaded: Option<string>)

  /** The crawl tool's answer; `imagesSaved` is the "images" flag of the saved-files report. */
  datatype CrawlReply =
    | CrawlError(message: string)
    | CrawlSuccess(article: ArticleSummary, imagesSaved: bool)

  /** `"<downloaded>/<total>"` */
  function DownloadRatio(images: seq<ImageInfo>): string {
    NatToString(Downloaded(images)) + "/" + NatToString(|images|)
  }

  /** A digit string, a slash and anything: the two sides come back apart. */
  lemma {:induction false} SplitAtSlash(k: string, n: string)
    requires forall i :: 0 <= i < |k| ==> '0' <= k[i] <= '9'
    ensures Before(k + "/" + n, '/') == k
    ensures After(k + "/" + n, '/') == n
    decreases |k|
  {
    if k == [] {
      assert k + "/" + n == "/" + n;
      assert ("/" + n)[1..] == n;
    } else {
      assert (k + "/" + n)[0] == k[0];
      assert (k + "/" + n)[1..] == k[1..] + "/" + n;
      SplitAtSlash(k[1..], n);
      assert [k[0]] + k[1..] == k;
    }
  }

  /** The ratio reads back as the downloaded count before the slash and the total after it. */
  lemma DownloadRatioReadsBack(images: seq<ImageInfo>)
    ensures Before(DownloadRatio(images), '/') == NatToString(Downloaded(images))
    ensures After(DownloadRatio(images), '/') == NatToString(|images|)
    ensures Downloaded(images) <= |images|
  {
    SplitAtSlash(NatToString(Downloaded(images)), NatToString(|images|));
  }

  /** The success answer for the record as it stands after saving. */
  function SuccessReply(saved: Article, downloadImages: bool): (r: CrawlReply)
    ensures r.CrawlSuccess? && r.imagesSaved == downloadImages
    ensures r.article.imagesDownloaded.Some? <==> downloadImages
    ensures r.article.imagesCount == |saved.images| && r.article.contentLength == |saved.content|
  {
    CrawlSuccess(
      ArticleSummary(saved.title, saved.author, saved.publishTime, OrEmpty(saved.url), |saved.content|,
                     saved.wordCount, |saved.images|, OrEmpty(saved.crawlTime),
                     if downloadImages then Some(DownloadRatio(saved.images)) else None),
      downloadImages)
  }

  /** What the crawl tool answers once it holds an instance with the given driver. */
  function ReplyWith(driver: Driver, url: string, downloadImages: bool, customName: string,
                     env: Environment): CrawlReply {
    match Crawled(driver, url, 3, env.loads, env.clock)
    case None => CrawlError(NoArticle)
    case Some(a) =>
      var s := SaveSpec(downloadImages, a, PathsFor(customName, a.title, env.timestamp), env.host);
      if s.ok then SuccessReply(s.saved, downloadImages) else CrawlError(SaveFailed)
  }

  /** The outside world a crawl call sees. */
  datatype Environment = Environment(
    create: DriverHost, resetup: DriverHost, recreate: DriverHost,
    loads: nat -> PageLoad, clock: nat -> string, timestamp: string, host: Host)

  /**
   * When downloading, the reported ratio reads back as the downloaded count of the saved
   * record before the slash and its image count after it.
   */
  lemma SuccessRatio(saved: Article)
    ensures var r := SuccessReply(saved, true).article.imagesDownloaded.value;
      && Before(r, '/') == NatToString(Downloaded(saved.images))
      && After(r, '/') == NatToString(SuccessReply(saved, true).article.imagesCount)
      && Downloaded(saved.images) <= |saved.images|
  {
    DownloadRatioReadsBack(saved.images);
  }

  /** A successful answer reports the address that was asked for. */
  lemma SuccessReportsRequest(driver: Driver, url: string, downloadImages: bool, customName: string,
                              env: Environment)
    requires ReplyWith(driver, url, downloadImages, customName, env).CrawlSuccess?
    ensures ReplyWith(driver, url, downloadImages, customName, env).article.url == url
  {
    var a := Crawled(driver, url, 3, env.loads, env.clock).value;
    SaveRecordsDownloads(downloadImages, a, PathsFor(customName, a.title, env.timestamp), env.host);
  }

  class SpiderService {
    /** The global `spider_instance`; null until the first call. */
    var spider: WeixinSpider?

    constructor()
      ensures spider == null
    {
      spider := null;
    }

    /** The current instance's driver, None when there is no instance. */
    function Existing(): Option<Driver>
      reads this, spider
    {
      if spider == null then None else Some(spider.driver)
    }

    /**
     * `get_spider_instance`: creates the instance when there is none; when its driver is
     * gone, sets the driver up again and, failing that, replaces the instance. It raises only
     * when the creation, or the replacement, fails.
     */
    method GetSpiderInstance(create: DriverHost, resetup: DriverHost, recreate: DriverHost)
      returns (r: Result<WeixinSpider, string>)
      modifies this, spider
      ensures r.Err? <==> InstanceFailure(old(Existing()), create, resetup, recreate).Some?
      ensures r.Err? ==> Some(r.error) == InstanceFailure(old(Existing()), create, resetup, recreate)
      ensures r.Ok? ==> spider == r.value && spider.driver.Live?
      ensures r.Err? ==> spider == old(spider) && (spider != null ==> spider.driver == old(spider.driver))
      ensures old(spider) != null && old(spider.driver).Live? ==> r == Ok(old(spider)) && unchanged(old(spider))
      ensures old(spider) != null && old(spider.driver).NoDriver? && StartDriver(resetup).Ok? ==>
                r == Ok(old(spider)) && spider.driver == Live(StartDriver(resetup).value)
      ensures r.Ok? && old(spider) == null ==> fresh(spider) && spider.driver == Live(StartDriver(create).value)
      ensures spider != null && spider != old(spider) ==> fresh(spider) && spider.downloadImages
    {
      if spider == null {
        var made := WeixinSpider.Launch(true, create);
        if made.Err? {
          return Err(InitFailed + made.error);
        }
        spider := made.value;
      }
      if spider.driver.NoDriver? {
        var error := spider.SetupDriver(resetup);
        if error.Some? {
          var made := WeixinSpider.Launch(true, recreate);
          if made.Err? {
            return Err(RecreateFailed + made.error);
          }
          spider := made.value;
        }
      }
      return Ok(spider);
    }

    /**
     * `crawl_weixin_article`: rejects a foreign address without touching the instance;
     * otherwise obtains the instance, sets its download switch, crawls with three attempts
     * and saves. A failure to obtain the instance is reported with the "爬取失败: " prefix.
     */
    method CrawlWeixinArticle(url: string, downloadImages: bool, customName: string, env: Environment)
      returns (reply: CrawlReply)
      modifies this, spider
      ensures !ValidArticleUrl(url) ==>
                reply == CrawlError(InvalidUrl) && spider == old(spider) && unchanged(this)
                && (spider != null ==> unchanged(spider))
      ensures ValidArticleUrl(url) && InstanceFailure(old(Existing()), env.create, env.resetup, env.recreate).Some? ==>
                reply == CrawlError(CrawlFailed + InstanceFailure(old(Existing()), env.create, env.resetup, env.recreate).value)
      ensures ValidArticleUrl(url) && InstanceFailure(old(Existing()), env.create, env.resetup, env.recreate).None? ==>
                && spider != null && spider.driver.Live? && spider.downloadImages == downloadImages
                && reply == ReplyWith(spider.driver, url, downloadImages, customName, env)
      ensures reply.CrawlSuccess? ==> ValidArticleUrl(url) && reply.article.url == url
    {
      if !ValidArticleUrl(url) {
        return CrawlError(InvalidUrl);
      }
      var got := GetSpiderInstance(env.create, env.resetup, env.recreate);
      if got.Err? {
        return CrawlError(CrawlFailed + got.error);
      }
      var s := got.value;
      s.downloadImages := downloadImages;
      var article, _ := s.CrawlArticleByUrl(url, 3, env.loads, env.clock);
      if article.None? {
        return CrawlError(NoArticle);
      }
      var ok, saved, _ := s.SaveArticleToFile(article.value, customName, env.timestamp, env.host);
      if !ok {
        return CrawlError(SaveFailed);
      }
      reply := SuccessReply(saved, downloadImages);
      SuccessReportsRequest(s.driver, url, downloadImages, customName, env);
    }
  }
}
