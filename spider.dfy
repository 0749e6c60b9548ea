/**
 * The crawler object: its browser driver, the retrying crawl, the batch image download
 * and the saving of an article to its directory.
 */
module Spider {
  import opened Wrappers
  import opened Text
  import opened Dom
  import opened ImageRefs
  import opened Article
  import opened Download
  import opened Rewrite
  import opened Naming

  /** The three ways of starting Chrome, tried in this order. */
  datatype Tier = SystemDriver | ManagedDriver | DefaultDriver

  datatype Driver = NoDriver | Live(tier: Tier)

  /** The outcome of each way of starting Chrome: None when it works, else the error text. */
  datatype DriverHost = DriverHost(system: Option<string>, managed: Option<string>, default: Option<string>)

  const AllDriversFailed: string := "所有ChromeDriver初始化方法都失败: "

  /**
   * `setup_driver`: the first way that works gives the driver; when all three fail the
   * error names the last failure.
   */
  function StartDriver(host: DriverHost): (r: Result<Tier, string>)
    ensures r == Ok(SystemDriver) <==> host.system.None?
    ensures r == Ok(ManagedDriver) <==> host.system.Some? && host.managed.None?
    ensures r == Ok(DefaultDriver) <==> host.system.Some? && host.managed.Some? && host.default.None?
    ensures r.Err? <==> host.system.Some? && host.managed.Some? && host.default.Some?
    ensures r.Err? ==> r.error == AllDriversFailed + host.default.value
  {
    if host.system.None? then Ok(SystemDriver)
    else if host.managed.None? then Ok(ManagedDriver)
    else if host.default.None? then Ok(DefaultDriver)
    else Err(AllDriversFailed + host.default.value)
  }

  /** What one navigation attempt gives: an exception, or the page and its successive heights. */
  datatype PageLoad = LoadFailed(error: string) | Loaded(heights: seq<int>, page: Page)

  /** `range(retry_times)` has this many attempts. */
  function Attempts(retryTimes: int): nat {
    if retryTimes > 0 then retryTimes else 0
  }

  /** The first attempt in `[i, n)` whose navigation works; `n` when none does. */
  function FirstLoaded(loads: nat -> PageLoad, i: nat, n: nat): (k: nat)
    requires i <= n
    ensures i <= k <= n
    ensures k < n ==> loads(k).Loaded?
    ensures forall j :: i <= j < k ==> !loads(j).Loaded?
    decreases n - i
  {
    if i == n then n else if loads(i).Loaded? then i else FirstLoaded(loads, i + 1, n)
  }

  /** The first working attempt is `k` when none before it works and it does (or `k` is the end). */
  lemma FirstLoadedIs(loads: nat -> PageLoad, n: nat, k: nat)
    requires k <= n
    requires forall j :: 0 <= j < k ==> !loads(j).Loaded?
    requires k < n ==> loads(k).Loaded?
    ensures FirstLoaded(loads, 0, n) == k
  {
  }

  function Stamp(a: Article, url: string, time: string): Article {
    a.(url := Some(url), crawlTime := Some(time))
  }

  /**
   * What `crawl_article_by_url` returns: without a driver every attempt raises; otherwise
   * the article of the first attempt whose navigation works, stamped with its URL and time.
   */
  function Crawled(driver: Driver, url: string, retryTimes: int, loads: nat -> PageLoad,
                   clock: nat -> string): (r: Option<Article>)
    ensures r.Some? ==> driver.Live?
    ensures r.Some? ==> r.value.url == Some(url) && r.value.crawlTime.Some?
    ensures r.Some? ==> r.value.imageCount == |r.value.images|
  {
    var n := Attempts(retryTimes);
    var k := FirstLoaded(loads, 0, n);
    if driver.NoDriver? || k == n then None
    else Some(Stamp(ArticleOf(loads(k).page), url, clock(k)))
  }

  /**
   * The crawl fails only when no attempt can work: there is no driver, no attempt is
   * allowed, or every allowed navigation raises.
   */
  lemma {:induction false} CrawlFailsOnlyIfEveryAttemptFails(driver: Driver, url: string, retryTimes: int,
                                                             loads: nat -> PageLoad, clock: nat -> string)
    ensures Crawled(driver, url, retryTimes, loads, clock).None? <==>
      driver.NoDriver? || forall j :: 0 <= j < Attempts(retryTimes) ==> !loads(j).Loaded?
  {
    var n := Attempts(retryTimes);
    var k := FirstLoaded(loads, 0, n);
    if k < n {
      assert loads(k).Loaded?;
    }
  }

  /** One entry of `_last_saved_files`. */
  datatype SavedFile = SavedFile(kind: string, path: string)

  /** The files written while saving, in order. */
  datatype Write =
    | MadeDir(path: string)
    | WroteTxt(path: string, record: Article)
    | MadeImagesDir(path: string)
    | WroteJson(path: string, record: Article)
    | WroteHtml(path: string, record: Article, body: Html)

  datatype Batch = Disabled | DirFailed(message: string) | Done(successes: nat)

  /** The outcome of `save_article_to_file`: its answer, the record after the downloads, and the writes. */
  datatype Saving = Saving(ok: bool, saved: Article, writes: seq<Write>, manifest: seq<SavedFile>)

  /**
   * What saving does. The directory is `articles/<base>_<timestamp>`; the text file comes
   * first; the images are downloaded into `images/` (only when there are images and
   * downloading is enabled) before the JSON record is written, so the record carries their
   * outcome; the HTML page gets the body with its image addresses rewritten when there are
   * both a body and images. The first write that raises ends the save with `false`.
   */
  function SaveSpec(enabled: bool, a: Article, p: SavePaths, host: Host): (s: Saving)
    ensures s.ok <==> && host.io(p.dir).None? && host.io(p.txt).None?
                      && (a.images != [] && enabled ==> host.io(p.images).None?)
                      && host.io(p.json).None? && host.io(p.html).None?
  {
    var withImages := a.images != [] && enabled;
    if host.io(p.dir).Some? then Saving(false, a, [], [])
    else if host.io(p.txt).Some? then Saving(false, a, [MadeDir(p.dir)], [])
    else if withImages && host.io(p.images).Some? then Saving(false, a, [MadeDir(p.dir), WroteTxt(p.txt, a)], [])
    else
      var saved := if withImages then a.(images := DownloadedAll(a.images, p.images, host)) else a;
      var before := [MadeDir(p.dir), WroteTxt(p.txt, a)] + (if withImages then [MadeImagesDir(p.images)] else []);
      if host.io(p.json).Some? then Saving(false, saved, before, [])
      else if host.io(p.html).Some? then Saving(false, saved, before + [WroteJson(p.json, saved)], [])
      else
        Saving(true, saved, before + [WroteJson(p.json, saved), WroteHtml(p.html, saved, HtmlBody(a, saved.images))],
               [SavedFile("json", p.json), SavedFile("txt", p.txt), SavedFile("html", p.html)]
               + (if withImages then [SavedFile("images_dir", p.images)] else []))
  }

  /** Where the article's files go. */
  datatype SavePaths = SavePaths(dir: string, txt: string, json: string, html: string, images: string)

  /** `articles/<base>_<timestamp>` and `<dir>/<base>.txt`, `.json`, `.html`, `<dir>/images`. */
  function PathsFor(customName: string, title: string, timestamp: string): SavePaths {
    var base := BaseName(customName, title);
    var dir := SaveDir(base, timestamp);
    SavePaths(dir, PathJoin(dir, base + ".txt"), PathJoin(dir, base + ".json"), PathJoin(dir, base + ".html"),
              PathJoin(dir, "images"))
  }

  /** The body written into the HTML page: rewritten only when there are a body and images. */
  function HtmlBody(a: Article, images: seq<ImageInfo>): Html {
    if a.contentHtml != [] && a.images != [] then Rewritten(a.contentHtml, images) else a.contentHtml
  }

  /**
   * A complete save writes the directory, the text file, the images directory (when
   * images are downloaded), the JSON record and the HTML page, in that order; the JSON
   * record and the page carry the download outcome of every image.
   */
  lemma {:induction false} SaveOrder(enabled: bool, a: Article, p: SavePaths, host: Host)
    requires SaveSpec(enabled, a, p, host).ok
    ensures var w := SaveSpec(enabled, a, p, host).writes;
      && |w| == (if a.images != [] && enabled then 5 else 4)
      && w[0] == MadeDir(p.dir)
      && w[1] == WroteTxt(p.txt, a)
      && w[|w| - 2] == WroteJson(p.json,
                                 SaveSpec(enabled, a, p, host).saved)
      && w[|w| - 1].WroteHtml?
      && w[|w| - 1].record == SaveSpec(enabled, a, p, host).saved
  {
  }

  /**
   * The record after saving is the article with, when images were downloaded, every
   * image entry updated by the batch download; nothing else about it changes.
   */
  lemma {:induction false} SaveRecordsDownloads(enabled: bool, a: Article, p: SavePaths, host: Host)
    requires SaveSpec(enabled, a, p, host).ok
    ensures SaveSpec(enabled, a, p, host).saved
            == a.(images := SaveSpec(enabled, a, p, host).saved.images)
    ensures a.images != [] && enabled ==>
              SaveSpec(enabled, a, p, host).saved.images
              == DownloadedAll(a.images, p.images, host)
    ensures a.images == [] || !enabled ==> SaveSpec(enabled, a, p, host).saved.images == a.images
  {
  }

  /**
   * The manifest of a complete save lists json, txt and html, then the images directory
   * exactly when there were images to download; a failed save produces no manifest and
   * never writes the HTML page.
   */
  lemma {:induction false} SaveManifest(enabled: bool, a: Article, p: SavePaths, host: Host)
    ensures var s := SaveSpec(enabled, a, p, host);
      s.ok ==> (&& |s.manifest| == (if a.images != [] && enabled then 4 else 3)
                && s.manifest[0] == SavedFile("json", p.json)
                && s.manifest[1] == SavedFile("txt", p.txt)
                && s.manifest[2] == SavedFile("html", p.html)
                && (|s.manifest| == 4 ==>
                      s.manifest[3] == SavedFile("images_dir", p.images)))
    ensures var s := SaveSpec(enabled, a, p, host);
      !s.ok ==> s.manifest == [] && |s.writes| <= 4 && forall k :: 0 <= k < |s.writes| ==> !s.writes[k].WroteHtml?
  {
  }

  /**
   * Without a custom name the files lie directly inside the article directory, whose name
   * starts with `articles/`, given the digits-and-underscore timestamp of the source.
   */
  lemma {:induction false} TitleNamedFilesStayInDir(title: string, timestamp: string)
    requires forall i :: 0 <= i < |timestamp| ==> '0' <= timestamp[i] <= '9' || timestamp[i] == '_'
    ensures StartsWith(PathsFor("", title, timestamp).dir, "articles/")
    ensures var p := PathsFor("", title, timestamp);
      var base := BaseName("", title);
      && p.txt == p.dir + "/" + base + ".txt"
      && p.json == p.dir + "/" + base + ".json"
      && p.html == p.dir + "/" + base + ".html"
      && p.images == p.dir + "/images"
  {
    var base := BaseName("", title);
    var dir := SaveDir(base, timestamp);
    SaveDirUnderArticles(base, timestamp);
    BaseNameClean(title);
    FilesUnderDir(base, dir);
  }

  /** The files named after a clean base name, and `images`, lie directly in the directory. */
  lemma FilesUnderDir(base: string, dir: string)
    requires Clean(base) && dir != [] && dir[|dir| - 1] != '/'
    ensures PathJoin(dir, base + ".txt") == dir + "/" + base + ".txt"
    ensures PathJoin(dir, base + ".json") == dir + "/" + base + ".json"
    ensures PathJoin(dir, base + ".html") == dir + "/" + base + ".html"
    ensures PathJoin(dir, "images") == dir + "/images"
  {
    CleanNameNotAbsolute(base, ".txt");
    CleanNameNotAbsolute(base, ".json");
    CleanNameNotAbsolute(base, ".html");
    JoinUnder(dir, base + ".txt");
    JoinUnder(dir, base + ".json");
    JoinUnder(dir, base + ".html");
    JoinUnder(dir, "images");
  }

  /** The save directory lies under `articles/` and does not end with a '/' when the time does not. */
  lemma SaveDirUnderArticles(base: string, timestamp: string)
    requires forall i :: 0 <= i < |timestamp| ==> '0' <= timestamp[i] <= '9' || timestamp[i] == '_'
    ensures var dir := SaveDir(base, timestamp);
      StartsWith(dir, "articles/") && dir != [] && dir[|dir| - 1] != '/'
  {
    var dir := SaveDir(base, timestamp);
    assert dir[..9] == ("articles/" + base)[..9];
    assert dir[|dir| - 1] == ("_" + timestamp)[|timestamp|];
  }

  lemma JoinUnder(dir: string, name: string)
    requires dir != [] && dir[|dir| - 1] != '/' && !StartsWith(name, "/")
    ensures PathJoin(dir, name) == dir + "/" + name
  {
  }

  /** A clean base name followed by an extension is never an absolute path. */
  lemma CleanNameNotAbsolute(base: string, ext: string)
    requires Clean(base) && ext != [] && ext[0] == '.'
    ensures !StartsWith(base + ext, "/")
  {
    assert (base + ext)[0] == if base != [] then base[0] else ext[0];
  }

  /**
   * In the saved page every remaining img tag points into `images/`; when downloading is
   * off, every img tag of a body with extracted images becomes a placeholder.
   */
  lemma {:induction false} SavedPageImages(enabled: bool, a: Article, p: SavePaths, host: Host)
    requires SaveSpec(enabled, a, p, host).ok
    ensures var s := SaveSpec(enabled, a, p, host);
      var body := HtmlBody(a, s.saved.images);
      a.images != [] ==> forall i :: 0 <= i < |body| && body[i].Img? ==>
        StartsWith(Attr(body[i].attrs, "src"), LocalDir)
    ensures var s := SaveSpec(enabled, a, p, host);
      var body := HtmlBody(a, s.saved.images);
      a.images != [] && !enabled && (forall k :: 0 <= k < |a.images| ==> !a.images[k].downloadSuccess) ==>
        forall i :: 0 <= i < |body| ==> !body[i].Img?
  {
    var s := SaveSpec(enabled, a, p, host);
    if a.images != [] {
      if a.contentHtml != [] {
        OnlyLocalImagesRemain(a.contentHtml, s.saved.images);
        if !enabled && forall k :: 0 <= k < |a.images| ==> !a.images[k].downloadSuccess {
          NothingDownloadedNoImages(a.contentHtml, s.saved.images);
        }
      }
    }
  }

  lemma SuccessesStep(images: seq<ImageInfo>, i: nat, dir: string, host: Host)
    requires i < |images|
    ensures Successes(images[..i + 1], dir, host) == Successes(images[..i], dir, host)
              + (if images[i].url != [] && AfterDownload(images[i], i, dir, host).downloadSuccess then 1 else 0)
  {
    assert images[..i + 1][..i] == images[..i];
  }

  /**
   * One step of the batch: when the first `i` entries are done and the rest untouched,
   * writing the updated entry `i` keeps that true for `i + 1`.
   */
  lemma BatchStep(original: seq<ImageInfo>, before: seq<ImageInfo>, after: seq<ImageInfo>, i: nat,
                  dir: string, host: Host)
    requires i < |original| == |before|
    requires before[..i] == DownloadedAll(original, dir, host)[..i] && before[i..] == original[i..]
    requires after == before[i := AfterDownload(original[i], i, dir, host)]
    ensures after[..i + 1] == DownloadedAll(original, dir, host)[..i + 1]
    ensures after[i + 1..] == original[i + 1..]
  {
    var expected := DownloadedAll(original, dir, host);
    assert after[..i + 1] == before[..i] + [expected[i]];
    assert expected[..i + 1] == expected[..i] + [expected[i]];
    assert after[i + 1..] == before[i + 1..];
    assert before[i + 1..] == before[i..][1..];
    assert original[i + 1..] == original[i..][1..];
  }

  /** An entry without an address leaves the batch as it was. */
  lemma AfterDownloadSkips(img: ImageInfo, i: nat, dir: string, host: Host)
    requires img.url == []
    ensures AfterDownload(img, i, dir, host) == img
  {
  }

  class WeixinSpider {
    var driver: Driver
    var downloadImages: bool
    var lastSavedFiles: seq<SavedFile>

    constructor(downloadImages: bool)
      ensures driver == NoDriver && this.downloadImages == downloadImages && lastSavedFiles == []
    {
      driver := NoDriver;
      this.downloadImages := downloadImages;
      lastSavedFiles := [];
    }

    /** Tries the three ways in order; on failure the driver stays as it was. */
    method SetupDriver(host: DriverHost) returns (error: Option<string>)
      modifies this
      ensures StartDriver(host).Ok? ==> error.None? && driver == Live(StartDriver(host).value)
      ensures StartDriver(host).Err? ==> error == Some(StartDriver(host).error) && driver == old(driver)
      ensures downloadImages == old(downloadImages) && lastSavedFiles == old(lastSavedFiles)
    {
      if host.system.None? {
        driver := Live(SystemDriver);
      } else if host.managed.None? {
        driver := Live(ManagedDriver);
      } else if host.default.None? {
        driver := Live(DefaultDriver);
      } else {
        return Some(AllDriversFailed + host.default.value);
      }
      return None;
    }

    /** `WeixinSpider(download_images=...)`: the constructor raises when no driver starts. */
    static method Launch(downloadImages: bool, host: DriverHost) returns (r: Result<WeixinSpider, string>)
      ensures r.Ok? <==> StartDriver(host).Ok?
      ensures r.Ok? ==> fresh(r.value) && r.value.driver == Live(StartDriver(host).value)
                        && r.value.downloadImages == downloadImages && r.value.lastSavedFiles == []
      ensures r.Err? ==> r.error == StartDriver(host).error
    {
      var spider := new WeixinSpider(downloadImages);
      var error := spider.SetupDriver(host);
      if error.Some? {
        return Err(error.value);
      }
      return Ok(spider);
    }

    /** `close`: quitting drops the driver; when quitting raises, the driver is kept. */
    method Close(quitError: Option<string>)
      modifies this
      ensures old(driver).NoDriver? || quitError.None? ==> driver == NoDriver
      ensures old(driver).Live? && quitError.Some? ==> driver == old(driver)
      ensures downloadImages == old(downloadImages) && lastSavedFiles == old(lastSavedFiles)
    {
      if driver.Live? && quitError.None? {
        driver := NoDriver;
      }
    }

    /**
     * `_scroll_page`: scrolls to the bottom until the height stops changing. `heights` are
     * the successive answers to the height query; running out of them is the script error
     * the method swallows. Gives the number of scrolls and whether the height settled.
     */
    method ScrollPage(heights: seq<int>) returns (scrolls: nat, settled: bool)
      ensures settled <==> driver.Live? && exists j :: 1 <= j < |heights| && heights[j] == heights[j - 1]
      ensures settled ==> 1 <= scrolls < |heights| && heights[scrolls] == heights[scrolls - 1]
                          && forall j :: 1 <= j < scrolls ==> heights[j] != heights[j - 1]
      ensures !settled ==> scrolls == (if driver.Live? then |heights| else 0)
    {
      if driver.NoDriver? || heights == [] {
        return 0, false;
      }
      var lastHeight := heights[0];
      var i := 1;
      while i < |heights|
        invariant 1 <= i <= |heights|
        invariant lastHeight == heights[i - 1]
        invariant forall j :: 1 <= j < i ==> heights[j] != heights[j - 1]
      {
        var newHeight := heights[i];
        if newHeight == lastHeight {
          return i, true;
        }
        lastHeight := newHeight;
        i := i + 1;
      }
      return |heights|, false;
    }

    /**
     * `crawl_article_by_url`: tries up to `retry_times` navigations; the first that works
     * is scrolled, extracted and stamped. `loads(i)` is the i-th navigation, `clock(i)` the
     * time read after it.
     */
    method CrawlArticleByUrl(url: string, retryTimes: int, loads: nat -> PageLoad, clock: nat -> string)
      returns (article: Option<Article>, attempts: nat)
      ensures article == Crawled(driver, url, retryTimes, loads, clock)
      ensures attempts <= Attempts(retryTimes)
      ensures article.Some? ==> attempts == FirstLoaded(loads, 0, Attempts(retryTimes)) + 1
      ensures article.None? ==> attempts == Attempts(retryTimes)
    {
      var attempt := 0;
      while attempt < retryTimes
        invariant attempt <= Attempts(retryTimes)
        invariant driver.Live? ==> forall j :: 0 <= j < attempt ==> !loads(j).Loaded?
        decreases retryTimes - attempt
      {
        if driver.Live? && loads(attempt).Loaded? {
          var _, _ := ScrollPage(loads(attempt).heights);
          var a := ExtractArticleContent(loads(attempt).page);
          FirstLoadedIs(loads, Attempts(retryTimes), attempt);
          return Some(Stamp(a, url, clock(attempt))), attempt + 1;
        }
        attempt := attempt + 1;
      }
      if driver.Live? {
        FirstLoadedIs(loads, Attempts(retryTimes), attempt);
      }
      return None, attempt;
    }

    /** The body of the batch loop for one entry with an address. */
    method DownloadEntry(img: ImageInfo, i: nat, dir: string, host: Host) returns (updated: ImageInfo, success: bool)
      requires img.url != []
      ensures updated == AfterDownload(img, i, dir, host)
      ensures success == updated.downloadSuccess
    {
      var result := DownloadImage(img.url, dir, ImagePrefix(i), host, host.clock(i));
      match result {
        case Saved(filename, filepath) =>
          updated := img.(downloadSuccess := true, localPath := filepath, filename := filename);
          success := true;
        case Failed(message) =>
          updated := img.(downloadSuccess := false, error := Some(message));
          success := false;
      }
    }

    /**
     * `_download_all_images`: downloads every entry that has an address into `dir` and
     * records the outcome on the entry itself; gives the number of successes it logs.
     */
    method DownloadAll(images: array<ImageInfo>, dir: string, host: Host) returns (outcome: Batch)
      modifies images
      ensures !downloadImages ==> outcome == Disabled && images[..] == old(images[..])
      ensures downloadImages && host.io(dir).Some? ==>
                outcome == DirFailed(host.io(dir).value) && images[..] == old(images[..])
      ensures downloadImages && host.io(dir).None? ==>
                outcome == Done(Successes(old(images[..]), dir, host))
                && images[..] == DownloadedAll(old(images[..]), dir, host)
    {
      if !downloadImages {
        return Disabled;
      }
      if host.io(dir).Some? {
        return DirFailed(host.io(dir).value);
      }
      ghost var original := images[..];
      ghost var expected := DownloadedAll(original, dir, host);
      var successCount := 0;
      var i := 0;
      while i < images.Length
        invariant i <= images.Length
        invariant images[..i] == expected[..i]
        invariant images[i..] == original[i..]
        invariant successCount == Successes(original[..i], dir, host)
      {
        SuccessesStep(original, i, dir, host);
        ghost var before := images[..];
        var info := images[i];
        if info.url != [] {
          var success;
          info, success := DownloadEntry(info, i, dir, host);
          if success {
            successCount := successCount + 1;
          }
          images[i] := info;
        } else {
          AfterDownloadSkips(info, i, dir, host);
        }
        BatchStep(original, before, images[..], i, dir, host);
        i := i + 1;
      }
      assert original[..i] == original;
      assert images[..] == images[..i];
      return Done(successCount);
    }

    /**
     * The download step of saving: when there are images and downloading is enabled, the
     * entries are copied into a buffer the batch updates in place; otherwise nothing happens.
     * Gives whether the images directory could not be made, and the record afterwards.
     */
    method DownloadPhase(a: Article, imagesDir: string, host: Host) returns (failed: bool, saved: Article)
      ensures !(a.images != [] && downloadImages) ==> !failed && saved == a
      ensures a.images != [] && downloadImages ==> (failed <==> host.io(imagesDir).Some?)
      ensures failed ==> saved == a
      ensures a.images != [] && downloadImages && !failed ==>
                saved == a.(images := DownloadedAll(a.images, imagesDir, host))
    {
      saved := a;
      if a.images != [] && downloadImages {
        var buffer := new ImageInfo[|a.images|](k requires 0 <= k < |a.images| => a.images[k]);
        assert buffer[..] == a.images;
        var outcome := DownloadAll(buffer, imagesDir, host);
        if outcome.DirFailed? {
          return true, saved;
        }
        saved := a.(images := buffer[..]);
      }
      return false, saved;
    }

    /**
     * The writes of `save_article_to_file` once the paths are known: gives whether everything
     * was written and the record as it stands afterwards (its image entries carry the download
     * outcomes); the saved-files manifest is replaced only by a complete save.
     */
    method SaveTo(a: Article, p: SavePaths, host: Host) returns (ok: bool, saved: Article, writes: seq<Write>)
      modifies this
      ensures ok == SaveSpec(old(downloadImages), a, p, host).ok
      ensures saved == SaveSpec(old(downloadImages), a, p, host).saved
      ensures writes == SaveSpec(old(downloadImages), a, p, host).writes
      ensures ok ==> lastSavedFiles == SaveSpec(old(downloadImages), a, p, host).manifest
      ensures !ok ==> lastSavedFiles == old(lastSavedFiles)
      ensures driver == old(driver) && downloadImages == old(downloadImages)
    {
      saved := a;
      writes := [];
      if host.io(p.dir).Some? {
        return false, saved, writes;
      }
      writes := writes + [MadeDir(p.dir)];
      if host.io(p.txt).Some? {
        return false, saved, writes;
      }
      writes := writes + [WroteTxt(p.txt, a)];
      var failed;
      failed, saved := DownloadPhase(a, p.images, host);
      if failed {
        return false, saved, writes;
      }
      if a.images != [] && downloadImages {
        writes := writes + [MadeImagesDir(p.images)];
      }
      if host.io(p.json).Some? {
        return false, saved, writes;
      }
      writes := writes + [WroteJson(p.json, saved)];
      var body := a.contentHtml;
      if a.contentHtml != [] && a.images != [] {
        body := ReplaceImageUrls(a.contentHtml, saved.images);
      }
      if host.io(p.html).Some? {
        return false, saved, writes;
      }
      writes := writes + [WroteHtml(p.html, saved, body)];
      lastSavedFiles := [SavedFile("json", p.json), SavedFile("txt", p.txt), SavedFile("html", p.html)];
      if a.images != [] && downloadImages {
        lastSavedFiles := lastSavedFiles + [SavedFile("images_dir", p.images)];
      }
      return true, saved, writes;
    }

    /** `save_article_to_file`: the files go under the directory named after the custom name or the title. */
    method SaveArticleToFile(a: Article, customName: string, timestamp: string, host: Host)
      returns (ok: bool, saved: Article, writes: seq<Write>)
      modifies this
      ensures ok == SaveSpec(old(downloadImages), a, PathsFor(customName, a.title, timestamp), host).ok
      ensures saved == SaveSpec(old(downloadImages), a, PathsFor(customName, a.title, timestamp), host).saved
      ensures writes == SaveSpec(old(downloadImages), a, PathsFor(customName, a.title, timestamp), host).writes
      ensures ok ==> lastSavedFiles == SaveSpec(old(downloadImages), a, PathsFor(customName, a.title, timestamp), host).manifest
      ensures !ok ==> lastSavedFiles == old(lastSavedFiles)
      ensures driver == old(driver) && downloadImages == old(downloadImages)
    {
      ok, saved, writes := SaveTo(a, PathsFor(customName, a.title, timestamp), host);
    }
  }
}
