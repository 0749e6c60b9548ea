/**
 * Fetching one image: the file name, the extension rule, inline data URLs, and the
 * outcome recorded on each image entry by the batch download.
 */
module Download {
  import opened Wrappers
  import opened Text
  import opened ImageRefs

  /** The answer of `session.get(url, timeout=30)` followed by `raise_for_status()`. */
  datatype Reply = Fetched(contentType: string) | FetchFailed(message: string)

  /**
   * The world outside the spider: HTTP, base64 decoding, the filesystem and the clock.
   * `decode` and `io` give None on success and the exception text when they raise;
   * `clock(i)` is the millisecond timestamp read while saving the i-th image.
   */
  datatype Host = Host(
    fetch: string -> Reply,
    decode: string -> Option<string>,
    io: string -> Option<string>,
    clock: nat -> nat)

  datatype Download = Saved(filename: string, filepath: string) | Failed(message: string)

  /** `os.path.join(a, b)` */
  function PathJoin(a: string, b: string): string {
    if StartsWith(b, "/") then b
    else if a == [] || EndsWith(a, "/") then a + b
    else a + "/" + b
  }

  predicate IsAsciiLetter(c: char) {
    'a' <= c <= 'z' || 'A' <= c <= 'Z'
  }

  predicate IsSchemeChar(c: char) {
    IsAsciiLetter(c) || '0' <= c <= '9' || c == '+' || c == '-' || c == '.'
  }

  /** The URL opens with a `scheme:` prefix that `urlsplit` recognises. */
  predicate HasScheme(u: string) {
    var head := Before(u, ':');
    |head| < |u| && head != [] && IsAsciiLetter(head[0])
    && (forall i :: 0 <= i < |head| ==> IsSchemeChar(head[i]))
  }

  /** `urlsplit(u).scheme`: lower-cased, empty when there is none. */
  function SchemeOf(u: string): string {
    if HasScheme(u) then AsciiLower(Before(u, ':')) else ""
  }

  /** What `urlsplit` leaves after taking off a `scheme:` prefix. */
  function DropScheme(u: string): string {
    if HasScheme(u) then After(u, ':') else u
  }

  /** Drops the network location: everything before the first '/', '?' or '#'. */
  function DropNetloc(s: string): string {
    if s == [] || s[0] == '/' || s[0] == '?' || s[0] == '#' then s else DropNetloc(s[1..])
  }

  /** `urllib.parse.uses_params`: the schemes whose last path segment may carry `;params`. */
  const UsesParams: set<string> :=
    {"", "ftp", "hdl", "prospero", "http", "imap", "https", "shttp", "rtsp", "rtspu",
     "sip", "sips", "mms", "sftp", "tel"}


  /** `_splitparams(p)[0]`: the last segment of `p` stops before its first ';'. */
  function DropParams(p: string): (r: string)
    ensures var sep := RFind(r, '/'); ';' !in r[sep + 1..]
    ensures r <= p
  {
    var sep := RFind(p, '/');
    var head, last := p[..sep + 1], Before(p[sep + 1..], ';');
    DropParamsCuts(p, head, p[sep + 1..], last);
    head + last
  }

  /** Keeping `head` whole and a prefix `last` of the slash-free rest leaves the last '/' where it was. */
  lemma DropParamsCuts(p: string, head: string, tail: string, last: string)
    requires head == p[..RFind(p, '/') + 1] && tail == p[RFind(p, '/') + 1..]
    requires last <= tail
    ensures RFind(head + last, '/') == |head| - 1
    ensures (head + last)[|head|..] == last
    ensures head + last <= p
  {
    var sep := RFind(p, '/');
    assert '/' !in tail;
    PrefixLacks(last, tail, '/');
    RFindPastEnd(head, last, '/');
    if sep >= 0 {
      RFindIs(head, '/', sep);
    }
    assert head + last <= head + tail;
    assert head + tail == p;
  }

  /** Parameters after the last segment's name are cut off, whatever the segments before it hold. */
  lemma DropParamsKeepsName(dirs: string, name: string, params: string)
    requires '/' !in name && ';' !in name && '/' !in params
    ensures DropParams(dirs + "/" + name + ";" + params) == dirs + "/" + name
  {
    var p := dirs + "/" + name + ";" + params;
    var sep := |dirs|;
    assert p[sep] == '/';
    assert p[sep + 1..] == name + ";" + params;
    RFindIs(p, '/', sep);
    BeforeIs(p[sep + 1..], ';', |name|);
    assert p[..sep + 1] == dirs + "/";
  }

  /**
   * `urlparse(u).path`: what follows the scheme and network location, before any query or
   * fragment, without the `;params` of its last segment for the schemes that use them.
   */
  function UrlPath(u: string): (r: string)
    ensures '?' !in r && '#' !in r
    ensures SchemeOf(u) in UsesParams ==> ';' !in r[RFind(r, '/') + 1..]
  {
    var rest := DropScheme(u);
    var rest' := if StartsWith(rest, "//") then DropNetloc(rest[2..]) else rest;
    var beforeFragment := Before(rest', '#');
    var path := Before(beforeFragment, '?');
    PrefixLacks(path, beforeFragment, '#');
    if SchemeOf(u) in UsesParams then
      var r := DropParams(path);
      PrefixLacks(r, path, '#');
      PrefixLacks(r, path, '?');
      r
    else path
  }

  predicate AllDots(s: string) {
    forall i :: 0 <= i < |s| ==> s[i] == '.'
  }

  /** `os.path.splitext(p)[1]`: leading dots of the last component do not start an extension. */
  function SplitExt(p: string): string {
    var sep := RFind(p, '/');
    var dot := RFind(p, '.');
    if dot > sep && !AllDots(p[sep + 1..dot]) then p[dot..] else ""
  }

  const KnownSuffixes: seq<string> := [".jpg", ".jpeg", ".png", ".gif", ".webp"]

  predicate HasKnownSuffix(path: string) {
    exists k :: 0 <= k < |KnownSuffixes| && EndsWith(path, KnownSuffixes[k])
  }

  /** Every extension the rule can produce. */
  const Extensions: set<string> := {".jpg", ".jpeg", ".png", ".gif", ".webp", ""}

  /** A path that ends with one of the known suffixes has that suffix as its extension, or none. */
  lemma SplitExtOfKnown(path: string, k: nat)
    requires k < |KnownSuffixes| && EndsWith(path, KnownSuffixes[k])
    ensures SplitExt(path) == KnownSuffixes[k] || SplitExt(path) == ""
  {
    var suf := KnownSuffixes[k];
    var at := |path| - |suf|;
    assert suf[0] == '.' && forall i :: 1 <= i < |suf| ==> suf[i] != '.' && suf[i] != '/';
    assert forall i :: at < i < |path| ==> path[i] == suf[i - at];
    assert path[at] == suf[0];
    var dot := RFind(path, '.');
    assert dot == at;
    assert path[dot..] == suf;
  }

  /** The content type mentions one of the image types the rule looks for. */
  predicate NamesImageType(contentType: string) {
    Contains(contentType, "jpeg") || Contains(contentType, "jpg") || Contains(contentType, "png")
    || Contains(contentType, "gif") || Contains(contentType, "webp")
  }

  /**
   * The extension of a downloaded file: the content type decides first (jpeg or jpg,
   * then png, gif, webp); failing that, the lower-cased URL path's own known suffix;
   * failing that, ".jpg".
   */
  function ExtensionFor(contentType: string, url: string): (ext: string)
    ensures ext in Extensions
    ensures Contains(contentType, "jpeg") || Contains(contentType, "jpg") ==> ext == ".jpg"
    ensures !Contains(contentType, "jpeg") && !Contains(contentType, "jpg") && Contains(contentType, "png") ==> ext == ".png"
    ensures (!Contains(contentType, "jpeg") && !Contains(contentType, "jpg") && !Contains(contentType, "png")
             && Contains(contentType, "gif")) ==> ext == ".gif"
    ensures (!Contains(contentType, "jpeg") && !Contains(contentType, "jpg") && !Contains(contentType, "png")
             && !Contains(contentType, "gif") && Contains(contentType, "webp")) ==> ext == ".webp"
    ensures !NamesImageType(contentType) ==>
              var path := AsciiLower(UrlPath(url));
              ext == if HasKnownSuffix(path) then SplitExt(path) else ".jpg"
    ensures ext == "" ==> !NamesImageType(contentType)
  {
    if Contains(contentType, "jpeg") || Contains(contentType, "jpg") then ".jpg"
    else if Contains(contentType, "png") then ".png"
    else if Contains(contentType, "gif") then ".gif"
    else if Contains(contentType, "webp") then ".webp"
    else
      var path := AsciiLower(UrlPath(url));
      if HasKnownSuffix(path) then
        var k :| 0 <= k < |KnownSuffixes| && EndsWith(path, KnownSuffixes[k]);
        SplitExtOfKnown(path, k);
        SplitExt(path)
      else ".jpg"
  }

  /** `f"{prefix}_{timestamp}{ext}"` */
  function FileName(prefix: string, stamp: nat, ext: string): string {
    prefix + "_" + NatToString(stamp) + ext
  }

  /** `_save_data_url_image_as_png`: decode the part after the first comma and save it as PNG. */
  function SaveDataUrl(dataUrl: string, dir: string, prefix: string, host: Host, stamp: nat): (r: Download)
    ensures ',' !in dataUrl ==> r == Failed(UnpackError)
    ensures r.Saved? <==> ',' in dataUrl && host.decode(After(dataUrl, ',')).None?
                          && host.io(PathJoin(dir, FileName(prefix, stamp, ".png"))).None?
    ensures r.Saved? ==> r.filename == FileName(prefix, stamp, ".png") && r.filepath == PathJoin(dir, r.filename)
  {
    if ',' !in dataUrl then Failed(UnpackError)
    else
      match host.decode(After(dataUrl, ','))
      case Some(m) => Failed(m)
      case None =>
        var filename := FileName(prefix, stamp, ".png");
        var path := PathJoin(dir, filename);
        match host.io(path)
        case Some(m) => Failed(m)
        case None => Saved(filename, path)
  }

  /** `_download_image`: a data URL is decoded in place; anything else goes over HTTP. */
  function DownloadImage(url: string, dir: string, prefix: string, host: Host, stamp: nat): (r: Download)
    ensures StartsWith(url, "data:") ==> r == SaveDataUrl(url, dir, prefix, host, stamp)
    ensures !StartsWith(url, "data:") && host.fetch(url).FetchFailed? ==> r == Failed(host.fetch(url).message)
    ensures !StartsWith(url, "data:") && host.fetch(url).Fetched? && r.Saved? ==>
              r.filename == FileName(prefix, stamp, ExtensionFor(host.fetch(url).contentType, url))
    ensures !StartsWith(url, "data:") && host.fetch(url).Fetched? ==>
              (r.Saved? <==> host.io(PathJoin(dir, FileName(prefix, stamp, ExtensionFor(host.fetch(url).contentType, url)))).None?)
    ensures r.Saved? ==> r.filepath == PathJoin(dir, r.filename)
  {
    if StartsWith(url, "data:") then SaveDataUrl(url, dir, prefix, host, stamp)
    else
      match host.fetch(url)
      case FetchFailed(m) => Failed(m)
      case Fetched(contentType) =>
        var filename := FileName(prefix, stamp, ExtensionFor(contentType, url));
        var path := PathJoin(dir, filename);
        match host.io(path)
        case Some(m) => Failed(m)
        case None => Saved(filename, path)
  }

  /** A saved image is named `<prefix>_<timestamp><ext>` with one of the rule's extensions. */
  lemma SavedFileNaming(url: string, dir: string, prefix: string, host: Host, stamp: nat)
    requires DownloadImage(url, dir, prefix, host, stamp).Saved?
    ensures exists ext :: ext in Extensions && DownloadImage(url, dir, prefix, host, stamp).filename == FileName(prefix, stamp, ext)
  {
  }

  /**
   * A data URL never reaches the HTTP client, whatever it would answer, and when it is
   * saved the file is a ".png".
   */
  lemma DataUrlIsPngWithoutFetch(url: string, dir: string, prefix: string, host: Host, stamp: nat,
                                 other: string -> Reply)
    requires StartsWith(url, "data:")
    ensures DownloadImage(url, dir, prefix, host, stamp) == DownloadImage(url, dir, prefix, host.(fetch := other), stamp)
    ensures DownloadImage(url, dir, prefix, host, stamp).Saved? ==>
              EndsWith(DownloadImage(url, dir, prefix, host, stamp).filename, ".png")
  {
  }

  /** The file name prefix of the image at 0-based position `i`. */
  function ImagePrefix(i: nat): string {
    "img_" + NatToString(i + 1)
  }

  /** The entry at position `i` after the batch download has handled it. */
  function AfterDownload(img: ImageInfo, i: nat, dir: string, host: Host): ImageInfo {
    if img.url == [] then img
    else
      match DownloadImage(img.url, dir, ImagePrefix(i), host, host.clock(i))
      case Saved(f, p) => img.(downloadSuccess := true, localPath := p, filename := f)
      case Failed(m) => img.(downloadSuccess := false, error := Some(m))
  }

  function DownloadedAll(images: seq<ImageInfo>, dir: string, host: Host): (r: seq<ImageInfo>)
    ensures |r| == |images|
  {
    seq(|images|, i requires 0 <= i < |images| => AfterDownload(images[i], i, dir, host))
  }

  /** How many of the entries that have an address were downloaded. */
  function Successes(images: seq<ImageInfo>, dir: string, host: Host): (n: nat)
    ensures n <= |images|
  {
    if images == [] then 0
    else
      var k := |images| - 1;
      Successes(images[..k], dir, host)
        + (if images[k].url != [] && AfterDownload(images[k], k, dir, host).downloadSuccess then 1 else 0)
  }

  /**
   * An entry without an address is left as it was. Any other entry keeps its identity
   * and ends with exactly one outcome: downloaded with a file name and path, or not
   * downloaded with an error.
   */
  lemma OneOutcomePerImage(img: ImageInfo, i: nat, dir: string, host: Host)
    ensures var r := AfterDownload(img, i, dir, host);
      && (img.url == [] ==> r == img)
      && (img.url != [] ==>
            && r.(downloadSuccess := img.downloadSuccess, localPath := img.localPath,
                  filename := img.filename, error := img.error) == img
            && ((r.downloadSuccess && r.filename != [] && r.localPath != [] && r.error == img.error)
                || (!r.downloadSuccess && r.error.Some? && r.filename == img.filename)))
  {
    var r := AfterDownload(img, i, dir, host);
    if img.url != [] && r.downloadSuccess {
      var d := DownloadImage(img.url, dir, ImagePrefix(i), host, host.clock(i));
      assert d.Saved? && d.filepath == PathJoin(dir, d.filename);
      assert d.filename[0] == 'i';
    }
  }
}
