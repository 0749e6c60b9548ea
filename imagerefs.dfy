/** The image records the extractor builds from the `img` tags of the article body. */
module ImageRefs {
  import opened Wrappers
  import opened Text
  import opened Dom

  /** One entry of the article's `images` list. `url` is "" when the entry has none. */
  datatype ImageInfo = ImageInfo(
    index: nat,            // 1-based position among all img tags of the body
    alt: string,
    title: string,
    originalSrc: string,   // the `src` attribute
    dataSrc: string,       // the lazy-load `data-src` attribute
    downloadSuccess: bool,
    localPath: string,
    filename: string,
    url: string,           // the effective, normalised address
    error: Option<string>) // set only when a download failed

  const WeixinOrigin: string := "https://mp.weixin.qq.com"

  /** The lazy-load address wins over `src` when it is non-empty. */
  function EffectiveUrl(dataSrc: string, src: string): string {
    if dataSrc != [] then dataSrc else src
  }

  /**
   * Makes a protocol-relative (`//host/p`) or host-relative (`/p`) address absolute;
   * any other address is kept as it is.
   */
  function NormalizeUrl(u: string): (r: string)
  {
    if StartsWith(u, "//") then "https:" + u
    else if StartsWith(u, "/") then WeixinOrigin + u
    else u
  }

  /**
   * The normalised address ends with the original one, starts with `https://` when the
   * original was relative (with the article host when it was host-relative), is the
   * original itself otherwise, and is never relative.
   */
  lemma NormalizeUrlShape(u: string)
    ensures EndsWith(NormalizeUrl(u), u)
    ensures StartsWith(u, "/") ==> StartsWith(NormalizeUrl(u), "https://")
    ensures StartsWith(u, "/") && !StartsWith(u, "//") ==> StartsWith(NormalizeUrl(u), WeixinOrigin + "/")
    ensures !StartsWith(u, "/") ==> NormalizeUrl(u) == u
    ensures !StartsWith(NormalizeUrl(u), "/")
  {
    if StartsWith(u, "//") {
      assert ("https:" + u)[..8] == "https:" + u[..2];
    } else if StartsWith(u, "/") {
      assert (WeixinOrigin + u)[..|WeixinOrigin| + 1] == WeixinOrigin + u[..1];
      assert (WeixinOrigin + u)[0] == 'h';
    }
  }

  predicate HasSource(tag: Attrs) {
    EffectiveUrl(Attr(tag, "data-src"), Attr(tag, "src")) != []
  }

  /** The record built for the img tag at 0-based position `position`. */
  function NewImage(tag: Attrs, position: nat): ImageInfo {
    ImageInfo(position + 1, Attr(tag, "alt"), Attr(tag, "title"), Attr(tag, "src"), Attr(tag, "data-src"),
              false, "", "", NormalizeUrl(EffectiveUrl(Attr(tag, "data-src"), Attr(tag, "src"))), None)
  }

  /** The images extracted from a body whose img tags are `tags`, in document order. */
  function ImagesOf(tags: seq<Attrs>): seq<ImageInfo> {
    if tags == [] then []
    else
      var n := |tags| - 1;
      ImagesOf(tags[..n]) + (if HasSource(tags[n]) then [NewImage(tags[n], n)] else [])
  }

  /** Walks the img tags and keeps those that have an address, as `_extract_images_from_content`. */
  method ExtractImages(tags: seq<Attrs>) returns (images: seq<ImageInfo>)
    ensures images == ImagesOf(tags)
  {
    images := [];
    var i := 0;
    while i < |tags|
      invariant i <= |tags|
      invariant images == ImagesOf(tags[..i])
    {
      var img := tags[i];
      var info := ImageInfo(i + 1, Attr(img, "alt"), Attr(img, "title"), Attr(img, "src"), Attr(img, "data-src"),
                            false, "", "", "", None);
      var url := if info.dataSrc != [] then info.dataSrc else info.originalSrc;
      if url != [] {
        if StartsWith(url, "//") {
          url := "https:" + url;
        } else if StartsWith(url, "/") {
          url := WeixinOrigin + url;
        }
        info := info.(url := url);
        images := images + [info];
      }
      assert tags[..i + 1][..i] == tags[..i];
      i := i + 1;
    }
    assert tags[..i] == tags;
  }

  /** `img` is the record built for the img tag at 0-based position `img.index - 1`, which has an address. */
  predicate BuiltFrom(tags: seq<Attrs>, img: ImageInfo) {
    1 <= img.index <= |tags| && HasSource(tags[img.index - 1]) && img == NewImage(tags[img.index - 1], img.index - 1)
  }

  /** A new record starts out not downloaded, with a non-empty address that is not relative. */
  lemma NewImageFresh(tag: Attrs, position: nat)
    requires HasSource(tag)
    ensures NewImage(tag, position).url != [] && !StartsWith(NewImage(tag, position).url, "/")
    ensures !NewImage(tag, position).downloadSuccess && NewImage(tag, position).error.None?
  {
    var u := EffectiveUrl(Attr(tag, "data-src"), Attr(tag, "src"));
    NormalizeUrlShape(u);
  }

  /**
   * Every extracted image comes from the img tag at position `index - 1`, which has an
   * address; nothing starts out downloaded and no stored address is empty or relative.
   */
  lemma {:induction false} ImagesOfAt(tags: seq<Attrs>, k: nat)
    requires k < |ImagesOf(tags)|
    ensures BuiltFrom(tags, ImagesOf(tags)[k])
    ensures ImagesOf(tags)[k].url != [] && !StartsWith(ImagesOf(tags)[k].url, "/")
    ensures !ImagesOf(tags)[k].downloadSuccess && ImagesOf(tags)[k].error.None?
  {
    var n := |tags| - 1;
    var prefix := ImagesOf(tags[..n]);
    assert ImagesOf(tags) == prefix + (if HasSource(tags[n]) then [NewImage(tags[n], n)] else []);
    var img := ImagesOf(tags)[k];
    assert BuiltFrom(tags, img) by {
      if k < |prefix| {
        ImagesOfAt(tags[..n], k);
        assert img == prefix[k];
        assert tags[..n][img.index - 1] == tags[img.index - 1];
      } else {
        assert img == NewImage(tags[n], n);
      }
    }
    NewImageFresh(tags[img.index - 1], img.index - 1);
  }

  /** The extracted images keep document order: their indices strictly increase. */
  lemma {:induction false} ImagesOfIncreasing(tags: seq<Attrs>, k: nat, l: nat)
    requires k < l < |ImagesOf(tags)|
    ensures ImagesOf(tags)[k].index < ImagesOf(tags)[l].index
  {
    var n := |tags| - 1;
    var prefix := ImagesOf(tags[..n]);
    assert ImagesOf(tags)[k] == prefix[k];
    if l < |prefix| {
      ImagesOfIncreasing(tags[..n], k, l);
      assert ImagesOf(tags)[l] == prefix[l];
    } else {
      ImagesOfAt(tags[..n], k);
      assert ImagesOf(tags)[l].index == n + 1;
    }
  }

  /** Every img tag that has an address yields an image carrying its position. */
  lemma {:induction false} ImagesOfComplete(tags: seq<Attrs>, i: nat) returns (k: nat)
    requires i < |tags| && HasSource(tags[i])
    ensures k < |ImagesOf(tags)| && ImagesOf(tags)[k].index == i + 1
  {
    var n := |tags| - 1;
    var prefix := ImagesOf(tags[..n]);
    if i == n {
      k := |prefix|;
      assert ImagesOf(tags)[k] == NewImage(tags[n], n);
    } else {
      assert tags[..n][i] == tags[i];
      k := ImagesOfComplete(tags[..n], i);
      assert ImagesOf(tags)[k] == prefix[k];
    }
  }
}
