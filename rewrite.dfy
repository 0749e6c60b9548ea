/**
 * Rewriting the saved body markup: img tags that match a downloaded image point at the
 * local copy, every other img tag becomes a placeholder block.
 */
module Rewrite {
  import opened Wrappers
  import opened Text
  import opened Dom
  import opened ImageRefs
  import opened Download

  /** The image's stored address equals the tag's raw `src` or `data-src`, and it has a local file. */
  predicate Usable(img: ImageInfo, src: string, dataSrc: string) {
    (img.url == src || img.url == dataSrc) && img.downloadSuccess && img.filename != []
  }

  /** Position of the first usable image for a tag; `|images|` when there is none. */
  function FirstUsable(src: string, dataSrc: string, images: seq<ImageInfo>): (k: nat)
    ensures k <= |images|
    ensures k < |images| ==> Usable(images[k], src, dataSrc)
    ensures forall j :: 0 <= j < k ==> !Usable(images[j], src, dataSrc)
  {
    if images == [] then 0
    else if Usable(images[0], src, dataSrc) then 0
    else 1 + FirstUsable(src, dataSrc, images[1..])
  }

  const LocalDir: string := "images/"

  /** The tag pointed at the local file: new `src`, a non-empty `data-src` dropped, `alt` defaulted. */
  function Localised(attrs: Attrs, img: ImageInfo): (r: Attrs)
    ensures Attr(r, "src") == LocalDir + img.filename
    ensures Attr(r, "data-src") == []
    ensures Attr(attrs, "alt") != [] ==> Attr(r, "alt") == attrs["alt"]
    ensures Attr(attrs, "alt") == [] ==> Attr(r, "alt") == "图片 " + NatToString(img.index)
    ensures forall k :: k in attrs && k != "src" && k != "data-src" && k != "alt" ==> k in r && r[k] == attrs[k]
    ensures forall k :: k in r ==> k in attrs || k == "src" || k == "alt"
  {
    var a := attrs["src" := LocalDir + img.filename];
    var a' := if Attr(a, "data-src") != [] then a - {"data-src"} else a;
    if Attr(a', "alt") == [] then a'["alt" := "图片 " + NatToString(img.index)] else a'
  }

  /** The placeholder keeps the tag's `alt` when the attribute is present, even if empty. */
  function PlaceholderText(attrs: Attrs): (r: string)
    ensures StartsWith(r, "图片加载失败: ")
    ensures "alt" in attrs ==> EndsWith(r, attrs["alt"])
    ensures "alt" !in attrs ==> EndsWith(r, "未知图片")
  {
    "图片加载失败: " + (if "alt" in attrs then attrs["alt"] else "未知图片")
  }

  function RewriteTag(attrs: Attrs, images: seq<ImageInfo>): Node {
    var k := FirstUsable(Attr(attrs, "src"), Attr(attrs, "data-src"), images);
    if k < |images| then Img(Localised(attrs, images[k])) else Placeholder(PlaceholderText(attrs))
  }

  function RewriteNode(n: Node, images: seq<ImageInfo>): Node {
    if n.Img? then RewriteTag(n.attrs, images) else n
  }

  function Rewritten(html: Html, images: seq<ImageInfo>): (r: Html)
    ensures |r| == |html|
  {
    seq(|html|, i requires 0 <= i < |html| => RewriteNode(html[i], images))
  }

  /** The first usable image is the one at `j` when none before it is usable and it is (or `j` is the end). */
  lemma FirstUsableIs(src: string, dataSrc: string, images: seq<ImageInfo>, j: nat)
    requires j <= |images|
    requires forall m :: 0 <= m < j ==> !Usable(images[m], src, dataSrc)
    requires j < |images| ==> Usable(images[j], src, dataSrc)
    ensures FirstUsable(src, dataSrc, images) == j
  {
  }

  /** The inner loop for one img tag: the first usable image localises it, otherwise a placeholder replaces it. */
  method RewriteOne(tag: Attrs, images: seq<ImageInfo>) returns (n: Node)
    ensures n == RewriteTag(tag, images)
  {
    var src := Attr(tag, "src");
    var dataSrc := Attr(tag, "data-src");
    var j := 0;
    while j < |images|
      invariant j <= |images|
      invariant forall m :: 0 <= m < j ==> !Usable(images[m], src, dataSrc)
    {
      var info := images[j];
      if (info.url == src || info.url == dataSrc) && info.downloadSuccess {
        var localFilename := info.filename;
        if localFilename != [] {
          var attrs := tag["src" := LocalDir + localFilename];
          if Attr(attrs, "data-src") != [] {
            attrs := attrs - {"data-src"};
          }
          if Attr(attrs, "alt") == [] {
            attrs := attrs["alt" := "图片 " + NatToString(info.index)];
          }
          FirstUsableIs(src, dataSrc, images, j);
          assert attrs == Localised(tag, info);
          return Img(attrs);
        }
      }
      j := j + 1;
    }
    FirstUsableIs(src, dataSrc, images, j);
    return Placeholder("图片加载失败: " + (if "alt" in tag then tag["alt"] else "未知图片"));
  }

  /** Rewriting one more node appends its rewritten form. */
  lemma RewrittenSnoc(html: Html, images: seq<ImageInfo>, i: nat)
    requires i < |html|
    ensures Rewritten(html[..i + 1], images) == Rewritten(html[..i], images) + [RewriteNode(html[i], images)]
  {
    assert html[..i + 1][i] == html[i];
  }

  /** The loop of `_replace_image_urls_in_html` over the parsed tags, done in place. */
  method RewriteInPlace(doc: array<Node>, images: seq<ImageInfo>)
    modifies doc
    ensures doc[..] == Rewritten(old(doc[..]), images)
  {
    ghost var orig := doc[..];
    var i := 0;
    while i < doc.Length
      invariant i <= doc.Length
      invariant doc[..i] == Rewritten(orig[..i], images)
      invariant doc[i..] == orig[i..]
    {
      var node := doc[i];
      assert node == orig[i] by { assert orig[i..][0] == orig[i]; }
      if node.Img? {
        node := RewriteOne(node.attrs, images);
      }
      RewrittenSnoc(orig, images, i);
      doc[i] := node;
      assert doc[..i + 1] == doc[..i] + [node];
      assert doc[i + 1..] == orig[i + 1..] by { assert doc[i + 1..] == old(doc[..])[i + 1..]; }
      i := i + 1;
    }
    assert doc[..] == doc[..doc.Length];
    assert orig == orig[..doc.Length];
    assert doc[..] == Rewritten(orig, images);
  }

  /** Parses the body into a fresh tree, rewrites it, and gives back the result. */
  method ReplaceImageUrls(html: Html, images: seq<ImageInfo>) returns (r: Html)
    ensures r == Rewritten(html, images)
  {
    var doc := new Node[|html|](i requires 0 <= i < |html| => html[i]);
    assert doc[..] == html;
    RewriteInPlace(doc, images);
    r := doc[..];
  }

  /**
   * A localised tag points at `images/<filename>`, carries no lazy-load address and a
   * non-empty alt.
   */
  lemma LocalisedTag(attrs: Attrs, img: ImageInfo)
    ensures Attr(Localised(attrs, img), "src") == LocalDir + img.filename
    ensures Attr(Localised(attrs, img), "data-src") == []
    ensures Attr(Localised(attrs, img), "alt") != []
    ensures "alt" in attrs && attrs["alt"] != [] ==> Localised(attrs, img)["alt"] == attrs["alt"]
  {
    assert NatToString(img.index) != [];
  }

  /** Localising changes only `src`, `data-src` and `alt`. */
  lemma LocalisedKeepsOthers(attrs: Attrs, img: ImageInfo, key: string)
    requires key != "src" && key != "data-src" && key != "alt"
    ensures key in Localised(attrs, img) <==> key in attrs
    ensures key in attrs ==> Localised(attrs, img)[key] == attrs[key]
  {
  }

  /**
   * What happens to each node: non-image markup is kept; an img tag is localised with
   * the first usable image when there is one, and becomes a placeholder otherwise.
   */
  lemma RewriteAt(html: Html, images: seq<ImageInfo>, i: nat)
    requires i < |html|
    ensures !html[i].Img? ==> Rewritten(html, images)[i] == html[i]
    ensures html[i].Img? && FirstUsable(Attr(html[i].attrs, "src"), Attr(html[i].attrs, "data-src"), images) < |images|
      ==> Rewritten(html, images)[i].Img?
    ensures html[i].Img? && FirstUsable(Attr(html[i].attrs, "src"), Attr(html[i].attrs, "data-src"), images) < |images|
      ==> Rewritten(html, images)[i].attrs
          == Localised(html[i].attrs, images[FirstUsable(Attr(html[i].attrs, "src"), Attr(html[i].attrs, "data-src"), images)])
    ensures html[i].Img? && FirstUsable(Attr(html[i].attrs, "src"), Attr(html[i].attrs, "data-src"), images) == |images|
      ==> Rewritten(html, images)[i] == Placeholder(PlaceholderText(html[i].attrs))
  {
  }

  /** An img tag no downloaded image claims becomes a placeholder. */
  lemma UnclaimedBecomesPlaceholder(html: Html, images: seq<ImageInfo>, i: nat)
    requires i < |html| && html[i].Img?
    requires forall k :: 0 <= k < |images| ==> !Usable(images[k], Attr(html[i].attrs, "src"), Attr(html[i].attrs, "data-src"))
    ensures Rewritten(html, images)[i] == Placeholder(PlaceholderText(html[i].attrs))
  {
  }

  /** After the rewrite every remaining img tag points into the local image directory. */
  lemma {:induction false} OnlyLocalImagesRemain(html: Html, images: seq<ImageInfo>)
    ensures forall i :: 0 <= i < |html| && Rewritten(html, images)[i].Img? ==>
              StartsWith(Attr(Rewritten(html, images)[i].attrs, "src"), LocalDir)
              && Attr(Rewritten(html, images)[i].attrs, "data-src") == []
  {
    forall i | 0 <= i < |html| && Rewritten(html, images)[i].Img?
      ensures StartsWith(Attr(Rewritten(html, images)[i].attrs, "src"), LocalDir)
      ensures Attr(Rewritten(html, images)[i].attrs, "data-src") == []
    {
      RewriteAt(html, images, i);
      var tag := html[i].attrs;
      var k := FirstUsable(Attr(tag, "src"), Attr(tag, "data-src"), images);
      LocalisedTag(tag, images[k]);
      assert (LocalDir + images[k].filename)[..|LocalDir|] == LocalDir;
    }
  }

  /**
   * The rewrite is not idempotent: when no stored address is itself a local path or
   * empty, a second pass turns every img tag into a placeholder.
   */
  lemma {:induction false} SecondPassLeavesNoImages(html: Html, images: seq<ImageInfo>)
    requires forall k :: 0 <= k < |images| ==> images[k].url != [] && !StartsWith(images[k].url, LocalDir)
    ensures forall i :: 0 <= i < |html| ==> !Rewritten(Rewritten(html, images), images)[i].Img?
  {
    var once := Rewritten(html, images);
    OnlyLocalImagesRemain(html, images);
    forall i | 0 <= i < |html| ensures !Rewritten(once, images)[i].Img? {
      if once[i].Img? {
        var src := Attr(once[i].attrs, "src");
        var k := FirstUsable(src, Attr(once[i].attrs, "data-src"), images);
        if k < |images| {
          assert false;
        }
      }
    }
  }

  /** A concrete body on which two passes differ from one. */
  lemma RewriteNotIdempotent()
    ensures var html := [Img(map["src" := "https://mmbiz.qpic.cn/a.png"])];
      var images := [ImageInfo(1, "", "", "https://mmbiz.qpic.cn/a.png", "", true,
                               "articles/a/images/img_1_7.png", "img_1_7.png",
                               "https://mmbiz.qpic.cn/a.png", None)];
      Rewritten(Rewritten(html, images), images) != Rewritten(html, images)
  {
    var html := [Img(map["src" := "https://mmbiz.qpic.cn/a.png"])];
    var images := [ImageInfo(1, "", "", "https://mmbiz.qpic.cn/a.png", "", true,
                             "articles/a/images/img_1_7.png", "img_1_7.png",
                             "https://mmbiz.qpic.cn/a.png", None)];
    assert Usable(images[0], "https://mmbiz.qpic.cn/a.png", "");
    assert Rewritten(html, images)[0].Img?;
    assert images[0].url[0] != LocalDir[0];
    SecondPassLeavesNoImages(html, images);
  }

  /** When no image was downloaded, every img tag of the body becomes a placeholder. */
  lemma {:induction false} NothingDownloadedNoImages(html: Html, images: seq<ImageInfo>)
    requires forall k :: 0 <= k < |images| ==> !images[k].downloadSuccess
    ensures forall i :: 0 <= i < |html| ==> !Rewritten(html, images)[i].Img?
    ensures forall i :: 0 <= i < |html| && html[i].Img? ==>
              Rewritten(html, images)[i] == Placeholder(PlaceholderText(html[i].attrs))
  {
    forall i | 0 <= i < |html| && html[i].Img?
      ensures Rewritten(html, images)[i] == Placeholder(PlaceholderText(html[i].attrs))
    {
      UnclaimedBecomesPlaceholder(html, images, i);
    }
  }

  /** Extracted addresses are never empty and never relative, and downloading keeps them. */
  lemma {:induction false} StoredUrlsAbsolute(tags: seq<Attrs>, dir: string, host: Host)
    ensures forall k :: 0 <= k < |ImagesOf(tags)| ==>
              DownloadedAll(ImagesOf(tags), dir, host)[k].url != []
              && !StartsWith(DownloadedAll(ImagesOf(tags), dir, host)[k].url, "/")
  {
    forall k | 0 <= k < |ImagesOf(tags)|
      ensures DownloadedAll(ImagesOf(tags), dir, host)[k].url != []
      ensures !StartsWith(DownloadedAll(ImagesOf(tags), dir, host)[k].url, "/")
    {
      var img := ImagesOf(tags)[k];
      ImagesOfAt(tags, k);
      DownloadKeepsUrl(img, k, dir, host);
      assert DownloadedAll(ImagesOf(tags), dir, host)[k] == AfterDownload(img, k, dir, host);
    }
  }

  lemma DownloadKeepsUrl(img: ImageInfo, i: nat, dir: string, host: Host)
    ensures AfterDownload(img, i, dir, host).url == img.url
  {
  }

  /**
   * The tag is matched on its raw attributes while the stored address was normalised:
   * an img tag whose addresses are relative (`//host/a.png`, `/a.png`) is never
   * localised, even when its image was extracted and downloaded.
   */
  lemma {:induction false} RelativeTagNeverLocalised(tags: seq<Attrs>, html: Html, i: nat, dir: string, host: Host)
    requires i < |html| && html[i].Img?
    requires StartsWith(Attr(html[i].attrs, "src"), "/")
    requires Attr(html[i].attrs, "data-src") == [] || StartsWith(Attr(html[i].attrs, "data-src"), "/")
    ensures Rewritten(html, DownloadedAll(ImagesOf(tags), dir, host))[i] == Placeholder(PlaceholderText(html[i].attrs))
  {
    var images := DownloadedAll(ImagesOf(tags), dir, host);
    StoredUrlsAbsolute(tags, dir, host);
    var src := Attr(html[i].attrs, "src");
    var dataSrc := Attr(html[i].attrs, "data-src");
    assert forall k :: 0 <= k < |images| ==> !Usable(images[k], src, dataSrc);
    UnclaimedBecomesPlaceholder(html, images, i);
  }
}
