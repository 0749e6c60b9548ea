/**
 * The parsed page as the extractor and the rewriter see it. A markup fragment is a
 * sequence of nodes in document order: `img` tags with their attributes, the
 * placeholder blocks the rewriter inserts, and every other piece of markup.
 */
module Dom {
  import opened Text

  type Attrs = map<string, string>

  /** `tag.get(key, '')` */
  function Attr(a: Attrs, key: string): string {
    if key in a then a[key] else ""
  }

  datatype Node =
    | Img(attrs: Attrs)
    | Placeholder(text: string)   // <div class="image-placeholder">text</div>
    | Markup(raw: string)

  type Html = seq<Node>

  /** An element found by a selector: its text nodes and its serialised markup. */
  datatype Element = Element(strings: seq<string>, markup: Html)

  /** What `soup.select_one(selector)` does: raise, find nothing, or find an element. */
  datatype Query = Raised | NoMatch | Match(element: Element)

  /** The text nodes that survive `strip=True`: stripped, and empty ones dropped. */
  function StrippedStrings(strings: seq<string>): (r: seq<string>)
    ensures forall k :: 0 <= k < |r| ==> r[k] != []
    ensures r == [] <==> forall k :: 0 <= k < |strings| ==> IsBlank(strings[k])
  {
    if strings == [] then []
    else
      var s := Strip(strings[0]);
      StripEmptyIff(strings[0]);
      var rest := StrippedStrings(strings[1..]);
      assert forall k :: 1 <= k < |strings| ==> strings[k] == strings[1..][k - 1];
      if s == [] then rest else [s] + rest
  }

  /** `element.get_text(strip=True, separator=sep)` */
  function GetText(e: Element, sep: string): string {
    Join(StrippedStrings(e.strings), sep)
  }

  /** An element's text is empty exactly when all its text nodes are blank. */
  lemma {:induction false} GetTextEmptyIff(e: Element, sep: string)
    ensures GetText(e, sep) == [] <==> forall k :: 0 <= k < |e.strings| ==> IsBlank(e.strings[k])
  {
    var parts := StrippedStrings(e.strings);
    if parts != [] {
      assert |parts[0]| > 0;
      if |parts| > 1 {
        assert GetText(e, sep) == parts[0] + sep + Join(parts[1..], sep);
      }
    }
  }

  /** The attributes of the `img` tags of a fragment, in document order (`find_all('img')`). */
  function ImgTags(h: Html): (tags: seq<Attrs>)
    ensures |tags| <= |h|
    ensures forall k :: 0 <= k < |tags| ==> Img(tags[k]) in h
    ensures forall j :: 0 <= j < |h| && h[j].Img? ==> h[j].attrs in tags
  {
    if h == [] then []
    else
      var n := |h| - 1;
      assert h == h[..n] + [h[n]];
      ImgTags(h[..n]) + (if h[n].Img? then [h[n].attrs] else [])
  }

  /** The tags of two fragments one after the other are the first's tags, then the second's. */
  lemma {:induction false} ImgTagsAppend(a: Html, b: Html)
    ensures ImgTags(a + b) == ImgTags(a) + ImgTags(b)
    decreases |b|
  {
    if b == [] {
      assert a + b == a;
    } else {
      var n := |b| - 1;
      assert (a + b)[..|a + b| - 1] == a + b[..n];
      ImgTagsAppend(a, b[..n]);
    }
  }

  /** A single node contributes its attributes when it is an `img` tag, and nothing else. */
  lemma ImgTagsOfNode(x: Node)
    ensures ImgTags([x]) == if x.Img? then [x.attrs] else []
  {
    assert [x][..0] == [];
  }
}
