/** Ordered selector fallback: the first selector that yields something wins. */
module Selectors {
  import opened Wrappers
  import opened Dom

  /** The stripped text of the element a selector found; empty when it found none. */
  function QueryText(q: Query): string {
    if q.Match? then GetText(q.element, "") else ""
  }

  /** The selector found an element and that element has non-empty stripped text. */
  predicate HasText(q: Query) {
    QueryText(q) != []
  }

  /** Position of the first selector whose element has text; `|selectors|` when there is none. */
  function FirstWithText(select: string -> Query, selectors: seq<string>): (k: nat)
    ensures k <= |selectors|
    ensures k < |selectors| ==> HasText(select(selectors[k]))
    ensures forall j :: 0 <= j < k ==> !HasText(select(selectors[j]))
  {
    if selectors == [] then 0
    else if HasText(select(selectors[0])) then 0
    else
      var k := FirstWithText(select, selectors[1..]);
      assert forall j :: 1 <= j <= k ==> selectors[j] == selectors[1..][j - 1];
      1 + k
  }

  /** Position of the first selector that finds an element; `|selectors|` when there is none. */
  function FirstMatch(select: string -> Query, selectors: seq<string>): (k: nat)
    ensures k <= |selectors|
    ensures k < |selectors| ==> select(selectors[k]).Match?
    ensures forall j :: 0 <= j < k ==> !select(selectors[j]).Match?
  {
    if selectors == [] then 0
    else if select(selectors[0]).Match? then 0
    else 1 + FirstMatch(select, selectors[1..])
  }

  function TextBySelectors(select: string -> Query, selectors: seq<string>, default: string): string {
    var k := FirstWithText(select, selectors);
    if k < |selectors| then QueryText(select(selectors[k])) else default
  }

  function ElementBySelectors(select: string -> Query, selectors: seq<string>): Option<Element> {
    var k := FirstMatch(select, selectors);
    if k < |selectors| then Some(select(selectors[k]).element) else None
  }

  /**
   * Tries the selectors in order; a selector that raises or finds nothing, or whose
   * element has only blank text, is passed over. Returns the stripped text of the
   * first one that qualifies, or `default`.
   */
  method GetTextBySelectors(select: string -> Query, selectors: seq<string>, default: string)
    returns (text: string)
    ensures text == TextBySelectors(select, selectors, default)
    ensures text != default ==> exists k :: 0 <= k < |selectors| && HasText(select(selectors[k]))
  {
    var i := 0;
    while i < |selectors|
      invariant i <= FirstWithText(select, selectors)
    {
      var t := QueryText(select(selectors[i]));
      if t != [] {
        return t;
      }
      i := i + 1;
    }
    return default;
  }

  /** Returns the first element any selector finds, even one without text, or None. */
  method GetElementBySelectors(select: string -> Query, selectors: seq<string>)
    returns (element: Option<Element>)
    ensures element == ElementBySelectors(select, selectors)
    ensures element.None? <==> forall k :: 0 <= k < |selectors| ==> !select(selectors[k]).Match?
  {
    var i := 0;
    while i < |selectors|
      invariant i <= |selectors|
      invariant forall j :: 0 <= j < i ==> !select(selectors[j]).Match?
    {
      var q := select(selectors[i]);
      if q.Match? {
        assert FirstMatch(select, selectors) == i;
        return Some(q.element);
      }
      i := i + 1;
    }
    return None;
  }
}
