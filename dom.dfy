/**
  The page as the content script sees it. Real selector matching, layout and
  geometry are abstracted: an element carries the set of selector strings it
  matches, a `visible` flag standing for a non-null offsetParent, a `hasIcon`
  flag standing for an svg or i descendant, and the bottom and right edges of
  its bounding box.
 */
module Dom {
  import opened Wrappers

  datatype Element = Element(
    id: nat,
    selectors: set<string>,
    visible: bool,
    hasIcon: bool,
    disabled: bool,
    bottom: real,
    right: real)

  /** The document's elements in document order. */
  datatype Document = Document(elements: seq<Element>)

  /** The elements of `elements` that match `selector`, keeping their order. */
  function Matching(elements: seq<Element>, selector: string): (r: seq<Element>)
    ensures |r| <= |elements|
    ensures forall e :: e in r <==> e in elements && selector in e.selectors
  {
    if elements == [] then []
    else if selector in elements[0].selectors then [elements[0]] + Matching(elements[1..], selector)
    else Matching(elements[1..], selector)
  }

  /** querySelectorAll. */
  function QueryAll(doc: Document, selector: string): seq<Element>
  {
    Matching(doc.elements, selector)
  }

  /** `elements[k]` matches `selector` and nothing before it does. */
  predicate FirstMatchAt(elements: seq<Element>, selector: string, k: int)
  {
    0 <= k < |elements| && selector in elements[k].selectors
    && forall j :: 0 <= j < k ==> selector !in elements[j].selectors
  }

  /** The first element of `elements` that matches `selector`. */
  function FirstMatching(elements: seq<Element>, selector: string): (r: Option<Element>)
    ensures r.None? <==> forall k :: 0 <= k < |elements| ==> selector !in elements[k].selectors
    ensures r.Some? ==> exists k :: FirstMatchAt(elements, selector, k) && elements[k] == r.value
  {
    if elements == [] then None
    else if selector in elements[0].selectors then
      assert FirstMatchAt(elements, selector, 0);
      Some(elements[0])
    else
      var r := FirstMatching(elements[1..], selector);
      assert r.Some? ==> exists k :: FirstMatchAt(elements, selector, k) && elements[k] == r.value by {
        if r.Some? {
          var k :| FirstMatchAt(elements[1..], selector, k) && elements[1..][k] == r.value;
          assert FirstMatchAt(elements, selector, k + 1);
        }
      }
      r
  }

  /** querySelector. */
  function QueryFirst(doc: Document, selector: string): Option<Element>
  {
    FirstMatching(doc.elements, selector)
  }

  /** querySelector returns the head of what querySelectorAll returns. */
  lemma {:induction false} FirstMatchingIsHead(elements: seq<Element>, selector: string)
    ensures FirstMatching(elements, selector)
      == if Matching(elements, selector) == [] then None else Some(Matching(elements, selector)[0])
  {
    if elements != [] && selector !in elements[0].selectors {
      FirstMatchingIsHead(elements[1..], selector);
    }
  }

  /** The browser window: its document, its size, and the effects the key handler has on it. */
  class Page {
    var doc: Document
    const innerHeight: real
    const innerWidth: real
    /** Every element the script has activated with click(), in order. */
    var clicked: seq<Element>
    /** How many times the script asked the browser to insert a line break in a rich editor. */
    var lineBreakRequests: nat

    constructor (doc: Document, innerHeight: real, innerWidth: real)
      ensures this.doc == doc && this.innerHeight == innerHeight && this.innerWidth == innerWidth
      ensures clicked == [] && lineBreakRequests == 0
    {
      this.doc := doc;
      this.innerHeight := innerHeight;
      this.innerWidth := innerWidth;
      clicked := [];
      lineBreakRequests := 0;
    }
  }
}
