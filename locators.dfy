/**
  The two element locators: findTextArea and findSendButton. Each tries an
  ordered list of selectors; the text-area locator looks at every match of a
  selector, the send-button locator only at the first match of each
  (querySelector), then falls back to an icon button in the bottom-right
  part of the viewport.
 */
module Locators {
  import opened Wrappers
  import opened Dom

  const TextAreaSelectors: seq<string> :=
    ["textarea", "div[contenteditable=\"true\"]", "div[role=\"textbox\"]", ".ql-editor"]

  const SendButtonSelectors: seq<string> :=
    ["button[aria-label=\"送信する\"]", "button[aria-label=\"Send\"]", "button.send-button",
     "button[data-test-id=\"send-button\"]", "button[type=\"submit\"]"]

  /** `s[k]` is visible and nothing before it is. */
  predicate FirstVisibleAt(s: seq<Element>, k: int)
  {
    0 <= k < |s| && s[k].visible && forall j :: 0 <= j < k ==> !s[j].visible
  }

  /** The first visible element of `s`. */
  function FirstVisible(s: seq<Element>): (r: Option<Element>)
    ensures r.None? <==> forall k :: 0 <= k < |s| ==> !s[k].visible
    ensures r.Some? ==> exists k :: FirstVisibleAt(s, k) && s[k] == r.value
  {
    if s == [] then None
    else if s[0].visible then
      assert FirstVisibleAt(s, 0);
      Some(s[0])
    else
      var r := FirstVisible(s[1..]);
      assert r.Some? ==> exists k :: FirstVisibleAt(s, k) && s[k] == r.value by {
        if r.Some? {
          var k :| FirstVisibleAt(s[1..], k) && s[1..][k] == r.value;
          assert FirstVisibleAt(s, k + 1);
        }
      }
      r
  }

  /** `es[k]` matches `selector` and is visible, and no earlier element does both. */
  predicate FirstVisibleMatchingAt(es: seq<Element>, selector: string, k: int)
  {
    0 <= k < |es| && selector in es[k].selectors && es[k].visible
    && forall j :: 0 <= j < k ==> !(selector in es[j].selectors && es[j].visible)
  }

  /** Scanning querySelectorAll's result finds the first visible match in document order. */
  lemma {:induction false} FirstVisibleInDocumentOrder(es: seq<Element>, selector: string)
    ensures FirstVisible(Matching(es, selector)).None?
      <==> forall k :: 0 <= k < |es| ==> !(selector in es[k].selectors && es[k].visible)
    ensures FirstVisible(Matching(es, selector)).Some? ==>
      exists k :: FirstVisibleMatchingAt(es, selector, k) && FirstVisible(Matching(es, selector)).value == es[k]
  {
    if es != [] {
      var m := Matching(es, selector);
      var rest := Matching(es[1..], selector);
      FirstVisibleInDocumentOrder(es[1..], selector);
      if selector in es[0].selectors && es[0].visible {
        assert m[0] == es[0];
        assert FirstVisibleMatchingAt(es, selector, 0);
      } else {
        if selector in es[0].selectors {
          assert m == [es[0]] + rest && m[1..] == rest;
        }
        assert FirstVisible(m) == FirstVisible(rest);
        if FirstVisible(rest).Some? {
          var k :| FirstVisibleMatchingAt(es[1..], selector, k) && FirstVisible(rest).value == es[1..][k];
          assert FirstVisibleMatchingAt(es, selector, k + 1);
        }
      }
    }
  }

  /** What the text-area rule finds among the matches of one selector: the first visible match in document order. */
  function VisibleAmongMatches(doc: Document, selector: string): (r: Option<Element>)
    ensures r.None? <==> forall k :: 0 <= k < |doc.elements| ==>
      !(selector in doc.elements[k].selectors && doc.elements[k].visible)
    ensures r.Some? ==> exists k :: FirstVisibleMatchingAt(doc.elements, selector, k) && r.value == doc.elements[k]
  {
    FirstVisibleInDocumentOrder(doc.elements, selector);
    FirstVisible(QueryAll(doc, selector))
  }

  /** `selectors[i]` has a visible match and no earlier selector has one. */
  predicate TextHitAt(doc: Document, selectors: seq<string>, i: int)
  {
    0 <= i < |selectors| && VisibleAmongMatches(doc, selectors[i]).Some?
    && forall j :: 0 <= j < i ==> VisibleAmongMatches(doc, selectors[j]).None?
  }

  /**
    findTextArea's rule over a selector list: the first visible element among
    all matches of the first selector that has one.
   */
  function FirstVisibleMatch(doc: Document, selectors: seq<string>): (r: Option<Element>)
    ensures r.None? <==> forall i :: 0 <= i < |selectors| ==> VisibleAmongMatches(doc, selectors[i]).None?
    ensures r.Some? ==> exists i :: TextHitAt(doc, selectors, i) && r == VisibleAmongMatches(doc, selectors[i])
  {
    if selectors == [] then None
    else if VisibleAmongMatches(doc, selectors[0]).Some? then
      assert TextHitAt(doc, selectors, 0);
      VisibleAmongMatches(doc, selectors[0])
    else
      var r := FirstVisibleMatch(doc, selectors[1..]);
      assert r.Some? ==> exists i :: TextHitAt(doc, selectors, i) && r == VisibleAmongMatches(doc, selectors[i]) by {
        if r.Some? {
          var i :| TextHitAt(doc, selectors[1..], i) && r == VisibleAmongMatches(doc, selectors[1..][i]);
          assert TextHitAt(doc, selectors, i + 1);
        }
      }
      r
  }

  /** querySelector(selector) finds an element and it is visible. */
  predicate VisibleFirstMatch(doc: Document, selector: string)
  {
    QueryFirst(doc, selector).Some? && QueryFirst(doc, selector).value.visible
  }

  /** `selectors[i]`'s first match is visible and no earlier selector's is. */
  predicate SendHitAt(doc: Document, selectors: seq<string>, i: int)
  {
    0 <= i < |selectors| && VisibleFirstMatch(doc, selectors[i])
    && forall j :: 0 <= j < i ==> !VisibleFirstMatch(doc, selectors[j])
  }

  /**
    findSendButton's first phase over a selector list: the first match of the
    first selector whose first match is visible. Later matches of a selector
    are never looked at.
   */
  function FirstVisibleFirstMatch(doc: Document, selectors: seq<string>): (r: Option<Element>)
    ensures r.None? <==> forall i :: 0 <= i < |selectors| ==> !VisibleFirstMatch(doc, selectors[i])
    ensures r.Some? ==> exists i :: SendHitAt(doc, selectors, i) && r == QueryFirst(doc, selectors[i])
  {
    if selectors == [] then None
    else if VisibleFirstMatch(doc, selectors[0]) then
      assert SendHitAt(doc, selectors, 0);
      QueryFirst(doc, selectors[0])
    else
      var r := FirstVisibleFirstMatch(doc, selectors[1..]);
      assert r.Some? ==> exists i :: SendHitAt(doc, selectors, i) && r == QueryFirst(doc, selectors[i]) by {
        if r.Some? {
          var i :| SendHitAt(doc, selectors[1..], i) && r == QueryFirst(doc, selectors[1..][i]);
          assert SendHitAt(doc, selectors, i + 1);
        }
      }
      r
  }

  /** The fallback test: a visible button holding an icon whose box reaches past 70% of the viewport down and right. */
  predicate LooksLikeSend(b: Element, innerHeight: real, innerWidth: real)
  {
    b.visible && b.hasIcon && b.bottom > innerHeight * 0.7 && b.right > innerWidth * 0.7
  }

  /** `s[k]` passes the fallback test and nothing before it does. */
  predicate FirstSendLikeAt(s: seq<Element>, innerHeight: real, innerWidth: real, k: int)
  {
    0 <= k < |s| && LooksLikeSend(s[k], innerHeight, innerWidth)
    && forall j :: 0 <= j < k ==> !LooksLikeSend(s[j], innerHeight, innerWidth)
  }

  /** The first button of `buttons` that passes the fallback test. */
  function FirstSendLike(buttons: seq<Element>, innerHeight: real, innerWidth: real): (r: Option<Element>)
    ensures r.None? <==> forall k :: 0 <= k < |buttons| ==> !LooksLikeSend(buttons[k], innerHeight, innerWidth)
    ensures r.Some? ==> exists k :: FirstSendLikeAt(buttons, innerHeight, innerWidth, k) && buttons[k] == r.value
  {
    if buttons == [] then None
    else if LooksLikeSend(buttons[0], innerHeight, innerWidth) then
      assert FirstSendLikeAt(buttons, innerHeight, innerWidth, 0);
      Some(buttons[0])
    else
      var r := FirstSendLike(buttons[1..], innerHeight, innerWidth);
      assert r.Some? ==> exists k :: FirstSendLikeAt(buttons, innerHeight, innerWidth, k) && buttons[k] == r.value by {
        if r.Some? {
          var k :| FirstSendLikeAt(buttons[1..], innerHeight, innerWidth, k) && buttons[1..][k] == r.value;
          assert FirstSendLikeAt(buttons, innerHeight, innerWidth, k + 1);
        }
      }
      r
  }

  /** `es[k]` is a button passing the fallback test, and no earlier button passes it. */
  predicate FirstSendLikeButtonAt(es: seq<Element>, innerHeight: real, innerWidth: real, k: int)
  {
    0 <= k < |es| && "button" in es[k].selectors && LooksLikeSend(es[k], innerHeight, innerWidth)
    && forall j :: 0 <= j < k ==> !("button" in es[j].selectors && LooksLikeSend(es[j], innerHeight, innerWidth))
  }

  /** Scanning every button finds the first one, in document order, that passes the fallback test. */
  lemma {:induction false} FirstSendLikeInDocumentOrder(es: seq<Element>, innerHeight: real, innerWidth: real)
    ensures FirstSendLike(Matching(es, "button"), innerHeight, innerWidth).None?
      <==> forall k :: 0 <= k < |es| ==> !("button" in es[k].selectors && LooksLikeSend(es[k], innerHeight, innerWidth))
    ensures FirstSendLike(Matching(es, "button"), innerHeight, innerWidth).Some? ==>
      exists k :: FirstSendLikeButtonAt(es, innerHeight, innerWidth, k)
        && FirstSendLike(Matching(es, "button"), innerHeight, innerWidth).value == es[k]
  {
    if es != [] {
      var m := Matching(es, "button");
      var rest := Matching(es[1..], "button");
      FirstSendLikeInDocumentOrder(es[1..], innerHeight, innerWidth);
      if "button" in es[0].selectors && LooksLikeSend(es[0], innerHeight, innerWidth) {
        assert m[0] == es[0];
        assert FirstSendLikeButtonAt(es, innerHeight, innerWidth, 0);
      } else {
        if "button" in es[0].selectors {
          assert m == [es[0]] + rest && m[1..] == rest;
        }
        assert FirstSendLike(m, innerHeight, innerWidth) == FirstSendLike(rest, innerHeight, innerWidth);
        if FirstSendLike(rest, innerHeight, innerWidth).Some? {
          var k :| FirstSendLikeButtonAt(es[1..], innerHeight, innerWidth, k)
            && FirstSendLike(rest, innerHeight, innerWidth).value == es[1..][k];
          assert FirstSendLikeButtonAt(es, innerHeight, innerWidth, k + 1);
        }
      }
    }
  }

  /** findSendButton's fallback: the first button in document order that is visible, holds an icon and sits bottom-right. */
  function SendLikeButton(doc: Document, innerHeight: real, innerWidth: real): (r: Option<Element>)
    ensures r.None? <==> forall k :: 0 <= k < |doc.elements| ==>
      !("button" in doc.elements[k].selectors && LooksLikeSend(doc.elements[k], innerHeight, innerWidth))
    ensures r.Some? ==>
      exists k :: FirstSendLikeButtonAt(doc.elements, innerHeight, innerWidth, k) && r.value == doc.elements[k]
  {
    FirstSendLikeInDocumentOrder(doc.elements, innerHeight, innerWidth);
    FirstSendLike(QueryAll(doc, "button"), innerHeight, innerWidth)
  }

  /** The send button findSendButton settles on: a selector hit first, else the fallback. */
  function SendButtonChoice(doc: Document, innerHeight: real, innerWidth: real): Option<Element>
  {
    match FirstVisibleFirstMatch(doc, SendButtonSelectors)
    case Some(b) => Some(b)
    case None => SendLikeButton(doc, innerHeight, innerWidth)
  }

  /** findTextArea's loops, over any selector table. */
  method FindFirstVisibleMatch(doc: Document, selectors: seq<string>) returns (r: Option<Element>)
    ensures r == FirstVisibleMatch(doc, selectors)
  {
    for i := 0 to |selectors|
      invariant FirstVisibleMatch(doc, selectors) == FirstVisibleMatch(doc, selectors[i..])
    {
      var elements := QueryAll(doc, selectors[i]);
      assert selectors[i..][0] == selectors[i] && selectors[i..][1..] == selectors[i + 1..];
      for k := 0 to |elements|
        invariant FirstVisible(elements) == FirstVisible(elements[k..])
      {
        assert elements[k..][0] == elements[k] && elements[k..][1..] == elements[k + 1..];
        if elements[k].visible {
          return Some(elements[k]);
        }
      }
      assert elements[|elements|..] == [];
    }
    return None;
  }

  /** findTextArea. */
  method FindTextArea(doc: Document) returns (r: Option<Element>)
    ensures r == FirstVisibleMatch(doc, TextAreaSelectors)
  {
    r := FindFirstVisibleMatch(doc, TextAreaSelectors);
  }

  /** findSendButton. */
  method FindSendButton(doc: Document, innerHeight: real, innerWidth: real) returns (r: Option<Element>)
    ensures r == SendButtonChoice(doc, innerHeight, innerWidth)
  {
    for i := 0 to |SendButtonSelectors|
      invariant FirstVisibleFirstMatch(doc, SendButtonSelectors)
        == FirstVisibleFirstMatch(doc, SendButtonSelectors[i..])
    {
      var button := QueryFirst(doc, SendButtonSelectors[i]);
      if button.Some? && button.value.visible {
        return button;
      }
      assert SendButtonSelectors[i..][1..] == SendButtonSelectors[i + 1..];
    }
    var allButtons := QueryAll(doc, "button");
    for k := 0 to |allButtons|
      invariant FirstSendLike(allButtons, innerHeight, innerWidth)
        == FirstSendLike(allButtons[k..], innerHeight, innerWidth)
    {
      var button := allButtons[k];
      assert allButtons[k..][1..] == allButtons[k + 1..];
      if !button.visible {
        continue;
      }
      if button.hasIcon {
        if button.bottom > innerHeight * 0.7 && button.right > innerWidth * 0.7 {
          return Some(button);
        }
      }
    }
    return None;
  }

  /**
    The asymmetry between the two locators: when a selector's first match is
    hidden and a later one is visible, the text-area rule finds the later one
    and the send-button rule finds nothing.
   */
  lemma OnlyFirstMatchCountsForSend(selector: string, hidden: Element, shown: Element)
    requires selector in hidden.selectors && !hidden.visible
    requires selector in shown.selectors && shown.visible
    ensures FirstVisibleMatch(Document([hidden, shown]), [selector]) == Some(shown)
    ensures FirstVisibleFirstMatch(Document([hidden, shown]), [selector]) == None
  {
  }
}
