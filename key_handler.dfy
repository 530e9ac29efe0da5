/**
  handleKeyDown: the capturing keydown listener. Plain Enter on an editable
  target inserts a line break at the caret; Ctrl+Enter clicks the send
  button; everything else passes through.
 */
module KeyHandler {
  import opened Wrappers
  import opened Dom
  import Locators

  /** The element a keydown event is aimed at. A text field's value and caret are updated in place. */
  class EditTarget {
    const tagName: string
    const isContentEditable: bool
    /** getAttribute('role'): None when the attribute is absent. */
    const role: Option<string>
    var value: string
    var selectionStart: nat
    var selectionEnd: nat

    /** The browser keeps the selection inside the value. */
    ghost predicate Valid()
      reads this
    {
      selectionStart <= selectionEnd <= |value|
    }

    constructor (tagName: string, isContentEditable: bool, role: Option<string>,
                 value: string, selectionStart: nat, selectionEnd: nat)
      requires selectionStart <= selectionEnd <= |value|
      ensures Valid()
      ensures this.tagName == tagName && this.isContentEditable == isContentEditable && this.role == role
      ensures this.value == value && this.selectionStart == selectionStart && this.selectionEnd == selectionEnd
    {
      this.tagName := tagName;
      this.isContentEditable := isContentEditable;
      this.role := role;
      this.value := value;
      this.selectionStart := selectionStart;
      this.selectionEnd := selectionEnd;
    }
  }

  /** A keydown event: the key, the modifier flags, the target, and the two flags the handler sets. */
  class KeyEvent {
    const key: string
    const ctrlKey: bool
    const shiftKey: bool
    const altKey: bool
    const metaKey: bool
    const target: EditTarget
    var defaultPrevented: bool
    var propagationStopped: bool

    constructor (key: string, ctrlKey: bool, shiftKey: bool, altKey: bool, metaKey: bool, target: EditTarget)
      ensures this.key == key && this.target == target
      ensures this.ctrlKey == ctrlKey && this.shiftKey == shiftKey && this.altKey == altKey && this.metaKey == metaKey
      ensures !defaultPrevented && !propagationStopped
    {
      this.key := key;
      this.ctrlKey := ctrlKey;
      this.shiftKey := shiftKey;
      this.altKey := altKey;
      this.metaKey := metaKey;
      this.target := target;
      defaultPrevented := false;
      propagationStopped := false;
    }
  }

  /** The three things the handler can do with an event. */
  datatype Action = PassThrough | InsertNewline | Submit

  /** A plain form field, whose content is a string value with a caret index. */
  predicate HoldsValue(tagName: string)
  {
    tagName == "TEXTAREA" || tagName == "INPUT"
  }

  /** The handler only acts on text fields, editable content and text-box roles. */
  predicate IsEditable(tagName: string, isContentEditable: bool, role: Option<string>)
  {
    HoldsValue(tagName) || isContentEditable || role == Some("textbox")
  }

  /** The handler's decision table. */
  function Classify(editable: bool, key: string, ctrl: bool, shift: bool, alt: bool, meta: bool): (a: Action)
    ensures a == InsertNewline <==> editable && key == "Enter" && !ctrl && !shift && !alt && !meta
    ensures a == Submit <==> editable && key == "Enter" && ctrl
  {
    if !editable then PassThrough
    else if key == "Enter" && !ctrl && !shift && !alt && !meta then InsertNewline
    else if key == "Enter" && ctrl then Submit
    else PassThrough
  }

  /** Enter with Shift, Alt or Meta but without Ctrl is left to the page. */
  lemma ModifiedEnterPassesThrough(editable: bool, shift: bool, alt: bool, meta: bool)
    requires shift || alt || meta
    ensures Classify(editable, "Enter", false, shift, alt, meta) == PassThrough
  {
  }

  /** The decision the handler takes for `event`. */
  function ActionOf(event: KeyEvent): Action
  {
    var t := event.target;
    Classify(IsEditable(t.tagName, t.isContentEditable, t.role),
             event.key, event.ctrlKey, event.shiftKey, event.altKey, event.metaKey)
  }

  /** The value after inserting a line feed at caret `p`. */
  function InsertLineFeed(value: string, p: nat): (r: string)
    requires p <= |value|
    ensures |r| == |value| + 1
    ensures r[p] == '\n'
    ensures forall i :: 0 <= i < p ==> r[i] == value[i]
    ensures forall i :: p <= i < |value| ==> r[i + 1] == value[i]
  {
    value[..p] + "\n" + value[p..]
  }

  /** The line feed goes in front of the selection, which is kept rather than replaced. */
  lemma LineFeedKeepsSelection(value: string, start: nat, end: nat)
    requires start <= end <= |value|
    ensures InsertLineFeed(value, start)[start + 1..end + 1] == value[start..end]
  {
  }

  /** Enter in "ab" with the caret at 1 gives "a\nb". */
  lemma LineFeedExample()
    ensures InsertLineFeed("ab", 1) == "a\nb"
  {
  }

  /** The click() calls the Ctrl+Enter branch makes for what findSendButton returned. */
  function ClicksFor(button: Option<Element>): (clicks: seq<Element>)
    ensures |clicks| <= 1
    ensures |clicks| == 1 <==> button.Some? && !button.value.disabled
    ensures clicks != [] ==> clicks[0] == button.value
  {
    if button.Some? && !button.value.disabled then [button.value] else []
  }

  /** handleKeyDown. */
  method HandleKeyDown(event: KeyEvent, page: Page)
    requires event.target.Valid()
    modifies event, event.target, page`clicked, page`lineBreakRequests
    ensures event.target.Valid()
    ensures var a := ActionOf(event);
      && event.defaultPrevented == (old(event.defaultPrevented) || a != PassThrough)
      && event.propagationStopped == (old(event.propagationStopped) || a != PassThrough)
    ensures var a := ActionOf(event);
      var t := event.target;
      if a == InsertNewline && HoldsValue(t.tagName) then
        && t.value == InsertLineFeed(old(t.value), old(t.selectionStart))
        && t.selectionStart == t.selectionEnd == old(t.selectionStart) + 1
      else
        && t.value == old(t.value)
        && t.selectionStart == old(t.selectionStart)
        && t.selectionEnd == old(t.selectionEnd)
    ensures var a := ActionOf(event);
      var t := event.target;
      page.lineBreakRequests == old(page.lineBreakRequests)
        + if a == InsertNewline && !HoldsValue(t.tagName) && t.isContentEditable then 1 else 0
    ensures page.clicked == old(page.clicked)
      + if ActionOf(event) == Submit
        then ClicksFor(Locators.SendButtonChoice(page.doc, page.innerHeight, page.innerWidth))
        else []
  {
    var t := event.target;
    var isEditableTarget := t.tagName == "TEXTAREA" || t.tagName == "INPUT"
      || t.isContentEditable || t.role == Some("textbox");
    if !isEditableTarget {
      return;
    }

    if event.key == "Enter" && !event.ctrlKey && !event.shiftKey && !event.altKey && !event.metaKey {
      event.defaultPrevented := true;
      event.propagationStopped := true;
      if t.tagName == "TEXTAREA" || t.tagName == "INPUT" {
        var cursorPos := t.selectionStart;
        var text := t.value;
        t.value := text[..cursorPos] + "\n" + text[cursorPos..];
        t.selectionStart, t.selectionEnd := cursorPos + 1, cursorPos + 1;
      } else if t.isContentEditable {
        page.lineBreakRequests := page.lineBreakRequests + 1;
      }
      return;
    }

    if event.key == "Enter" && event.ctrlKey {
      event.defaultPrevented := true;
      event.propagationStopped := true;
      var sendButton := Locators.FindSendButton(page.doc, page.innerHeight, page.innerWidth);
      if sendButton.Some? && !sendButton.value.disabled {
        page.clicked := page.clicked + [sendButton.value];
      }
      return;
    }
  }
}
