# Ctrl+Enter for Gemini — a verified model

This project models the logic of a small browser extension for the Gemini chat
page. Its content script makes plain Enter insert a newline in the message box
and makes Ctrl+Enter click the send button. Its options page keeps a list of
URL patterns, each switched on or off, that says on which pages the content
script acts.

The model covers:

- the settings record and its store (`settings.dfy`);
- the site matcher (`site_matcher.dfy`);
- the page as the locators see it (`dom.dfy`);
- the two element locators (`locators.dfy`);
- the keydown handler (`key_handler.dfy`);
- the content script's attachment flag, observer flag and URL watcher (`content_script.dfy`);
- the options page's list editing (`options.dfy`).

Pure logic is written as functions and lemmas. Code that updates state in place
is written as classes whose methods state the whole new state:

- the event target's value and caret;
- the attached flag and `lastUrl`;
- the options page's `currentSettings` and input field.

The browser is abstracted as follows:

- An element is a record. It carries the set of selector strings it matches and
  a `visible` flag, which stands for a non-null `offsetParent`. It also carries
  a `hasIcon` flag, which stands for an `svg` or `i` descendant, its `disabled`
  flag, and the bottom and right edges of its bounding box as reals.
- A click is recorded in a log of clicked elements on the `Page` object.
- A rich-editor line break (`execCommand('insertLineBreak')`) is recorded as a
  counter on the `Page` object.
- The store's asynchronous get and set calls are synchronous methods on a
  `Store` object that holds an `Option<Settings>`.

Two behaviours of the code are worth noting:

- The send-button locator looks only at the first match of each selector
  (`querySelector`), not at every match. `Locators.OnlyFirstMatchCountsForSend`
  exhibits the difference from the text-area locator.
- An element with `role="textbox"` that is not content-editable counts as
  editable. Plain Enter on it is suppressed, but nothing is inserted.

`loadSettings` appears twice in the source, at `src/js/content.js:21-33` and at
`src/js/options.js:22-34`. The two copies are identical apart from logging, and both are modelled
by `Settings.Store.Load`.

## Model

| member | source | states |
|---|---|---|
| `Settings.Store.Load` | src/js/content.js:21-33 | with no stored record it returns the default `{gemini.google.com, enabled}` and stores it; with a record it returns that record and leaves the store as it was |
| `Settings.LoadTwice` | src/js/options.js:22-34 | a second load returns the same record as the first and the store holds it (first-run seeding is idempotent) |
| `Settings.Store.Save` | src/js/options.js:37-43 | the stored record becomes exactly the given record (whole-record replace, no merge) |
| `SiteMatcher.IsSiteEnabled` | src/js/content.js:37-46 | the result is true iff some entry is enabled and its url is a substring of the page URL; false for an empty list |
| `SiteMatcher.EnabledOnly` | src/js/content.js:39 | the switched-on entries: an entry is kept iff it is in the list and enabled |
| `SiteMatcher.ActiveIgnoresDisabled` | src/js/content.js:38-43 | dropping every disabled entry never changes the verdict: a disabled entry never makes a page active |
| `SiteMatcher.ActiveAfterAppend` | src/js/content.js:38-43 | after appending an entry, a page is active iff it was before or the new entry is enabled and matches it |
| `SiteMatcher.DefaultActivation` | src/js/content.js:11-18 | with the default record a page is active iff its URL contains "gemini.google.com" |
| `Dom.Matching` | src/js/content.js:59 | querySelectorAll keeps exactly the elements that match the selector (membership only; what its order means for the scans is stated by `Locators.FirstVisibleInDocumentOrder` and `Locators.FirstSendLikeInDocumentOrder`) |
| `Dom.FirstMatching` | src/js/content.js:84 | querySelector returns nothing iff no element matches, otherwise a matching element with no matching element before it |
| `Dom.FirstMatchingIsHead` | src/js/content.js:84 | querySelector is the head of querySelectorAll |
| `Locators.FirstVisible` | src/js/content.js:60-66 | returns nothing iff no element is visible, otherwise the first visible one |
| `Locators.FirstVisibleInDocumentOrder` | src/js/content.js:59-66 | scanning querySelectorAll's result for a visible element finds the first element in document order that both matches and is visible, or nothing iff there is none |
| `Locators.VisibleAmongMatches` | src/js/content.js:59-66 | for one selector: nothing iff no matching element is visible, otherwise the first visible matching element in document order |
| `Locators.FirstVisibleMatch` | src/js/content.js:58-69 | null iff no selector has a visible match; otherwise the first visible match of the first selector that has one |
| `Locators.FindFirstVisibleMatch` | src/js/content.js:58-69 | the nested selector/element loops return exactly `FirstVisibleMatch`: the first selector with a visible match, and for it the first visible match in document order (via `VisibleAmongMatches`) |
| `Locators.FindTextArea` | src/js/content.js:49-70 | findTextArea applies that rule to its four selectors |
| `Locators.FirstVisibleFirstMatch` | src/js/content.js:83-89 | null iff no selector's first match is visible; otherwise the first match of the first selector whose first match is visible |
| `Locators.FirstSendLike` | src/js/content.js:92-107 | null iff no button is visible, holds an icon and reaches past 70% of the viewport height and width; otherwise the first such button |
| `Locators.FirstSendLikeInDocumentOrder` | src/js/content.js:92-107 | scanning every button finds the first button in document order that is visible, holds an icon and sits bottom-right, or nothing iff there is none |
| `Locators.SendLikeButton` | src/js/content.js:92-107 | the fallback: nothing iff no button passes the test, otherwise the first passing button in document order |
| `Locators.FindSendButton` | src/js/content.js:73-110 | the loops return the selector hit if there is one, else the first icon button in the bottom-right region, else null |
| `Locators.OnlyFirstMatchCountsForSend` | src/js/content.js:83-88 | with a hidden first match and a visible second match, the text-area rule finds the second and the send-button rule finds nothing |
| `KeyHandler.IsEditable` | src/js/content.js:130-133 | the target test: a TEXTAREA or INPUT, a content-editable element, or an element whose role attribute is "textbox" |
| `KeyHandler.Classify` | src/js/content.js:130-158 | newline iff the target is editable, the key is Enter and no modifier is held; submit iff editable, Enter and Ctrl; the two are exclusive |
| `KeyHandler.ModifiedEnterPassesThrough` | src/js/content.js:138 | Shift, Alt or Meta with Enter and without Ctrl passes through |
| `KeyHandler.InsertLineFeed` | src/js/content.js:145-147 | the value grows by one, the caret position holds a line feed, the text before is unchanged and the text after is shifted by one |
| `KeyHandler.LineFeedKeepsSelection` | src/js/content.js:145-147 | selected text is kept after the inserted line feed, not replaced |
| `KeyHandler.LineFeedExample` | src/js/content.js:147 | Enter in "ab" with the caret at 1 gives "a\nb" |
| `KeyHandler.ClicksFor` | src/js/content.js:166-171 | exactly one click iff a button was found and it is not disabled, and it is that button |
| `KeyHandler.HandleKeyDown` | src/js/content.js:128-175 | non-editable or other keys: nothing changes; plain Enter in a field splices a line feed and moves the caret to caret+1; plain Enter elsewhere requests a native line break only for content-editable targets; Ctrl+Enter leaves the value alone and clicks the located button once iff it exists and is enabled; default and propagation are stopped iff the key is handled |
| `ContentScript.SetupIdempotent` | src/js/content.js:113-125 | after any positive number of setup calls the flag is up and exactly one keydown listener is registered |
| `ContentScript.Session.constructor` | src/js/content.js:232 | at script start no listener is registered, the flag is down, no observer is connected, and lastUrl is the page's URL |
| `ContentScript.Session.SetupKeyListeners` | src/js/content.js:113-125 | one setup call is the idempotent step: registers the listener only when the flag is down, and leaves one listener registered |
| `ContentScript.Session.StartObserver` | src/js/content.js:190-214 | afterwards the body observer is connected |
| `ContentScript.Session.Init` | src/js/content.js:178-187 | loads (seeding if needed) the record; if the page is active, the listener is attached once and the observer connected; otherwise listener and observer are untouched |
| `ContentScript.Session.OnBodyMutation` | src/js/content.js:199-206 | re-runs the idempotent setup iff findTextArea finds a target |
| `ContentScript.Session.OnUrlMutation` | src/js/content.js:232-240 | afterwards lastUrl is the current URL; an unchanged URL changes nothing; a changed URL has exactly init's effect: the record is loaded or seeded, and the listener and observer are attached iff the page is active under that record |
| `Options.Trim` | src/js/options.js:85 | the result is empty iff the input is all white space; it is a slice of the input with only white space around it, and it neither starts nor ends with white space |
| `Options.FindByUrl` | src/js/options.js:89 | nothing iff no entry has exactly that url; otherwise the first entry with that url |
| `Options.RemoveAt` | src/js/options.js:74 | one entry fewer: the entries before the index are kept, the ones after move down by one, in order |
| `Options.SetEnabled` | src/js/options.js:65 | only the enabled flag of the entry at the index changes, to the checkbox value; its url and every other entry stay |
| `Options.AppendKeepsDistinct` | src/js/options.js:89-95 | appending a url that find did not locate keeps all urls distinct |
| `Options.RemoveKeepsDistinct` | src/js/options.js:74 | removing an entry keeps all urls distinct |
| `Options.DisablingNeverActivates` | src/js/options.js:64-66 | switching an entry off never makes a page active |
| `Options.EnablingMatchActivates` | src/js/options.js:64-66 | switching on an entry whose pattern occurs in a URL makes that page active |
| `Options.OptionsPage.constructor` | src/js/options.js:130-134 | the page's record is the stored one, or the default which is then stored |
| `Options.OptionsPage.AddNewSite` | src/js/options.js:84-103 | blank input: nothing changes; new url: the trimmed url is appended enabled, prior entries keep their order, the input is cleared; duplicate: list and input unchanged and one alert raised; distinct urls are preserved |
| `Options.OptionsPage.RemoveSite` | src/js/options.js:73-76 | the list loses exactly the entry at the index, the rest keep their order; distinct urls are preserved |
| `Options.OptionsPage.ToggleSite` | src/js/options.js:64-66 | only that entry's enabled flag becomes the checkbox value; distinct urls are preserved |
| `Options.OptionsPage.SaveCurrentSettings` | src/js/options.js:106-108 | the store holds exactly the page's current record |

## Left out

- Asynchronous storage: the Promise and callback plumbing of the store is modelled as synchronous calls. Interleavings of several pending `init` runs are not modelled.
- Initial triggers: the observer objects themselves and the `readyState`, `DOMContentLoaded` and `load` triggers (`src/js/content.js:216-229`) are not modelled. The model keeps the procedures those triggers converge on: `Init`, `OnBodyMutation`, `OnUrlMutation` and `StartObserver`.
- `logDebug` and all console output are left out.
- Options UI: the DOM building of `renderSiteList` and the wording of the duplicate `alert` are left out; the alert is a counter. The two-second status message after saving is also left out.
- `document.execCommand('insertLineBreak')` is a foreign browser operation. Its effect on a rich editor is not modelled; it is recorded as a line-break request.
- Selector matching, `offsetParent`, `getBoundingClientRect` and the icon lookup are inputs, carried as fields of `Element`. The 70% viewport test uses exact reals rather than floating point.
- `KeyHandler.HandleKeyDown` assumes a selection inside the value, as `EditTarget.Valid` states. Input types whose `selectionStart` is null are not modelled. Neither is the browser stripping line breaks from a single-line `INPUT`'s value.
- Strings are sequences of Unicode characters. The browser counts caret offsets (`selectionStart`) and `slice` positions in UTF-16 code units, but the model counts characters. Lone surrogates cannot be represented.
- `Settings.Store.Load` treats any stored record as well-formed. A truthy stored value without a `sites` list is not modelled.
- `Options.OptionsPage.RemoveSite` and `Options.OptionsPage.ToggleSite` require an index inside the list. Their closures are built per rendered row. Removal re-renders the list, so the surviving closures hold fresh indices. Toggling does not change the length. So an out-of-range index cannot reach them.
- `DEFAULT_SETTINGS` is a shared object that the options page edits in place after a first-run load. This aliasing is not modelled, because that object is read only once per page.
