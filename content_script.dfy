/**
  The content script's page-level state: the "listener attached" flag, the
  DOM observer that re-attaches the listener, and the last-seen URL that
  triggers re-initialisation on single-page navigation.
 */
module ContentScript {
  import opened Wrappers
  import opened Settings
  import opened Dom
  import SiteMatcher
  import Locators

  /** The attachment flag and how many keydown listeners are registered on the document. */
  datatype Listeners = Listeners(active: bool, registered: nat)

  /** The flag and the registrations agree: one listener exactly when the flag is up. */
  predicate Consistent(s: Listeners)
  {
    s.registered == if s.active then 1 else 0
  }

  /** One call of setupKeyListeners. */
  function SetupStep(s: Listeners): Listeners
  {
    if s.active then s else Listeners(true, s.registered + 1)
  }

  /** `n` calls of setupKeyListeners in a row. */
  function SetupTimes(s: Listeners, n: nat): Listeners
    decreases n
  {
    if n == 0 then s else SetupTimes(SetupStep(s), n - 1)
  }

  /** After any positive number of calls, the flag is up and exactly one listener is registered. */
  lemma {:induction false} SetupIdempotent(s: Listeners, n: nat)
    requires Consistent(s)
    requires n >= 1
    ensures SetupTimes(s, n) == Listeners(true, 1)
    decreases n
  {
    if n > 1 {
      SetupIdempotent(SetupStep(s), n - 1);
    }
  }

  /** The content script running in one page. */
  class Session {
    const store: Store
    const page: Page
    /** window.geminiCtrlEnterListenerActive */
    var listenerActive: bool
    /** How many times handleKeyDown has been registered on the document. */
    var keydownListeners: nat
    /** Whether window.geminiCtrlEnterObserver is connected. */
    var observerConnected: bool
    /** lastUrl */
    var lastUrl: string

    ghost predicate Valid()
      reads this
    {
      Consistent(Listeners(listenerActive, keydownListeners))
    }

    function ListenerState(): Listeners
      reads this
    {
      Listeners(listenerActive, keydownListeners)
    }

    /** Script start: `lastUrl` is the URL the page was loaded with. */
    constructor (store: Store, page: Page, url: string)
      ensures Valid()
      ensures this.store == store && this.page == page
      ensures !listenerActive && keydownListeners == 0 && !observerConnected
      ensures lastUrl == url
    {
      this.store := store;
      this.page := page;
      listenerActive := false;
      keydownListeners := 0;
      observerConnected := false;
      lastUrl := url;
    }

    /** setupKeyListeners: register handleKeyDown unless the flag says it already is. */
    method SetupKeyListeners()
      requires Valid()
      modifies this`listenerActive, this`keydownListeners
      ensures Valid()
      ensures ListenerState() == SetupStep(old(ListenerState()))
      ensures listenerActive && keydownListeners == 1
    {
      if listenerActive {
        return;
      }
      listenerActive := true;
      keydownListeners := keydownListeners + 1;
    }

    /** startObserver: disconnect any previous observer and connect a new one, so one is connected. */
    method StartObserver()
      modifies this`observerConnected
      ensures observerConnected
    {
      observerConnected := true;
    }

    /** init: load the settings and, if this URL is enabled, attach the listener and the observer. */
    method Init(currentUrl: string)
      requires Valid()
      modifies this`listenerActive, this`keydownListeners, this`observerConnected, store
      ensures Valid()
      ensures var s := if old(store.record).Some? then old(store.record).value else DefaultSettings;
        && store.record == Some(s)
        && (if SiteMatcher.Active(s.sites, currentUrl)
            then listenerActive && keydownListeners == 1 && observerConnected
            else ListenerState() == old(ListenerState()) && observerConnected == old(observerConnected))
    {
      var settings := store.Load();
      var enabled := SiteMatcher.IsSiteEnabled(settings, currentUrl);
      if enabled {
        SetupKeyListeners();
        StartObserver();
      }
    }

    /** The body observer's callback: re-attach once a text area can be found. */
    method OnBodyMutation()
      requires Valid()
      requires observerConnected
      modifies this`listenerActive, this`keydownListeners
      ensures Valid()
      ensures ListenerState() == if Locators.FirstVisibleMatch(page.doc, Locators.TextAreaSelectors).Some?
        then SetupStep(old(ListenerState())) else old(ListenerState())
    {
      var textArea := Locators.FindTextArea(page.doc);
      if textArea.Some? {
        SetupKeyListeners();
      }
    }

    /** The URL watcher's callback: re-run init exactly when the URL differs from lastUrl. */
    method OnUrlMutation(url: string)
      requires Valid()
      modifies this`lastUrl, this`listenerActive, this`keydownListeners, this`observerConnected, store
      ensures Valid()
      ensures lastUrl == url
      ensures url == old(lastUrl) ==>
        && ListenerState() == old(ListenerState())
        && observerConnected == old(observerConnected)
        && store.record == old(store.record)
      ensures url != old(lastUrl) ==>
        var s := if old(store.record).Some? then old(store.record).value else DefaultSettings;
        && store.record == Some(s)
        && (if SiteMatcher.Active(s.sites, url)
            then listenerActive && keydownListeners == 1 && observerConnected
            else ListenerState() == old(ListenerState()) && observerConnected == old(observerConnected))
    {
      if url != lastUrl {
        lastUrl := url;
        Init(url);
      }
    }
  }
}
