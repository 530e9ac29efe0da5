/**
  The settings record shared by the content script and the options page,
  and the key-value store that persists it under the single key
  "geminiCtrlEnterSettings". The store's asynchronous callbacks are
  modelled as synchronous calls.
 */
module Settings {
  import opened Wrappers

  /** One row of the site list: a substring pattern and whether it is switched on. */
  datatype SiteEntry = SiteEntry(url: string, enabled: bool)

  /** The whole persisted record. */
  datatype Settings = Settings(sites: seq<SiteEntry>)

  /** The record written on first run. */
  const DefaultSettings: Settings := Settings([SiteEntry("gemini.google.com", true)])

  /** The persistent store; `record` is None until something has been written. */
  class Store {
    var record: Option<Settings>

    constructor (initial: Option<Settings>)
      ensures record == initial
    {
      record := initial;
    }

    /** loadSettings: return the stored record, or seed and return the default one. */
    method Load() returns (s: Settings)
      modifies this
      ensures old(record).None? ==> s == DefaultSettings
      ensures old(record).Some? ==> s == old(record).value
      ensures record == Some(s)
    {
      match record
      case Some(r) =>
        s := r;
      case None =>
        s := DefaultSettings;
        record := Some(DefaultSettings);
    }

    /** saveSettings: replace the stored record wholesale, with no merge. */
    method Save(s: Settings)
      modifies this
      ensures record == Some(s)
    {
      record := Some(s);
    }
  }

  /** Two loads in a row see the same record, and the second changes nothing. */
  method LoadTwice(store: Store) returns (first: Settings, second: Settings)
    modifies store
    ensures first == second
    ensures old(store.record).None? ==> first == DefaultSettings
    ensures store.record == Some(first)
  {
    first := store.Load();
    second := store.Load();
  }
}
