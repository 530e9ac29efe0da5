/**
  The options page: it loads the settings record, lets the user add, remove
  and toggle site entries in its in-memory copy, and saves the copy back
  wholesale.
 */
module Options {
  import opened Wrappers
  import opened Settings
  import SiteMatcher

  /** ECMAScript white space and line terminators, the characters String.prototype.trim removes. */
  predicate IsSpace(c: char)
  {
    c == '\t' || c == '\U{0B}' || c == '\U{0C}' || c == ' ' || c == '\U{A0}' || c == '\U{FEFF}'
    || c == '\U{1680}' || ('\U{2000}' <= c <= '\U{200A}') || c == '\U{202F}' || c == '\U{205F}'
    || c == '\U{3000}' || c == '\n' || c == '\r' || c == '\U{2028}' || c == '\U{2029}'
  }

  /** `s` without its leading white space. */
  function TrimStart(s: string): (r: string)
    ensures |r| <= |s| && r == s[|s| - |r|..]
    ensures r != [] ==> !IsSpace(r[0])
    ensures forall i :: 0 <= i < |s| - |r| ==> IsSpace(s[i])
  {
    if s != [] && IsSpace(s[0]) then TrimStart(s[1..]) else s
  }

  /** `s` without its trailing white space. */
  function TrimEnd(s: string): (r: string)
    ensures |r| <= |s| && r == s[..|r|]
    ensures r != [] ==> !IsSpace(r[|r| - 1])
    ensures forall i :: |r| <= i < |s| ==> IsSpace(s[i])
  {
    if s != [] && IsSpace(s[|s| - 1]) then TrimEnd(s[..|s| - 1]) else s
  }

  /** `r` is `s[a..a + |r|]` and everything around it in `s` is white space. */
  ghost predicate StrippedAt(s: string, r: string, a: int)
  {
    0 <= a && a + |r| <= |s| && s[a..a + |r|] == r
    && (forall i :: 0 <= i < a ==> IsSpace(s[i]))
    && (forall i :: a + |r| <= i < |s| ==> IsSpace(s[i]))
  }

  /** Cutting leading white space and then trailing white space leaves a slice with only white space around it. */
  lemma StrippedFromParts(s: string, t: string, r: string)
    requires |t| <= |s| && t == s[|s| - |t|..]
    requires forall i :: 0 <= i < |s| - |t| ==> IsSpace(s[i])
    requires |r| <= |t| && r == t[..|r|]
    requires forall i :: |r| <= i < |t| ==> IsSpace(t[i])
    ensures StrippedAt(s, r, |s| - |t|)
  {
    var a := |s| - |t|;
    forall i | 0 <= i < |r| ensures s[a..a + |r|][i] == r[i] {
      assert r[i] == t[i] == s[a + i];
    }
    forall i | a + |r| <= i < |s| ensures IsSpace(s[i]) {
      assert s[i] == t[i - a];
    }
  }

  /** String.prototype.trim. */
  function Trim(s: string): (r: string)
    ensures r == [] <==> forall i :: 0 <= i < |s| ==> IsSpace(s[i])
    ensures r != [] ==> !IsSpace(r[0]) && !IsSpace(r[|r| - 1])
    ensures exists a :: StrippedAt(s, r, a)
  {
    var t := TrimStart(s);
    var r := TrimEnd(t);
    StrippedFromParts(s, t, r);
    r
  }

  /** `sites[k]` has exactly `url` and no earlier entry has. */
  predicate FirstWithUrlAt(sites: seq<SiteEntry>, url: string, k: int)
  {
    0 <= k < |sites| && sites[k].url == url && forall j :: 0 <= j < k ==> sites[j].url != url
  }

  /** Array.prototype.find with `site.url === url`: the first entry carrying exactly that URL. */
  function FindByUrl(sites: seq<SiteEntry>, url: string): (r: Option<SiteEntry>)
    ensures r.None? <==> forall k :: 0 <= k < |sites| ==> sites[k].url != url
    ensures r.Some? ==> r.value.url == url
    ensures r.Some? ==> exists k :: FirstWithUrlAt(sites, url, k) && sites[k] == r.value
  {
    if sites == [] then None
    else if sites[0].url == url then Some(sites[0])
    else FindByUrl(sites[1..], url)
  }

  /** No two entries share a URL. */
  ghost predicate DistinctUrls(sites: seq<SiteEntry>)
  {
    forall i, j :: 0 <= i < j < |sites| ==> sites[i].url != sites[j].url
  }

  /** splice(index, 1): the list without the entry at `index`. */
  function RemoveAt(sites: seq<SiteEntry>, index: nat): (r: seq<SiteEntry>)
    requires index < |sites|
    ensures |r| == |sites| - 1
    ensures forall j :: 0 <= j < index ==> r[j] == sites[j]
    ensures forall j :: index <= j < |r| ==> r[j] == sites[j + 1]
  {
    sites[..index] + sites[index + 1..]
  }

  /** `sites[index].enabled = checked`. */
  function SetEnabled(sites: seq<SiteEntry>, index: nat, checked: bool): (r: seq<SiteEntry>)
    requires index < |sites|
    ensures |r| == |sites|
    ensures r[index].url == sites[index].url && r[index].enabled == checked
    ensures forall j :: 0 <= j < |r| && j != index ==> r[j] == sites[j]
  {
    sites[index := sites[index].(enabled := checked)]
  }

  /** Appending a URL that find did not locate keeps the URLs distinct. */
  lemma AppendKeepsDistinct(sites: seq<SiteEntry>, url: string)
    requires DistinctUrls(sites)
    requires FindByUrl(sites, url).None?
    ensures DistinctUrls(sites + [SiteEntry(url, true)])
  {
  }

  /** Removing an entry keeps the URLs distinct. */
  lemma RemoveKeepsDistinct(sites: seq<SiteEntry>, index: nat)
    requires DistinctUrls(sites)
    requires index < |sites|
    ensures DistinctUrls(RemoveAt(sites, index))
  {
  }

  /** Switching an entry off never switches a page on. */
  lemma DisablingNeverActivates(sites: seq<SiteEntry>, index: nat, url: string)
    requires index < |sites|
    ensures SiteMatcher.Active(SetEnabled(sites, index, false), url) ==> SiteMatcher.Active(sites, url)
  {
  }

  /** Switching on an entry whose pattern occurs in the URL switches the page on. */
  lemma EnablingMatchActivates(sites: seq<SiteEntry>, index: nat, url: string)
    requires index < |sites|
    requires SiteMatcher.Includes(url, sites[index].url)
    ensures SiteMatcher.Active(SetEnabled(sites, index, true), url)
  {
  }

  /** The options page's state: its copy of the record, the add-site input, and the duplicate alerts raised. */
  class OptionsPage {
    const store: Store
    /** currentSettings */
    var currentSettings: Settings
    /** newSiteInput.value */
    var newSiteInput: string
    /** How many times the "already registered" alert has been shown. */
    var duplicateAlerts: nat

    /** init: load (and on first run seed) the record. */
    constructor (store: Store)
      modifies store
      ensures this.store == store
      ensures old(store.record).None? ==> currentSettings == DefaultSettings
      ensures old(store.record).Some? ==> currentSettings == old(store.record).value
      ensures store.record == Some(currentSettings)
      ensures newSiteInput == "" && duplicateAlerts == 0
    {
      var loaded := store.Load();
      this.store := store;
      currentSettings := loaded;
      newSiteInput := "";
      duplicateAlerts := 0;
    }

    /** addNewSite. */
    method AddNewSite()
      modifies this`currentSettings, this`newSiteInput, this`duplicateAlerts
      ensures var url := Trim(old(newSiteInput));
        var before := old(currentSettings.sites);
        if url == [] then
          && currentSettings == old(currentSettings)
          && newSiteInput == old(newSiteInput)
          && duplicateAlerts == old(duplicateAlerts)
        else if FindByUrl(before, url).None? then
          && currentSettings.sites == before + [SiteEntry(url, true)]
          && newSiteInput == ""
          && duplicateAlerts == old(duplicateAlerts)
        else
          && currentSettings == old(currentSettings)
          && newSiteInput == old(newSiteInput)
          && duplicateAlerts == old(duplicateAlerts) + 1
      ensures DistinctUrls(old(currentSettings.sites)) ==> DistinctUrls(currentSettings.sites)
    {
      var url := Trim(newSiteInput);
      if url != [] {
        var existingSite := FindByUrl(currentSettings.sites, url);
        if existingSite.None? {
          if DistinctUrls(currentSettings.sites) {
            AppendKeepsDistinct(currentSettings.sites, url);
          }
          currentSettings := Settings(currentSettings.sites + [SiteEntry(url, true)]);
          newSiteInput := "";
        } else {
          duplicateAlerts := duplicateAlerts + 1;
        }
      }
    }

    /** The remove button of row `index`. */
    method RemoveSite(index: nat)
      requires index < |currentSettings.sites|
      modifies this`currentSettings
      ensures currentSettings.sites == RemoveAt(old(currentSettings.sites), index)
      ensures DistinctUrls(old(currentSettings.sites)) ==> DistinctUrls(currentSettings.sites)
    {
      if DistinctUrls(currentSettings.sites) {
        RemoveKeepsDistinct(currentSettings.sites, index);
      }
      currentSettings := Settings(RemoveAt(currentSettings.sites, index));
    }

    /** The enabled checkbox of row `index` changed to `checked`. */
    method ToggleSite(index: nat, checked: bool)
      requires index < |currentSettings.sites|
      modifies this`currentSettings
      ensures currentSettings.sites == SetEnabled(old(currentSettings.sites), index, checked)
      ensures DistinctUrls(old(currentSettings.sites)) ==> DistinctUrls(currentSettings.sites)
    {
      currentSettings := Settings(SetEnabled(currentSettings.sites, index, checked));
    }

    /** saveCurrentSettings: write the whole record back. */
    method SaveCurrentSettings()
      modifies store
      ensures store.record == Some(currentSettings)
    {
      store.Save(currentSettings);
    }
  }
}
