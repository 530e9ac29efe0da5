/** Deciding whether the key interception is active on a page URL. */
module SiteMatcher {
  import opened Settings

  /** `needle` occurs in `haystack` starting at offset `i`. */
  predicate OccursAt(haystack: string, needle: string, i: int)
  {
    0 <= i && i + |needle| <= |haystack| && haystack[i..i + |needle|] == needle
  }

  /** String.prototype.includes: some occurrence exists (the empty string occurs everywhere). */
  predicate Includes(haystack: string, needle: string)
  {
    exists i :: 0 <= i <= |haystack| && OccursAt(haystack, needle, i)
  }

  /** The matching rule: some entry is enabled and its pattern is a substring of the URL. */
  ghost predicate Active(sites: seq<SiteEntry>, url: string)
  {
    exists k :: 0 <= k < |sites| && Includes(url, sites[k].url) && sites[k].enabled
  }

  /** isSiteEnabled: scan the entries in order and stop at the first enabled match. */
  method IsSiteEnabled(settings: Settings, currentUrl: string) returns (r: bool)
    ensures r == Active(settings.sites, currentUrl)
  {
    for k := 0 to |settings.sites|
      invariant forall j :: 0 <= j < k ==>
        !(Includes(currentUrl, settings.sites[j].url) && settings.sites[j].enabled)
    {
      var site := settings.sites[k];
      if Includes(currentUrl, site.url) && site.enabled {
        return true;
      }
    }
    return false;
  }

  /** The entries of `sites` that are switched on, in their order. */
  function EnabledOnly(sites: seq<SiteEntry>): (r: seq<SiteEntry>)
    ensures |r| <= |sites|
    ensures forall e :: e in r <==> e in sites && e.enabled
  {
    if sites == [] then []
    else if sites[0].enabled then [sites[0]] + EnabledOnly(sites[1..])
    else EnabledOnly(sites[1..])
  }

  /** A disabled entry never contributes: dropping every disabled entry keeps the verdict. */
  lemma ActiveIgnoresDisabled(sites: seq<SiteEntry>, url: string)
    ensures Active(sites, url) <==> Active(EnabledOnly(sites), url)
  {
  }

  /** Appending an entry activates exactly the URLs it matches, on top of the earlier ones. */
  lemma ActiveAfterAppend(sites: seq<SiteEntry>, e: SiteEntry, url: string)
    ensures Active(sites + [e], url) <==> Active(sites, url) || (Includes(url, e.url) && e.enabled)
  {
    var s := sites + [e];
    if Active(s, url) {
      var k :| 0 <= k < |s| && Includes(url, s[k].url) && s[k].enabled;
      if k < |sites| {
        assert s[k] == sites[k];
      } else {
        assert s[k] == e;
      }
    }
    if Active(sites, url) {
      var k :| 0 <= k < |sites| && Includes(url, sites[k].url) && sites[k].enabled;
      assert s[k] == sites[k];
    }
    if Includes(url, e.url) && e.enabled {
      assert s[|sites|] == e;
    }
  }

  /** Out of the box the interception is active exactly on URLs containing "gemini.google.com". */
  lemma DefaultActivation(url: string)
    ensures Active(DefaultSettings.sites, url) <==> Includes(url, "gemini.google.com")
  {
    assert DefaultSettings.sites[0] == SiteEntry("gemini.google.com", true);
  }
}
