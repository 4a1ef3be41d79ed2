/**
 * `FluckBrowserTabData`: the immutable description of one browser tab. Updates
 * return a copy with one field changed. Icons are named rather than drawn.
 */
module TabData {
  import opened Wrappers
  import opened Strings

  /** The longest title a tab keeps. */
  const MaxTitleLength: nat := 64

  /** The page a new tab opens. */
  const DefaultUrl := "https://www.risalabs.ai"

  const DefaultTitle := "New Tab"

  /** The `Language` outline icon every tab starts with. */
  const DefaultIcon := "Language"

  datatype BrowserTabData = BrowserTabData(
    id: string,
    title: string,
    icon: string,
    tabIcon: Option<string>,
    initialUrl: string,
    faviconCacheKey: Option<string>)
  {
    /** `updateTitle`: the new title, cut to its first 64 characters; nothing else changes. */
    function UpdateTitle(newTitle: string): (r: BrowserTabData)
      ensures |r.title| <= MaxTitleLength
      ensures r.title <= newTitle
      ensures |newTitle| <= MaxTitleLength ==> r.title == newTitle
      ensures |newTitle| > MaxTitleLength ==> |r.title| == MaxTitleLength
      ensures r.id == id && r.icon == icon && r.tabIcon == tabIcon
      ensures r.initialUrl == initialUrl && r.faviconCacheKey == faviconCacheKey
    {
      var truncated := if |newTitle| > MaxTitleLength then TakeChars(newTitle, MaxTitleLength) else newTitle;
      this.(title := truncated)
    }

    /** `updateFaviconCacheKey`: the key replaced, a missing key included; nothing else changes. */
    function UpdateFaviconCacheKey(cacheKey: Option<string>): (r: BrowserTabData)
      ensures r.faviconCacheKey == cacheKey
      ensures r.id == id && r.title == title && r.icon == icon && r.tabIcon == tabIcon
      ensures r.initialUrl == initialUrl
    {
      this.(faviconCacheKey := cacheKey)
    }
  }

  /** A tab built with every default: titled "New Tab" and opening the default URL. */
  function NewTab(id: string): (t: BrowserTabData)
    ensures t.id == id && t.title == DefaultTitle && t.initialUrl == DefaultUrl
    ensures t.icon == DefaultIcon && t.tabIcon == None && t.faviconCacheKey == None
  {
    BrowserTabData(id, DefaultTitle, DefaultIcon, None, DefaultUrl, None)
  }

  /** Setting a title twice is setting it once, and a kept title survives another update. */
  lemma UpdateTitleIdempotent(t: BrowserTabData, newTitle: string)
    ensures t.UpdateTitle(newTitle).UpdateTitle(newTitle) == t.UpdateTitle(newTitle)
    ensures var u := t.UpdateTitle(newTitle); u.UpdateTitle(u.title) == u
  {
  }

  /** The two updates touch different fields, so their order does not matter. */
  lemma UpdatesCommute(t: BrowserTabData, newTitle: string, cacheKey: Option<string>)
    ensures t.UpdateTitle(newTitle).UpdateFaviconCacheKey(cacheKey)
            == t.UpdateFaviconCacheKey(cacheKey).UpdateTitle(newTitle)
  {
  }

  /** A new tab's title fits, so updating it with its own title changes nothing. */
  lemma NewTabTitleFits(id: string)
    ensures NewTab(id).UpdateTitle(DefaultTitle) == NewTab(id)
  {
  }
}
